/** The API-key pool and the rotation executor that wraps every call to the
    hosted model.

    The environment is a map from variable name to value. The pool keeps the
    keys in the order they were read and a round-robin cursor; a client
    instance is identified by the index of its key. The operation handed to
    the executor is an oracle: `op(i)` is what the operation does when it is
    given the instance of key i, either `Ok(result)` or `Err(message)`, where
    the message is that of the thrown value once it has been turned into an
    `Error`. Within one call each key is handed to the operation at most
    once, so a function of the key index describes any behaviour of the
    operation during that call. */
module Genkit {
  import opened Types
  import opened Strings

  // ---------------------------------------------------------------------
  // Reading the keys from the environment
  // ---------------------------------------------------------------------

  const PrimaryVar: string := "GEMINI_API_KEY"
  const FirstSuffix: nat := 2
  const LastSuffix: nat := 10
  /** The primary variable plus the suffixes 2..10. */
  const MaxKeys: nat := 1 + LastSuffix - FirstSuffix + 1

  /** The name of the fallback variable with suffix i, `GEMINI_API_KEY_<i>`. */
  function SuffixVar(i: nat): string {
    PrimaryVar + "_" + NatToString(i)
  }

  /** A variable is set when it is defined and not empty (it is truthy). */
  predicate IsSet(env: map<string, string>, name: string) {
    name in env && env[name] != ""
  }

  /** What one variable contributes to the key list. */
  function Present(env: map<string, string>, name: string): seq<string> {
    if IsSet(env, name) then [env[name]] else []
  }

  /** The keys of the fallback variables with suffixes lo .. hi-1, in
      increasing suffix order. */
  function SuffixedKeys(env: map<string, string>, lo: nat, hi: nat): seq<string>
    decreases hi
  {
    if hi <= lo then [] else SuffixedKeys(env, lo, hi - 1) + Present(env, SuffixVar(hi - 1))
  }

  /** The key list: the primary key first, then the fallback keys by suffix. */
  function KeyList(env: map<string, string>): seq<string> {
    Present(env, PrimaryVar) + SuffixedKeys(env, FirstSuffix, LastSuffix + 1)
  }

  datatype ConfigError = NoApiKeyFound

  /** `getApiKeys`: collects the keys, and fails when there is none. */
  method GetApiKeys(env: map<string, string>) returns (r: Result<seq<string>, ConfigError>)
    ensures r.Success? ==> r.value == KeyList(env) && r.value != []
    ensures r.Failure? ==> KeyList(env) == []
  {
    var keys: seq<string> := [];
    if PrimaryVar in env && env[PrimaryVar] != "" {
      keys := keys + [env[PrimaryVar]];
    }
    for i := FirstSuffix to LastSuffix + 1
      invariant keys == Present(env, PrimaryVar) + SuffixedKeys(env, FirstSuffix, i)
    {
      var name := SuffixVar(i);
      if name in env && env[name] != "" {
        keys := keys + [env[name]];
      }
    }
    if |keys| == 0 {
      return Failure(NoApiKeyFound);
    }
    return Success(keys);
  }

  /** Each fallback variable adds at most one key, and never an empty one. */
  lemma {:induction false} SuffixedKeysBound(env: map<string, string>, lo: nat, hi: nat)
    requires lo <= hi
    ensures |SuffixedKeys(env, lo, hi)| <= hi - lo
    ensures forall k :: 0 <= k < |SuffixedKeys(env, lo, hi)| ==> SuffixedKeys(env, lo, hi)[k] != ""
    decreases hi
  {
    if hi > lo {
      SuffixedKeysBound(env, lo, hi - 1);
    }
  }

  /** The pool holds at most ten keys, none of them empty. */
  lemma KeyListBound(env: map<string, string>)
    ensures |KeyList(env)| <= MaxKeys
    ensures forall k :: 0 <= k < |KeyList(env)| ==> KeyList(env)[k] != ""
  {
    SuffixedKeysBound(env, FirstSuffix, LastSuffix + 1);
  }

  /** The primary key, when set, comes first. */
  lemma KeyListPrimaryFirst(env: map<string, string>)
    requires IsSet(env, PrimaryVar)
    ensures |KeyList(env)| >= 1 && KeyList(env)[0] == env[PrimaryVar]
  {
  }

  /** Fallback keys keep suffix order: the keys of suffixes below mid come
      before those of suffixes from mid on. */
  lemma {:induction false} SuffixedKeysSplit(env: map<string, string>, lo: nat, mid: nat, hi: nat)
    requires lo <= mid <= hi
    ensures SuffixedKeys(env, lo, hi) == SuffixedKeys(env, lo, mid) + SuffixedKeys(env, mid, hi)
    decreases hi
  {
    if hi > mid {
      SuffixedKeysSplit(env, lo, mid, hi - 1);
    }
  }

  /** The fallback variable with suffix i is set to key. */
  predicate SetTo(env: map<string, string>, i: nat, key: string) {
    IsSet(env, SuffixVar(i)) && env[SuffixVar(i)] == key
  }

  /** A fallback key that is set is in the list; and every fallback key in
      the list comes from a variable that is set. */
  lemma {:induction false} SuffixedKeysMembers(env: map<string, string>, lo: nat, hi: nat, key: string)
    ensures key in SuffixedKeys(env, lo, hi) <==> exists i :: lo <= i < hi && SetTo(env, i, key)
    decreases hi
  {
    if hi > lo {
      SuffixedKeysMembers(env, lo, hi - 1, key);
      var before := SuffixedKeys(env, lo, hi - 1);
      var last := Present(env, SuffixVar(hi - 1));
      assert SuffixedKeys(env, lo, hi) == before + last;
      assert key in before + last <==> key in before || key in last;
      assert key in last <==> SetTo(env, hi - 1, key);
    }
  }

  /** The list is empty exactly when neither the primary variable nor any
      of the fallback variables is set; then `getApiKeys` throws. */
  lemma KeyListEmpty(env: map<string, string>)
    ensures KeyList(env) == [] <==>
              !IsSet(env, PrimaryVar) && forall i :: FirstSuffix <= i <= LastSuffix ==> !IsSet(env, SuffixVar(i))
  {
    var suffixed := SuffixedKeys(env, FirstSuffix, LastSuffix + 1);
    if KeyList(env) == [] {
      forall i | FirstSuffix <= i <= LastSuffix
        ensures !IsSet(env, SuffixVar(i))
      {
        if IsSet(env, SuffixVar(i)) {
          assert SetTo(env, i, env[SuffixVar(i)]);
          SuffixedKeysMembers(env, FirstSuffix, LastSuffix + 1, env[SuffixVar(i)]);
        }
      }
    } else if !IsSet(env, PrimaryVar) {
      var key := suffixed[0];
      SuffixedKeysMembers(env, FirstSuffix, LastSuffix + 1, key);
      var i :| FirstSuffix <= i < LastSuffix + 1 && SetTo(env, i, key);
    }
  }

  // ---------------------------------------------------------------------
  // The retry predicate
  // ---------------------------------------------------------------------

  /** The substrings that mark an error as transient. */
  const RetryMarkers: seq<string> :=
    ["503", "429", "quota", "rate", "high demand", "resource exhausted", "unavailable"]

  /** Some marker of the list occurs in s. */
  function ContainsAny(s: string, markers: seq<string>): bool {
    if markers == [] then false
    else Contains(s, markers[0]) || ContainsAny(s, markers[1..])
  }

  /** An error is retryable when its lower-cased message contains one of
      the markers anywhere, as a plain substring. */
  predicate IsRetryable(message: string)
    ensures IsRetryable(message) <==> exists marker :: marker in RetryMarkers && Contains(Lower(message), marker)
  {
    ContainsAnyMarker(Lower(message), RetryMarkers);
    ContainsAny(Lower(message), RetryMarkers)
  }

  lemma {:induction false} ContainsAnyMarker(s: string, markers: seq<string>)
    ensures ContainsAny(s, markers) <==> exists marker :: marker in markers && Contains(s, marker)
  {
    if markers != [] {
      ContainsAnyMarker(s, markers[1..]);
      if Contains(s, markers[0]) {
        assert markers[0] in markers;
      } else if ContainsAny(s, markers[1..]) {
        var marker :| marker in markers[1..] && Contains(s, marker);
        assert marker in markers;
      } else {
        forall marker | marker in markers
          ensures !Contains(s, marker)
        {
          assert marker == markers[0] || marker in markers[1..];
        }
      }
    }
  }

  /** Retryable exactly when some marker occurs somewhere in the
      lower-cased message. */
  lemma RetryableIffMarkerOccurs(message: string)
    ensures IsRetryable(message) <==>
              exists marker, i: nat :: marker in RetryMarkers && OccursAt(Lower(message), marker, i)
  {
    ContainsAnyMarker(Lower(message), RetryMarkers);
    forall marker | marker in RetryMarkers
      ensures Contains(Lower(message), marker) <==> exists i: nat :: OccursAt(Lower(message), marker, i)
    {
      ContainsOccurs(Lower(message), marker);
    }
  }

  lemma LowerConcat(a: string, b: string)
    ensures Lower(a + b) == Lower(a) + Lower(b)
  {
  }

  /** A retryable message stays retryable inside a longer message: the
      match is on substrings, whatever text surrounds the marker. */
  lemma RetryableInContext(before: string, message: string, after: string)
    requires IsRetryable(message)
    ensures IsRetryable(before + message + after)
  {
    RetryableIffMarkerOccurs(message);
    var marker, i: nat :| marker in RetryMarkers && OccursAt(Lower(message), marker, i);
    LowerConcat(before + message, after);
    LowerConcat(before, message);
    var whole := Lower(before + message + after);
    assert whole == Lower(before) + Lower(message) + Lower(after);
    assert whole[|before| + i .. |before| + i + |marker|] == Lower(message)[i .. i + |marker|];
    assert OccursAt(whole, marker, |before| + i);
    RetryableIffMarkerOccurs(before + message + after);
  }

  /** The marker "rate" also matches inside ordinary words such as
      "generate", so such a failure is retried. */
  lemma RateMatchesInsideWords()
    ensures IsRetryable("Failed to generate content")
  {
    var m := "Failed to generate content";
    assert Lower(m)[14..18] == "rate";
    assert OccursAt(Lower(m), "rate", 14);
    RetryableIffMarkerOccurs(m);
  }

  /** The match ignores ASCII case. */
  lemma RetryableIgnoresCase()
    ensures IsRetryable("RESOURCE EXHAUSTED")
  {
    var m := "RESOURCE EXHAUSTED";
    assert Lower(m) == "resource exhausted";
    assert OccursAt(Lower(m), "resource exhausted", 0);
    RetryableIffMarkerOccurs(m);
  }

  // ---------------------------------------------------------------------
  // The rotation executor
  // ---------------------------------------------------------------------

  /** What one invocation of the operation does. */
  datatype Attempt<+T> = Ok(value: T) | Err(message: string)

  /** What the executor throws: the non-retryable error itself, or the
      exhaustion error naming the number of keys and the last message
      (None when that message is empty and 'Unknown' is printed instead). */
  datatype RotationError = Fatal(message: string) | Exhausted(keyCount: nat, lastMessage: Option<string>)

  /** The outcome of one executor call together with the key indices handed
      to the operation, in order. */
  datatype Run<+T> = Run(result: Result<T, RotationError>, calls: seq<nat>)

  /** The last message as the exhaustion error reports it; None stands for
      the 'Unknown' text printed when there is no message. */
  function ExhaustionDetail(last: string): Option<string> {
    if last == "" then None else Some(last)
  }

  /** The executor from attempt k on, for n keys and cursor `start`;
      `last` is the message of the previous failed attempt ("" if none). */
  function RunFrom<T>(op: nat -> Attempt<T>, retryable: string -> bool, n: nat, start: nat, k: nat, last: string): Run<T>
    requires k <= n
    decreases n - k
  {
    if k == n then
      Run(Failure(Exhausted(n, ExhaustionDetail(last))), [])
    else
      var index := (start + k) % n;
      match op(index)
      case Ok(v) => Run(Success(v), [index])
      case Err(m) =>
        if retryable(m) then
          var rest := RunFrom(op, retryable, n, start, k + 1, m);
          Run(rest.result, [index] + rest.calls)
        else
          Run(Failure(Fatal(m)), [index])
  }

  /** One executor call starting at cursor `start`, retrying the errors
      that `retryable` accepts (`IsRetryable`, the inline `isRetryable` test, in the pool itself). */
  function Rotation<T>(op: nat -> Attempt<T>, retryable: string -> bool, n: nat, start: nat): Run<T> {
    RunFrom(op, retryable, n, start, 0, "")
  }

  /** Attempt j (counted from k) uses key (start + k + j) mod n; there are at
      most n - k of them, and at least one while keys remain. */
  lemma {:induction false} RunFromKeys<T>(op: nat -> Attempt<T>, retryable: string -> bool, n: nat, start: nat, k: nat, last: string)
    requires k <= n
    ensures var r := RunFrom(op, retryable, n, start, k, last);
      && |r.calls| <= n - k
      && (k < n ==> |r.calls| >= 1)
      && forall j :: 0 <= j < |r.calls| ==> r.calls[j] == (start + k + j) % n
    decreases n - k
  {
    if k < n {
      var index := (start + k) % n;
      if op(index).Err? && retryable(op(index).message) {
        RunFromKeys(op, retryable, n, start, k + 1, op(index).message);
        var rest := RunFrom(op, retryable, n, start, k + 1, op(index).message);
        var r := RunFrom(op, retryable, n, start, k, last);
        assert r.calls == [index] + rest.calls;
        forall j | 1 <= j < |r.calls|
          ensures r.calls[j] == (start + k + j) % n
        {
          assert r.calls[j] == rest.calls[j - 1];
          assert start + (k + 1) + (j - 1) == start + k + j;
        }
      }
    }
  }

  /** Every attempt but the last failed with a retryable error, and the
      result is what the last attempt decided. */
  lemma {:induction false} RunFromOutcome<T>(op: nat -> Attempt<T>, retryable: string -> bool, n: nat, start: nat, k: nat, last: string)
    requires k <= n
    ensures var r := RunFrom(op, retryable, n, start, k, last);
      && (forall j :: 0 <= j < |r.calls| - 1 ==> op(r.calls[j]).Err? && retryable(op(r.calls[j]).message))
      && (r.result.Success? <==> |r.calls| > 0 && op(r.calls[|r.calls| - 1]).Ok?)
      && (r.result.Success? ==> op(r.calls[|r.calls| - 1]) == Ok(r.result.value))
      && (r.result.Failure? && r.result.error.Fatal? <==>
            |r.calls| > 0 && op(r.calls[|r.calls| - 1]).Err? && !retryable(op(r.calls[|r.calls| - 1]).message))
      && (r.result.Failure? && r.result.error.Fatal? ==>
            op(r.calls[|r.calls| - 1]) == Err(r.result.error.message))
      && (r.result.Failure? && r.result.error.Exhausted? ==>
            && |r.calls| == n - k
            && r.result.error.keyCount == n
            && (|r.calls| > 0 ==> op(r.calls[|r.calls| - 1]).Err? && retryable(op(r.calls[|r.calls| - 1]).message))
            && r.result.error.lastMessage ==
                 ExhaustionDetail(if |r.calls| == 0 then last else op(r.calls[|r.calls| - 1]).message))
    decreases n - k
  {
    if k < n {
      var index := (start + k) % n;
      if op(index).Err? && retryable(op(index).message) {
        RunFromOutcome(op, retryable, n, start, k + 1, op(index).message);
        var rest := RunFrom(op, retryable, n, start, k + 1, op(index).message);
        var r := RunFrom(op, retryable, n, start, k, last);
        assert r.calls == [index] + rest.calls;
        assert forall j :: 1 <= j < |r.calls| ==> r.calls[j] == rest.calls[j - 1];
      }
    }
  }

  /** Distinct attempts of one call use distinct keys, all in range. */
  lemma RotationKeysDistinct<T>(op: nat -> Attempt<T>, retryable: string -> bool, n: nat, start: nat)
    requires start < n
    ensures var r := Rotation(op, retryable, n, start);
      && 1 <= |r.calls| <= n
      && (forall j :: 0 <= j < |r.calls| ==> r.calls[j] == (start + j) % n < n)
      && (forall i, j :: 0 <= i < j < |r.calls| ==> r.calls[i] != r.calls[j])
  {
    RunFromKeys(op, retryable, n, start, 0, "");
    var r := Rotation(op, retryable, n, start);
    forall i, j | 0 <= i < j < |r.calls|
      ensures r.calls[i] != r.calls[j]
    {
      ModDistinct(start, i, j, n);
    }
  }

  /** Below 2n, reducing modulo n subtracts n at most once. */
  lemma ModSmall(x: nat, n: nat)
    requires 0 < n && x < 2 * n
    ensures x % n == if x < n then x else x - n
  {
    if x >= n {
      assert x == 1 * n + (x - n);
    }
  }

  /** Distinct attempts of one call reach distinct keys. */
  lemma ModDistinct(start: nat, i: nat, j: nat, n: nat)
    requires start < n && i < j < n
    ensures (start + i) % n != (start + j) % n
  {
    ModSmall(start + i, n);
    ModSmall(start + j, n);
  }

  /** The key after index (a mod n) is (a + 1) mod n. */
  lemma ModSucc(a: nat, n: nat)
    requires 0 < n && a + 1 < 2 * n
    ensures (a % n + 1) % n == (a + 1) % n
  {
    ModSmall(a, n);
    ModSmall(a + 1, n);
    ModSmall(a % n + 1, n);
  }

  /** After m attempts from start, the last at key c, the next start is the
      key after c. */
  lemma CursorAfter(start: nat, m: nat, n: nat, c: nat)
    requires start < n && 0 < m <= n && c == (start + (m - 1)) % n
    ensures (start + m) % n == (c + 1) % n
  {
    ModSucc(start + (m - 1), n);
  }

  /** When every key fails retryably, every key is tried once and the call
      ends with the exhaustion error naming the key count. */
  lemma AllRetryableExhausts<T>(op: nat -> Attempt<T>, retryable: string -> bool, n: nat, start: nat)
    requires 0 < n
    requires forall i :: 0 <= i < n ==> op(i).Err? && retryable(op(i).message)
    ensures var r := Rotation(op, retryable, n, start);
      && |r.calls| == n
      && r.result.Failure? && r.result.error.Exhausted? && r.result.error.keyCount == n
      && r.result.error.lastMessage == ExhaustionDetail(op((start + n - 1) % n).message)
  {
    RunFromKeys(op, retryable, n, start, 0, "");
    RunFromOutcome(op, retryable, n, start, 0, "");
    var r := Rotation(op, retryable, n, start);
    var c := r.calls[|r.calls| - 1];
    assert c < n;
  }

  /** A non-retryable failure on the first key ends the call after one
      attempt with that very error. */
  lemma FatalStopsAtOnce<T>(op: nat -> Attempt<T>, retryable: string -> bool, n: nat, start: nat, message: string)
    requires 0 < n
    requires op(start % n) == Err(message) && !retryable(message)
    ensures Rotation(op, retryable, n, start) == Run(Failure(Fatal(message)), [start % n])
  {
  }

  /** On success the next cursor, (start + number of attempts) mod n, is
      the key right after the one that succeeded. */
  lemma SuccessMovesPastKey<T>(op: nat -> Attempt<T>, retryable: string -> bool, n: nat, start: nat)
    requires start < n
    requires Rotation(op, retryable, n, start).result.Success?
    ensures var r := Rotation(op, retryable, n, start);
      (start + |r.calls|) % n == (r.calls[|r.calls| - 1] + 1) % n
  {
    var r := Rotation(op, retryable, n, start);
    var m := |r.calls|;
    assert 1 <= m <= n && r.calls[m - 1] == (start + (m - 1)) % n by {
      RunFromKeys(op, retryable, n, start, 0, "");
    }
    CursorAfter(start, m, n, r.calls[m - 1]);
  }

  /** A call that succeeds, or fails with an error the classifier does not
      retry, ends the run with that key as its last call. */
  lemma RunFromEnds<T>(op: nat -> Attempt<T>, retryable: string -> bool, n: nat, start: nat, k: nat, last: string)
    requires k < n
    requires op((start + k) % n).Ok? || !retryable(op((start + k) % n).message)
    ensures var a := op((start + k) % n);
      RunFrom(op, retryable, n, start, k, last) ==
        Run(if a.Ok? then Success(a.value) else Failure(Fatal(a.message)), [(start + k) % n])
  {
  }

  /** A retryable failure hands the rest of the run to the next key, so the
      calls made so far can be extended by this one. */
  lemma RunFromRetries<T>(op: nat -> Attempt<T>, retryable: string -> bool, n: nat, start: nat, k: nat, last: string,
                          done: seq<nat>)
    requires k < n
    requires op((start + k) % n).Err? && retryable(op((start + k) % n).message)
    ensures var here := RunFrom(op, retryable, n, start, k, last);
      var next := RunFrom(op, retryable, n, start, k + 1, op((start + k) % n).message);
      Run(here.result, done + here.calls) == Run(next.result, (done + [(start + k) % n]) + next.calls)
  {
    var next := RunFrom(op, retryable, n, start, k + 1, op((start + k) % n).message);
    assert done + [(start + k) % n] + next.calls == done + ([(start + k) % n] + next.calls);
  }

  /** The pool of client instances, one per key, and the round-robin cursor. */
  class KeyPool {
    const keys: seq<string>
    var cursor: nat

    ghost predicate Valid()
      reads this
    {
      0 < |keys| <= MaxKeys && cursor < |keys|
    }

    constructor (keys: seq<string>)
      requires 0 < |keys| <= MaxKeys
      ensures Valid() && this.keys == keys && cursor == 0
    {
      this.keys := keys;
      cursor := 0;
    }

    /** `getKeyCount`. */
    function KeyCount(): (n: nat)
      reads this
      requires Valid()
      ensures 1 <= n <= MaxKeys && n == |keys|
    {
      |keys|
    }

    /** `withKeyRotation`: tries the keys from the cursor on, one at a time,
        retrying only on retryable errors; on success the cursor moves past
        the key that worked, otherwise it stays where it was. */
    method WithKeyRotation<T>(op: nat -> Attempt<T>) returns (result: Result<T, RotationError>, calls: seq<nat>)
      requires Valid()
      modifies this`cursor
      ensures Valid()
      ensures Run(result, calls) == Rotation(op, IsRetryable, |keys|, old(cursor))
      ensures result.Success? ==> cursor == (old(cursor) + |calls|) % |keys|
      ensures result.Failure? ==> cursor == old(cursor)
    {
      result, calls := RotateKeys(op, IsRetryable);
    }

    /** The loop of `withKeyRotation`, for any classifier of error messages. */
    method RotateKeys<T>(op: nat -> Attempt<T>, retryable: string -> bool) returns (result: Result<T, RotationError>, calls: seq<nat>)
      requires Valid()
      modifies this`cursor
      ensures Valid()
      ensures Run(result, calls) == Rotation(op, retryable, |keys|, old(cursor))
      ensures result.Success? ==> cursor == (old(cursor) + |calls|) % |keys|
      ensures result.Failure? ==> cursor == old(cursor)
    {
      var totalKeys := |keys|;
      var start := cursor;
      var last := "";
      calls := [];
      var attempt := 0;
      while attempt < totalKeys
        invariant 0 <= attempt <= totalKeys
        invariant cursor == start
        invariant |calls| == attempt
        invariant var rest := RunFrom(op, retryable, totalKeys, start, attempt, last);
          Rotation(op, retryable, totalKeys, start) == Run(rest.result, calls + rest.calls)
      {
        var index := (start + attempt) % totalKeys;
        match op(index)
        case Ok(v) =>
          RunFromEnds(op, retryable, totalKeys, start, attempt, last);
          ModSucc(start + attempt, totalKeys);
          cursor := (index + 1) % totalKeys;
          result := Success(v);
          calls := calls + [index];
          return;
        case Err(m) =>
          if !retryable(m) {
            RunFromEnds(op, retryable, totalKeys, start, attempt, last);
            result := Failure(Fatal(m));
            calls := calls + [index];
            return;
          }
          RunFromRetries(op, retryable, totalKeys, start, attempt, last, calls);
          last := m;
          calls := calls + [index];
          attempt := attempt + 1;
      }
      assert calls + [] == calls;
      result := Failure(Exhausted(totalKeys, ExhaustionDetail(last)));
    }
  }

  /** Builds the pool from the environment; fails, like the module's
      initialisation, when no key is set. */
  method NewKeyPool(env: map<string, string>) returns (r: Result<KeyPool, ConfigError>)
    ensures r.Success? ==> fresh(r.value) && r.value.Valid() && r.value.keys == KeyList(env) && r.value.cursor == 0
    ensures r.Failure? <==> KeyList(env) == []
  {
    var keys := GetApiKeys(env);
    match keys
    case Failure(e) =>
      r := Failure(e);
    case Success(ks) =>
      KeyListBound(env);
      var pool := new KeyPool(ks);
      r := Success(pool);
  }
}
