# Invoice extraction core: key rotation, extract-and-validate action, editable-table logic

This project models, in Dafny, the three pieces of deterministic logic inside
a pharmacy invoice-reception web application. The application sends an
uploaded PDF to a hosted language model. The model extracts the invoices, and
a second model call flags validation problems. The operator edits the results
in a table and prints a reception receipt as a PDF.

- **Key pool and rotation executor** (`genkit.dfy`, module `Genkit`). The API
  keys are read from the environment: the primary `GEMINI_API_KEY`, then
  `GEMINI_API_KEY_2` … `GEMINI_API_KEY_10`, skipping unset or empty ones.
  Building the pool fails when no key is set. `KeyPool` is a class holding
  the keys and the round-robin `cursor`. `KeyPool.WithKeyRotation` is the
  executor; it runs the attempt loop `KeyPool.RotateKeys` with `IsRetryable`
  as the classifier. The loop starts at the cursor and tries each key at
  most once. It retries only when the lower-cased error message contains
  one of seven marker substrings. On success it moves the cursor past the key that
  worked. Otherwise it leaves the cursor alone and throws either the
  non-retryable error itself or an exhaustion error. The method is proved
  equal to the pure specification `Rotation`, and the lemmas about
  `Rotation` and `RunFrom` state the promised properties. Those lemmas, and
  the loop itself, hold for any classifier of error messages.
- **Extract-and-validate server action** (`actions.dfy`, module `Actions`).
  An empty data URI is refused. An empty or missing extraction is refused.
  Each extracted invoice is then renamed into a validation input and
  validated in order. Whatever is thrown, by extraction or by any single
  validation, turns the whole batch into one error message.
  `ExtractAndValidate` and its loop `ValidateAll` are proved equal to the
  pure `Action` and `ValidateInOrder`.
- **Editable-table data logic** (`data_table.dfy`, module `DataTable`). This
  covers:
  - `keyMap` and the `products.<row>.<name>` error key of a cell;
  - the field→message error map;
  - single-cell and header edits;
  - the quantity formatter run when a cell loses focus;
  - the 13-column PDF table body, padded to 10 rows.

`types.dfy` (module `Types`) holds the shared records: `Product` with its 13
fields, `InvoiceData`, `ValidationError` and `ProcessedInvoice`. `Get` and
`Set` give access to a product field by name. `strings.dfy` (module
`Strings`) holds decimal rendering and parsing of row numbers, ASCII
lower-casing and the substring test.

`extractAndValidateInvoiceAction` does not group invoices by invoice
number and does not fill in missing product fields. It validates the
invoices one after another, not concurrently, and one failing validation
fails the whole batch. It does not classify error messages by keyword. The
model does none of these either.

The extraction result is modelled as an optional list of invoices, as the
action reads it. The declared output of the extraction flow has no such list.

For a column without a `keyMap` entry, the code builds the error key
`products.<row>.undefined`. The model keeps that string (`KeySegment`).

Calls to the hosted model are oracles passed as parameters:
- `op(i)`: what the operation does when given the client of key i;
- `extract(uri)`: what the extraction call does;
- `validate(i, input)`: what the i-th validation call does.

## Model

| member | source | states |
|---|---|---|
| Genkit.GetApiKeys | src/ai/genkit.ts:9-25 | returns exactly the key list (primary first, then suffixes 2..10, unset or empty values skipped), and fails exactly when that list is empty |
| Genkit.KeyListBound | src/ai/genkit.ts:9-19 | the key list has at most ten keys and none of them is empty |
| Genkit.KeyListPrimaryFirst | src/ai/genkit.ts:11-13 | when the primary variable is set, its value is the first key |
| Genkit.SuffixedKeysSplit | src/ai/genkit.ts:15-19 | keys of smaller suffixes come before keys of larger suffixes (the list splits at any suffix) |
| Genkit.SuffixedKeysMembers | src/ai/genkit.ts:16-19 | a value is among the fallback keys iff some suffix 2..10 variable is set to it |
| Genkit.KeyListEmpty | src/ai/genkit.ts:21-24 | the list is empty (so initialisation throws) iff neither the primary nor any fallback variable is set |
| Genkit.NewKeyPool | src/ai/genkit.ts:36-40 | the pool holds exactly the key list with cursor 0, or creation fails iff no key is set |
| Genkit.KeyPool.constructor | src/ai/genkit.ts:36-40 | a new pool holds the given keys and starts with cursor 0 |
| Genkit.KeyPool.KeyCount | src/ai/genkit.ts:100-102 | the key count is the number of keys, between 1 and 10 |
| Genkit.KeyPool.WithKeyRotation | src/ai/genkit.ts:52-98 | result and attempted keys equal `Rotation` with `IsRetryable` (the inline `isRetryable` test) as the classifier, from the old cursor; cursor becomes (old cursor + attempts) mod N on success and is unchanged on failure; the cursor stays below N |
| Genkit.KeyPool.RotateKeys | src/ai/genkit.ts:57-97 | the attempt loop, for any classifier of error messages, equals `Rotation` with that classifier; same cursor update as above |
| Genkit.RetryableIffMarkerOccurs | src/ai/genkit.ts:69-79 | an error is retryable iff one of the seven markers occurs at some position of the lower-cased message |
| Genkit.RetryableInContext | src/ai/genkit.ts:72-79 | a retryable message stays retryable whatever text surrounds it (plain substring match) |
| Genkit.RateMatchesInsideWords | src/ai/genkit.ts:76 | "rate" matches inside "generate", so "Failed to generate content" is retried |
| Genkit.RetryableIgnoresCase | src/ai/genkit.ts:69-78 | the match is on the lower-cased message: "RESOURCE EXHAUSTED" is retryable |
| Genkit.RunFromEnds | src/ai/genkit.ts:58-83 | a successful attempt, or one whose error is not retried, ends the call with that key as the last one tried |
| Genkit.RunFromRetries | src/ai/genkit.ts:67-90 | a retried error hands the rest of the call to the next key, appending this key to the keys tried so far |
| Genkit.RunFromKeys | src/ai/genkit.ts:58-60 | attempt k uses key (start + k) mod N; there are at most N attempts and at least one |
| Genkit.RunFromOutcome | src/ai/genkit.ts:58-97 | every attempt but the last failed retryably; success iff the last attempt returned, with its value unchanged; a fatal error iff the last attempt threw a non-retryable error, which is rethrown as is; exhaustion only after all N keys, naming N and the last message |
| Genkit.RotationKeysDistinct | src/ai/genkit.ts:58-60 | within one call the keys tried are in range and pairwise distinct, and there are between 1 and N of them |
| Genkit.SuccessMovesPastKey | src/ai/genkit.ts:63-66 | on success the new cursor (start + attempts) mod N is the index after the key that succeeded |
| Genkit.CursorAfter | src/ai/genkit.ts:58-66 | after m attempts from start, the last at key (start + m - 1) mod N, the next start (start + m) mod N is the key after it |
| Genkit.AllRetryableExhausts | src/ai/genkit.ts:92-97 | when every key fails retryably, all N keys are tried and the exhaustion error names N and the last key's message |
| Genkit.FatalStopsAtOnce | src/ai/genkit.ts:81-83 | a non-retryable failure of the first key ends the call after one attempt with that same error |
| Genkit.IsRetryable | src/ai/genkit.ts:69-79 | a message is retried iff its lower-cased text contains one of the seven markers |
| Genkit.ContainsAnyMarker | src/ai/genkit.ts:72-79 | the disjunction over the markers holds iff some marker of the list is contained in the message |
| Strings.ContainsOccurs | src/ai/genkit.ts:73-79 | the `includes` test holds iff the marker occurs at some position |
| Strings.ParseNatToString | src/components/data-table.tsx:259 | the decimal rendering of a row index reads back as that index |
| Actions.Detail | src/lib/actions.ts:61 | the detail is the message of a thrown `Error`, and the unknown-error text for any other thrown value |
| Actions.FailureResult | src/lib/actions.ts:59-65 | the catch block yields no invoices and a message that is the fixed prefix followed by the error's message, or by the unknown-error text for a non-Error |
| Actions.ToValidationInput | src/lib/actions.ts:29-44 | supplier, invoice number and date are renamed, and the products are mapped one to one in order |
| Actions.ToValidationProduct | src/lib/actions.ts:33-43 | the device name and sanitary registration are sent as "" when absent |
| Actions.ValidateInOrderSpec | src/lib/actions.ts:28-52 | on success one entry per invoice, in order, holding the invoice unchanged and its own validation's complaints; on a throw, some invoice's validation threw that value and all before it returned |
| Actions.ValidateInOrderStep | src/lib/actions.ts:28-52 | validating one more invoice either keeps an earlier throw, throws what this call throws, or appends this invoice with its complaints |
| Actions.ValidateInOrderPrefixThrows | src/lib/actions.ts:28-52 | once the invoices so far have thrown, the whole batch throws the same value |
| Actions.ValidateAll | src/lib/actions.ts:25-52 | the loop equals `ValidateInOrder`; validation inputs are sent in invoice order, one per invoice; on a throw the last call sent is the one that threw and every earlier call returned |
| Actions.ExtractAndValidate | src/lib/actions.ts:12-67 | the result equals `Action`; extraction is called iff the URI is non-empty; nothing is validated for an empty URI; validation receives the inputs of the extracted invoices in order, at least one when invoices were extracted, and every call before the last one returned; on a failure after validation started, the last input sent is the one that threw and the result carries what it threw |
| Actions.ActionExactlyOne | src/lib/actions.ts:13-66 | every result has exactly one of the invoice list and the error message |
| Actions.ActionGuards | src/lib/actions.ts:13-23 | an empty URI gives the no-file message; a missing or empty extraction gives the nothing-extracted message |
| Actions.ActionSuccess | src/lib/actions.ts:25-58 | a successful result has one entry per extracted invoice, in order, with the invoice unchanged and its own validation's complaints |
| Actions.AllValidationsReturn | src/lib/actions.ts:28-52 | when no validation call throws, the batch succeeds |
| Actions.ActionFailure | src/lib/actions.ts:28-66 | when any validation call throws, the whole batch fails with the prefixed message of what the first throwing call threw (an earlier or that very call; all calls before it returned) |
| Actions.ExtractionFailure | src/lib/actions.ts:17-66 | a throw from extraction fails the action, without invoices, with the prefixed message of what extraction threw |
| DataTable.KeyMap | src/components/data-table.tsx:21-31 | exactly the four manual fields have no entry; every name is non-empty and differs from "undefined", the text a missing entry prints |
| DataTable.KeyMapMatchesValidationInput | src/components/data-table.tsx:21-31 | keyMap names exactly the nine non-manual fields, by the name under which the validation input carries that field's value |
| DataTable.KeyMapInjective | src/components/data-table.tsx:21-31 | no two fields share a keyMap name |
| DataTable.ManualFieldsNotValidated | src/components/data-table.tsx:21 | editing one of the four manual fields leaves the validation input unchanged |
| DataTable.ErrorKey | src/components/data-table.tsx:259 | the key starts with "products." and ends with the field's keyMap name (or "undefined"); `ParseErrorKeyRoundTrip` reads it back |
| DataTable.ParseKeyParts | src/components/data-table.tsx:259 | a key made of the prefix, a rendered row and any segment reads back as that row and segment |
| DataTable.ParseErrorKeyRoundTrip | src/components/data-table.tsx:258-259 | a cell's error key reads back as its row index and field segment |
| DataTable.ErrorKeysDistinct | src/components/data-table.tsx:258-260 | mapped cells have pairwise distinct error keys; the four manual cells of a row share one key |
| DataTable.LastMessageNone | src/components/data-table.tsx:36-42 | there is no message for a field iff no complaint names the field |
| DataTable.LastMessageIsLast | src/components/data-table.tsx:36-42 | the message kept for a field is that of the last complaint about it: no later complaint names the field |
| DataTable.BuildErrorMap | src/components/data-table.tsx:36-42 | the map's keys are exactly the complained-about fields, each mapped to its last complaint's message |
| DataTable.HandleInputChange | src/components/data-table.tsx:44-48 | only field f of row r becomes v; row count, other rows, other fields of row r and the header are unchanged |
| DataTable.InputChangeSameValue | src/components/data-table.tsx:44-48 | writing a field back with its current value changes nothing |
| DataTable.CellText | src/components/data-table.tsx:278 | a cell shows the field's value, or "" when the field is absent |
| DataTable.HandleHeaderChange | src/components/data-table.tsx:50-52 | only header field h becomes v; products and other header fields are unchanged |
| DataTable.FormatQuantity | src/components/data-table.tsx:264-268 | a non-empty all-digit value gains ".00"; any other value is kept; the result is never a bare integer |
| DataTable.FormatQuantityIdempotent | src/components/data-table.tsx:264-268 | formatting twice equals formatting once |
| DataTable.HandleBlur | src/components/data-table.tsx:263-270 | only a non-empty all-digit value in the quantity column changes anything: that cell becomes `FormatQuantity` of it, and the header, other rows and other fields stay; otherwise the data is unchanged |
| DataTable.BlurFormatsOnce | src/components/data-table.tsx:263-270 | leaving a cell shows the formatted value in the quantity column, leaves other columns alone, and leaving it again changes nothing |
| DataTable.PdfRow | src/components/data-table.tsx:128-142 | 13 cells in `tableHead` order, each the field value or "" when absent |
| DataTable.PdfColumnsCoverEachFieldOnce | src/components/data-table.tsx:112-142 | every product field is printed in exactly one column |
| DataTable.BlankRow | src/components/data-table.tsx:146 | a padding row is 13 empty cells |
| DataTable.BuildPdfBody | src/components/data-table.tsx:128-147 | the body has max(#products, 10) rows: the product rows first and unchanged, then blank padding rows |
| Types.Set | src/components/data-table.tsx:46 | `{...p, [f]: v}` sets field f to v and keeps every other field |
| Types.Get | src/types/index.ts:1-16 | the seven required product fields are always present |

## Left out

- Client creation, the `googleAI` plugin and the model name (src/ai/genkit.ts:6, 27-37) are SDK calls. A client is identified by the index of its key.
- The default instance `ai = aiInstances[0]` (src/ai/genkit.ts:43) is left out. The flows that use it (prompt templates and schemas) are delegated to the hosted model.
- The `console.warn` / `console.error` logging in the rotation loop and the action is output only.
- Turning a non-`Error` throw into an `Error` via `String(error)` in the rotation loop is not modelled. The oracle already returns the message text.
- Genkit.IsRetryable: lower-casing covers ASCII letters only. Other characters are left as they are, unlike the full Unicode `toLowerCase`.
- Genkit.RotationError: the exhaustion error is a datatype value (key count and last message; None stands for the 'Unknown' text printed for an empty message), not the literal text.
- Concurrent executor calls racing on the unlocked cursor are not modelled. Calls are sequential.
- Actions.ToValidationProduct: `String(p.cantidadRecibida)` is the identity, because the quantity is typed as a string.
- DataTable.HandleInputChange: requires a row index within the table. The only callers pass the index of a rendered row.
- The page-level `errorMap[errorKey]` lookup and all rendering, tooltips and toasts are UI.
- The jsPDF / autoTable drawing in `generatePdf` is left out: coordinates, fonts, `lastAutoTable.finalY`, the page-break check and saving. Only the table body is modelled.
- Drive storage, OAuth, migration, history and upload components are I/O and UI.
- The `InvoiceHistoryItem` record is unused by the modelled code.
