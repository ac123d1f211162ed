/** The data logic of the editable invoice table: the map from validation
    field to complaint, the cell and header edits, the quantity formatting
    applied when a quantity cell loses focus, the error key of each cell
    and the body of the table printed in the PDF receipt. */
module DataTable {
  import opened Types
  import opened Strings
  import Actions

  // ---------------------------------------------------------------------
  // keyMap and the error key of a cell
  // ---------------------------------------------------------------------

  /** `keyMap`: the English validation name of a product field; the four
      fields the operator fills in by hand have none. */
  function KeyMap(f: Field): (name: Option<string>)
    ensures name.None? <==> IsManual(f)
    ensures name.Some? ==> name.value != "" && name.value != "undefined"
  {
    match f
    case NombreDelProductoFarmaceutico => Some("productName")
    case NombreDelDispositivoMedico => Some("medicalDeviceName")
    case FormaFarmaceutica => Some("form")
    case NumeroDeLote => Some("lotNumber")
    case Concentracion => Some("concentration")
    case Presentacion => Some("presentation")
    case FechaDeVencimiento => Some("expirationDate")
    case RegistroSanitario => Some("registrationNumber")
    case CantidadRecibida => Some("quantityReceived")
    case EnvaseInmediato => None
    case EnvaseMediato => None
    case CondicionesDeAlmacenamiento => None
    case Observaciones => None
  }

  /** The fields the operator fills in by hand. */
  predicate IsManual(f: Field) {
    f in {EnvaseInmediato, EnvaseMediato, CondicionesDeAlmacenamiento, Observaciones}
  }

  /** The English name of a field inside a validation product, as the
      validation step names it. */
  function ValidationField(v: Actions.ValidationProduct, name: string): Option<string> {
    if name == "productName" then Some(v.productName)
    else if name == "medicalDeviceName" then Some(v.medicalDeviceName)
    else if name == "form" then Some(v.form)
    else if name == "lotNumber" then Some(v.lotNumber)
    else if name == "concentration" then Some(v.concentration)
    else if name == "presentation" then Some(v.presentation)
    else if name == "expirationDate" then Some(v.expirationDate)
    else if name == "registrationNumber" then Some(v.registrationNumber)
    else if name == "quantityReceived" then Some(v.quantityReceived)
    else None
  }

  /** keyMap names exactly the nine fields sent to validation, each by the
      name under which the validation input carries that field's value
      (with "" for an absent optional field). */
  lemma KeyMapMatchesValidationInput(p: Product, f: Field)
    ensures KeyMap(f).None? <==> IsManual(f)
    ensures KeyMap(f).Some? ==>
      ValidationField(Actions.ToValidationProduct(p), KeyMap(f).value) == Some(OrEmpty(Get(p, f)))
  {
  }

  /** No two fields share a keyMap name. */
  lemma KeyMapInjective(f: Field, g: Field)
    requires KeyMap(f).Some? && KeyMap(f) == KeyMap(g)
    ensures f == g
  {
  }

  /** Editing a manual column does not change what validation receives. */
  lemma ManualFieldsNotValidated(p: Product, f: Field, v: string)
    requires IsManual(f)
    ensures Actions.ToValidationProduct(Set(p, f, v)) == Actions.ToValidationProduct(p)
  {
  }

  /** The segment after the row index: the English name, or the text that
      a template literal prints for a missing `keyMap` entry. */
  function KeySegment(f: Field): string {
    match KeyMap(f)
    case Some(name) => name
    case None => "undefined"
  }

  const ErrorKeyPrefix: string := "products."

  /** `products.<rowIndex>.<keyMap[column]>`. */
  function ErrorKey(row: nat, f: Field): (key: string)
    ensures |key| > |ErrorKeyPrefix| + |KeySegment(f)|
    ensures key[..|ErrorKeyPrefix|] == ErrorKeyPrefix
    ensures key[|key| - |KeySegment(f)|..] == KeySegment(f)
  {
    var digits := NatToString(row);
    var key := ErrorKeyPrefix + (digits + "." + KeySegment(f));
    assert key[..|ErrorKeyPrefix|] == ErrorKeyPrefix;
    assert key[|key| - |KeySegment(f)|..] == KeySegment(f);
    key
  }

  /** The position of the first '.' in s, or |s| when there is none. */
  function FirstDot(s: string): (d: nat)
    ensures d <= |s|
    ensures forall i :: 0 <= i < d ==> s[i] != '.'
    ensures d < |s| ==> s[d] == '.'
  {
    if s == [] then 0
    else if s[0] == '.' then 0
    else 1 + FirstDot(s[1..])
  }

  /** Reads an error key back as a row index and a field segment. */
  function ParseErrorKey(key: string): Option<(nat, string)> {
    if |key| < |ErrorKeyPrefix| || key[..|ErrorKeyPrefix|] != ErrorKeyPrefix then None
    else
      var rest := key[|ErrorKeyPrefix|..];
      var d := FirstDot(rest);
      if d == 0 || d == |rest| || !AllDigits(rest[..d]) then None
      else Some((ParseNat(rest[..d]), rest[d + 1..]))
  }

  /** The first '.' after a run of digits is the one that ends it. */
  lemma FirstDotAfterDigits(digits: string, seg: string)
    requires AllDigits(digits)
    ensures FirstDot(digits + "." + seg) == |digits|
  {
    var s := digits + "." + seg;
    assert forall i :: 0 <= i < |digits| ==> s[i] == digits[i] && s[i] != '.';
    assert s[|digits|] == '.';
  }

  /** A key built from a prefix, a rendered row and any segment reads back
      as that row and that segment. */
  lemma ParseKeyParts(row: nat, seg: string)
    ensures ParseErrorKey(ErrorKeyPrefix + (NatToString(row) + "." + seg)) == Some((row, seg))
  {
    var digits := NatToString(row);
    var tail := digits + "." + seg;
    var key := ErrorKeyPrefix + tail;
    assert key[..|ErrorKeyPrefix|] == ErrorKeyPrefix;
    assert key[|ErrorKeyPrefix|..] == tail;
    FirstDotAfterDigits(digits, seg);
    assert tail[..|digits|] == digits;
    assert tail[|digits| + 1..] == seg;
    ParseNatToString(row);
  }

  /** The error key of a cell can be read back as its row and field name. */
  lemma ParseErrorKeyRoundTrip(row: nat, f: Field)
    ensures ParseErrorKey(ErrorKey(row, f)) == Some((row, KeySegment(f)))
  {
    var digits := NatToString(row);
    assert ErrorKey(row, f) == ErrorKeyPrefix + (digits + "." + KeySegment(f));
    ParseKeyParts(row, KeySegment(f));
  }

  /** Cells of the nine mapped columns have pairwise distinct error keys;
      the four manual columns of a row share one key ending in "undefined". */
  lemma ErrorKeysDistinct(r1: nat, f1: Field, r2: nat, f2: Field)
    ensures KeyMap(f1).Some? && KeyMap(f2).Some? && ErrorKey(r1, f1) == ErrorKey(r2, f2) ==>
              r1 == r2 && f1 == f2
    ensures IsManual(f1) && IsManual(f2) ==> ErrorKey(r1, f1) == ErrorKey(r1, f2)
  {
    if KeyMap(f1).Some? && KeyMap(f2).Some? && ErrorKey(r1, f1) == ErrorKey(r2, f2) {
      ParseErrorKeyRoundTrip(r1, f1);
      ParseErrorKeyRoundTrip(r2, f2);
      assert KeyMap(f1) == KeyMap(f2);
      KeyMapInjective(f1, f2);
    }
  }

  // ---------------------------------------------------------------------
  // The error map
  // ---------------------------------------------------------------------

  /** The message of the last complaint about `field`, if any. */
  function LastMessage(errors: seq<ValidationError>, field: string): Option<string> {
    if errors == [] then None
    else if errors[|errors| - 1].field == field then Some(errors[|errors| - 1].message)
    else LastMessage(errors[..|errors| - 1], field)
  }

  /** There is no message for a field exactly when no complaint is about
      it. */
  lemma {:induction false} LastMessageNone(errors: seq<ValidationError>, field: string)
    ensures LastMessage(errors, field).None? <==> forall i :: 0 <= i < |errors| ==> errors[i].field != field
  {
    if errors != [] {
      var n := |errors| - 1;
      LastMessageNone(errors[..n], field);
      assert forall i :: 0 <= i < n ==> errors[..n][i] == errors[i];
    }
  }

  /** A message kept for a field is that of the last complaint about it. */
  lemma {:induction false} LastMessageIsLast(errors: seq<ValidationError>, field: string)
    requires LastMessage(errors, field).Some?
    ensures exists i :: 0 <= i < |errors| && errors[i] == ValidationError(field, LastMessage(errors, field).value)
                        && forall j :: i < j < |errors| ==> errors[j].field != field
  {
    var n := |errors| - 1;
    var msg := LastMessage(errors, field).value;
    if errors[n].field == field {
      assert errors[n] == ValidationError(field, msg);
    } else {
      var prefix := errors[..n];
      LastMessageIsLast(prefix, field);
      var i :| 0 <= i < n && prefix[i] == ValidationError(field, msg)
               && forall j :: i < j < n ==> prefix[j].field != field;
      assert errors[i] == prefix[i];
      assert forall j :: i < j < n ==> errors[j] == prefix[j];
    }
  }

  /** `errorMap`: each field mapped to the message of the last complaint
      about it; no other keys. */
  method BuildErrorMap(errors: seq<ValidationError>) returns (m: map<string, string>)
    ensures m.Keys == set e | e in errors :: e.field
    ensures forall field :: field in m ==> LastMessage(errors, field) == Some(m[field])
  {
    m := map[];
    for i := 0 to |errors|
      invariant m.Keys == set e | e in errors[..i] :: e.field
      invariant forall field :: field in m ==> LastMessage(errors[..i], field) == Some(m[field])
    {
      assert errors[..i + 1][..i] == errors[..i];
      assert errors[..i + 1] == errors[..i] + [errors[i]];
      m := m[errors[i].field := errors[i].message];
    }
    assert errors[..|errors|] == errors;
  }

  // ---------------------------------------------------------------------
  // Edits
  // ---------------------------------------------------------------------

  /** `handleInputChange`: sets one field of one row; nothing else changes. */
  function HandleInputChange(data: InvoiceData, row: nat, f: Field, v: string): (r: InvoiceData)
    requires row < |data.productos|
    ensures |r.productos| == |data.productos|
    ensures Get(r.productos[row], f) == Some(v)
    ensures forall g :: g != f ==> Get(r.productos[row], g) == Get(data.productos[row], g)
    ensures forall j :: 0 <= j < |r.productos| && j != row ==> r.productos[j] == data.productos[j]
    ensures forall h :: Header(r, h) == Header(data, h)
  {
    data.(productos := data.productos[row := Set(data.productos[row], f, v)])
  }

  /** `handleHeaderChange`: sets one header field; nothing else changes. */
  function HandleHeaderChange(data: InvoiceData, h: HeaderField, v: string): (r: InvoiceData)
    ensures r.productos == data.productos
    ensures Header(r, h) == v
    ensures forall g :: g != h ==> Header(r, g) == Header(data, g)
  {
    match h
    case Proveedor => data.(proveedor := v)
    case NumeroDeFactura => data.(numeroDeFactura := v)
    case FechaDeEmision => data.(fechaDeEmision := v)
  }

  /** Writing a field back with the value it already holds changes nothing. */
  lemma InputChangeSameValue(data: InvoiceData, row: nat, f: Field)
    requires row < |data.productos| && Get(data.productos[row], f).Some?
    ensures HandleInputChange(data, row, f, Get(data.productos[row], f).value) == data
  {
    var r := HandleInputChange(data, row, f, Get(data.productos[row], f).value);
    ProductExtensionality(r.productos[row], data.productos[row]);
    assert r.productos == data.productos;
  }

  /** What a cell shows: the field value, or "" when it is absent. */
  function CellText(data: InvoiceData, row: nat, f: Field): (text: string)
    requires row < |data.productos|
    ensures Get(data.productos[row], f).Some? ==> text == Get(data.productos[row], f).value
    ensures Get(data.productos[row], f).None? ==> text == ""
  {
    OrEmpty(Get(data.productos[row], f))
  }

  // ---------------------------------------------------------------------
  // Quantity formatting on blur
  // ---------------------------------------------------------------------

  /** The blur rule for a quantity: a non-empty all-digit value gets ".00"
      appended; any other value is kept. The result is never a bare
      integer, so formatting an already formatted value keeps it. */
  function FormatQuantity(value: string): (r: string)
    ensures value != "" && AllDigits(value) ==> r == value + ".00"
    ensures !(value != "" && AllDigits(value)) ==> r == value
    ensures !(r != "" && AllDigits(r))
  {
    if value != "" && AllDigits(value) then
      assert (value + ".00")[|value|] == '.';
      value + ".00"
    else value
  }

  lemma FormatQuantityIdempotent(value: string)
    ensures FormatQuantity(FormatQuantity(value)) == FormatQuantity(value)
  {
  }

  /** `handleBlur` of a cell: only the quantity column reacts. */
  function HandleBlur(data: InvoiceData, row: nat, f: Field, value: string): (r: InvoiceData)
    requires row < |data.productos|
    ensures !(f == CantidadRecibida && value != "" && AllDigits(value)) ==> r == data
    ensures f == CantidadRecibida && value != "" && AllDigits(value) ==>
      && (forall h :: Header(r, h) == Header(data, h))
      && |r.productos| == |data.productos|
      && (forall k :: 0 <= k < |data.productos| && k != row ==> r.productos[k] == data.productos[k])
      && (forall g :: g != CantidadRecibida ==> Get(r.productos[row], g) == Get(data.productos[row], g))
      && Get(r.productos[row], CantidadRecibida) == Some(FormatQuantity(value))
  {
    if f == CantidadRecibida && value != "" && AllDigits(value) then
      HandleInputChange(data, row, CantidadRecibida, value + ".00")
    else data
  }

  /** Leaving a cell shows the formatted quantity in the quantity column and
      leaves every other column as it was; leaving it again changes nothing. */
  lemma {:induction false} BlurFormatsOnce(data: InvoiceData, row: nat, f: Field)
    requires row < |data.productos|
    ensures var after := HandleBlur(data, row, f, CellText(data, row, f));
      && |after.productos| == |data.productos|
      && CellText(after, row, f) == (if f == CantidadRecibida then FormatQuantity(CellText(data, row, f))
                                     else CellText(data, row, f))
      && HandleBlur(after, row, f, CellText(after, row, f)) == after
  {
    var value := CellText(data, row, f);
    var after := HandleBlur(data, row, f, value);
    if f == CantidadRecibida && value != "" && AllDigits(value) {
      assert CellText(after, row, f) == value + ".00";
      assert FormatQuantity(value) == value + ".00";
    }
  }

  // ---------------------------------------------------------------------
  // The PDF table body
  // ---------------------------------------------------------------------

  /** `tableHead`. */
  const TableHead: seq<string> := [
    "NOMBRE DEL PRODUCTO FARMACEUTICO",
    "NOMBRE DEL DISPOSITIVO MEDICO",
    "FORMA FARMACEUTICA",
    "N° DE LOTE",
    "CONCENTRACION",
    "PRESENTACION",
    "ENVASE INMEDIATO",
    "ENVASE MEDIATO",
    "FECHA DE VENCIMIENTO",
    "REGISTRO SANITARIO",
    "CANT. RECIBIDA",
    "CONDICIONES DE ALMACENAMIENTO",
    "OBSERVACIONES"]

  /** The field printed under each heading of `tableHead`, in order. */
  const PdfColumns: seq<Field> := [
    NombreDelProductoFarmaceutico, NombreDelDispositivoMedico, FormaFarmaceutica, NumeroDeLote,
    Concentracion, Presentacion, EnvaseInmediato, EnvaseMediato, FechaDeVencimiento,
    RegistroSanitario, CantidadRecibida, CondicionesDeAlmacenamiento, Observaciones]

  const RequiredRows: nat := 10

  /** A padding row: one empty cell per heading. */
  function BlankRow(): (row: seq<string>)
    ensures |row| == |TableHead| && forall k :: 0 <= k < |row| ==> row[k] == ""
  {
    seq(|TableHead|, k => "")
  }

  /** The printed row of one product: each cell is the field value, or ""
      when it is absent or empty. */
  function PdfRow(p: Product): (row: seq<string>)
    ensures |row| == |TableHead| == |PdfColumns|
    ensures forall k :: 0 <= k < |row| ==> row[k] == OrEmpty(Get(p, PdfColumns[k]))
  {
    [ p.nombreDelProductoFarmaceutico,
      OrEmpty(p.nombreDelDispositivoMedico),
      p.formaFarmaceutica,
      p.numeroDeLote,
      p.concentracion,
      p.presentacion,
      OrEmpty(p.envaseInmediato),
      OrEmpty(p.envaseMediato),
      p.fechaDeVencimiento,
      OrEmpty(p.registroSanitario),
      p.cantidadRecibida,
      OrEmpty(p.condicionesDeAlmacenamiento),
      OrEmpty(p.observaciones) ]
  }

  /** Every product field is printed, in exactly one column. */
  lemma PdfColumnsCoverEachFieldOnce(f: Field)
    ensures f in PdfColumns
    ensures forall i, j :: 0 <= i < j < |PdfColumns| ==> PdfColumns[i] != PdfColumns[j]
  {
  }

  /** `tableBody`: one row per product, in order, padded with blank rows
      to at least ten rows. */
  method BuildPdfBody(productos: seq<Product>) returns (body: seq<seq<string>>)
    ensures |body| == if |productos| < RequiredRows then RequiredRows else |productos|
    ensures forall i :: 0 <= i < |productos| ==> body[i] == PdfRow(productos[i])
    ensures forall i :: |productos| <= i < |body| ==> body[i] == BlankRow()
  {
    body := seq(|productos|, i requires 0 <= i < |productos| => PdfRow(productos[i]));
    while |body| < RequiredRows
      invariant |productos| <= |body|
      invariant |productos| < RequiredRows ==> |body| <= RequiredRows
      invariant |productos| >= RequiredRows ==> |body| == |productos|
      invariant forall i :: 0 <= i < |productos| ==> body[i] == PdfRow(productos[i])
      invariant forall i :: |productos| <= i < |body| ==> body[i] == BlankRow()
    {
      body := body + [BlankRow()];
    }
  }
}
