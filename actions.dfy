/** The server action that extracts invoices from an uploaded document and
    validates them one by one.

    Extraction and validation are calls to the hosted model, modelled as
    oracles. `extract(uri)` is what the extraction call does for the given
    data URI: it returns the (possibly missing) list of invoices or throws.
    `validate(i, input)` is what the i-th validation call of the batch does
    with the given input: it returns the complaints or throws. */
module Actions {
  import opened Types

  /** A product as the validation step receives it (English field names). */
  datatype ValidationProduct = ValidationProduct(
    productName: string,
    medicalDeviceName: string,
    form: string,
    lotNumber: string,
    concentration: string,
    presentation: string,
    expirationDate: string,
    registrationNumber: string,
    quantityReceived: string)

  datatype ValidationInput = ValidationInput(
    supplier: string,
    invoiceNumber: string,
    invoiceDate: string,
    products: seq<ValidationProduct>)

  /** A thrown value: an `Error` carries a message, anything else does not. */
  datatype Thrown = ErrorObject(message: string) | OtherValue

  /** What an awaited call does: it returns a value or it throws. */
  datatype Call<+T> = Returns(value: T) | Throws(thrown: Thrown)

  /** `{ processedInvoices, errorMessage }`; None stands for null. */
  datatype ActionResult = ActionResult(
    processedInvoices: Option<seq<ProcessedInvoice>>,
    errorMessage: Option<string>)

  const NoFileMessage: string := "No se proporcionó ningún archivo de factura."
  const NothingExtractedMessage: string :=
    "No se pudo extraer ninguna factura del documento. Inténtelo de nuevo o con otro archivo."
  const FailurePrefix: string :=
    "No se pudo procesar la factura. Es posible que el modelo de IA haya tenido problemas con este formato de archivo. Detalles: "
  const UnknownErrorText: string := "Ocurrió un error desconocido."

  /** The message of a thrown value, or the unknown-error text when it is
      not an `Error`. */
  function Detail(t: Thrown): (d: string)
    ensures t.ErrorObject? ==> d == t.message
    ensures t.OtherValue? ==> d == UnknownErrorText
  {
    match t
    case ErrorObject(m) => m
    case OtherValue => UnknownErrorText
  }

  /** The result of the catch block: the whole batch is reported as one
      failure whose message ends with the detail of what was thrown. */
  function FailureResult(t: Thrown): (r: ActionResult)
    ensures r.processedInvoices.None? && r.errorMessage.Some?
    ensures |r.errorMessage.value| == |FailurePrefix| + |Detail(t)|
    ensures r.errorMessage.value[..|FailurePrefix|] == FailurePrefix
    ensures r.errorMessage.value[|FailurePrefix|..] == Detail(t)
  {
    ActionResult(None, Some(FailurePrefix + Detail(t)))
  }

  /** One product renamed for validation; the two optional fields default
      to "" and the quantity passes through `String`, which leaves a string
      as it is. */
  function ToValidationProduct(p: Product): (v: ValidationProduct)
    ensures v.medicalDeviceName == OrEmpty(p.nombreDelDispositivoMedico)
    ensures v.registrationNumber == OrEmpty(p.registroSanitario)
  {
    ValidationProduct(
      p.nombreDelProductoFarmaceutico,
      OrEmpty(p.nombreDelDispositivoMedico),
      p.formaFarmaceutica,
      p.numeroDeLote,
      p.concentracion,
      p.presentacion,
      p.fechaDeVencimiento,
      OrEmpty(p.registroSanitario),
      p.cantidadRecibida)
  }

  /** The validation input built from one extracted invoice. */
  function ToValidationInput(inv: InvoiceData): (v: ValidationInput)
    ensures v.supplier == inv.proveedor
    ensures v.invoiceNumber == inv.numeroDeFactura
    ensures v.invoiceDate == inv.fechaDeEmision
    ensures |v.products| == |inv.productos|
    ensures forall j :: 0 <= j < |v.products| ==> v.products[j] == ToValidationProduct(inv.productos[j])
  {
    ValidationInput(
      inv.proveedor,
      inv.numeroDeFactura,
      inv.fechaDeEmision,
      seq(|inv.productos|, j requires 0 <= j < |inv.productos| => ToValidationProduct(inv.productos[j])))
  }

  /** Validating invoices in order, stopping at the first call that throws. */
  function ValidateInOrder(invoices: seq<InvoiceData>, validate: (nat, ValidationInput) -> Call<seq<ValidationError>>):
    Call<seq<ProcessedInvoice>>
    decreases |invoices|
  {
    if invoices == [] then Returns([])
    else
      var j := |invoices| - 1;
      match ValidateInOrder(invoices[..j], validate)
      case Throws(t) => Throws(t)
      case Returns(done) =>
        match validate(j, ToValidationInput(invoices[j]))
        case Throws(t) => Throws(t)
        case Returns(errors) => Returns(done + [ProcessedInvoice(invoices[j], errors)])
  }

  /** On success there is one entry per invoice, in order, holding the
      invoice unchanged and the complaints of its own validation call; on a
      throw, some invoice's validation threw that value and every earlier
      one returned. */
  lemma {:induction false} ValidateInOrderSpec(invoices: seq<InvoiceData>,
      validate: (nat, ValidationInput) -> Call<seq<ValidationError>>)
    ensures var r := ValidateInOrder(invoices, validate);
      && (r.Returns? ==>
           && |r.value| == |invoices|
           && forall j :: 0 <= j < |invoices| ==>
                && r.value[j].data == invoices[j]
                && validate(j, ToValidationInput(invoices[j])) == Returns(r.value[j].errors))
      && (r.Throws? ==>
           exists j :: 0 <= j < |invoices| && validate(j, ToValidationInput(invoices[j])) == Throws(r.thrown)
                       && forall i :: 0 <= i < j ==> validate(i, ToValidationInput(invoices[i])).Returns?)
    decreases |invoices|
  {
    if invoices != [] {
      var n := |invoices| - 1;
      var prefix := invoices[..n];
      ValidateInOrderSpec(prefix, validate);
      assert forall i :: 0 <= i < n ==> prefix[i] == invoices[i];
      var r := ValidateInOrder(invoices, validate);
      var p := ValidateInOrder(prefix, validate);
      if p.Throws? {
        var j :| 0 <= j < n && validate(j, ToValidationInput(prefix[j])) == Throws(p.thrown)
                 && forall i :: 0 <= i < j ==> validate(i, ToValidationInput(prefix[i])).Returns?;
        assert validate(j, ToValidationInput(invoices[j])) == Throws(r.thrown);
      } else if r.Throws? {
        assert validate(n, ToValidationInput(invoices[n])) == Throws(r.thrown);
      }
    }
  }

  /** The action as a function of the data URI and the two oracles. */
  function Action(uri: string, extract: string -> Call<Option<seq<InvoiceData>>>,
                  validate: (nat, ValidationInput) -> Call<seq<ValidationError>>): ActionResult
  {
    if uri == "" then ActionResult(None, Some(NoFileMessage))
    else
      match extract(uri)
      case Throws(t) => FailureResult(t)
      case Returns(extracted) =>
        if extracted.None? || extracted.value == [] then ActionResult(None, Some(NothingExtractedMessage))
        else
          match ValidateInOrder(extracted.value, validate)
          case Throws(t) => FailureResult(t)
          case Returns(processed) => ActionResult(Some(processed), None)
  }

  /** The validation loop: validates the invoices one after another and
      stops at the first call that throws. It also reports the inputs handed
      to validation, in the order of the calls. */
  method ValidateAll(invoices: seq<InvoiceData>, validate: (nat, ValidationInput) -> Call<seq<ValidationError>>)
    returns (r: Call<seq<ProcessedInvoice>>, sent: seq<ValidationInput>)
    ensures r == ValidateInOrder(invoices, validate)
    ensures |sent| <= |invoices|
    ensures forall j :: 0 <= j < |sent| ==> sent[j] == ToValidationInput(invoices[j])
    ensures r.Returns? ==> |sent| == |invoices|
    ensures r.Throws? ==> |sent| >= 1 && validate(|sent| - 1, sent[|sent| - 1]) == Throws(r.thrown)
    ensures r.Throws? ==> forall j :: 0 <= j < |sent| - 1 ==> validate(j, sent[j]).Returns?
  {
    sent := [];
    var processed: seq<ProcessedInvoice> := [];
    for i := 0 to |invoices|
      invariant |sent| == i
      invariant forall j :: 0 <= j < i ==> sent[j] == ToValidationInput(invoices[j])
      invariant ValidateInOrder(invoices[..i], validate) == Returns(processed)
      invariant forall j :: 0 <= j < i ==> validate(j, sent[j]).Returns?
    {
      var input := ToValidationInput(invoices[i]);
      sent := sent + [input];
      var validation := validate(i, input);
      ValidateInOrderStep(invoices, validate, i);
      if validation.Throws? {
        ValidateInOrderPrefixThrows(invoices, validate, i + 1);
        return Throws(validation.thrown), sent;
      }
      processed := processed + [ProcessedInvoice(invoices[i], validation.value)];
    }
    assert invoices[..|invoices|] == invoices;
    r := Returns(processed);
  }

  /** `extractAndValidateInvoiceAction`. Besides the result it reports
      whether extraction was called and the inputs handed to validation. */
  method ExtractAndValidate(uri: string, extract: string -> Call<Option<seq<InvoiceData>>>,
                            validate: (nat, ValidationInput) -> Call<seq<ValidationError>>)
    returns (result: ActionResult, extracted: bool, sent: seq<ValidationInput>)
    ensures result == Action(uri, extract, validate)
    ensures extracted <==> uri != ""
    ensures sent != [] ==>
      && extract(uri).Returns? && extract(uri).value.Some?
      && |sent| <= |extract(uri).value.value|
      && forall j :: 0 <= j < |sent| ==> sent[j] == ToValidationInput(extract(uri).value.value[j])
    ensures result.processedInvoices.Some? ==> |sent| == |result.processedInvoices.value|
    ensures uri == "" ==> sent == []
    ensures uri != "" && extract(uri).Returns? && extract(uri).value.Some? && extract(uri).value.value != [] ==> sent != []
    ensures sent != [] && result.processedInvoices.None? ==>
      && validate(|sent| - 1, sent[|sent| - 1]).Throws?
      && result == FailureResult(validate(|sent| - 1, sent[|sent| - 1]).thrown)
    ensures sent != [] ==> forall j :: 0 <= j < |sent| - 1 ==> validate(j, sent[j]).Returns?
  {
    extracted, sent := false, [];
    if uri == "" {
      return ActionResult(None, Some(NoFileMessage)), extracted, sent;
    }
    extracted := true;
    var extraction := extract(uri);
    if extraction.Throws? {
      return FailureResult(extraction.thrown), extracted, sent;
    }
    if extraction.value.None? || |extraction.value.value| == 0 {
      return ActionResult(None, Some(NothingExtractedMessage)), extracted, sent;
    }
    var validated;
    validated, sent := ValidateAll(extraction.value.value, validate);
    ValidateInOrderSpec(extraction.value.value, validate);
    if validated.Throws? {
      return FailureResult(validated.thrown), extracted, sent;
    }
    result := ActionResult(Some(validated.value), None);
  }

  /** Validating one more invoice of the batch. */
  lemma ValidateInOrderStep(invoices: seq<InvoiceData>,
      validate: (nat, ValidationInput) -> Call<seq<ValidationError>>, i: nat)
    requires i < |invoices|
    ensures var prefix := ValidateInOrder(invoices[..i], validate);
      var here := validate(i, ToValidationInput(invoices[i]));
      ValidateInOrder(invoices[..i + 1], validate) ==
        if prefix.Throws? then prefix
        else if here.Throws? then Throws(here.thrown)
        else Returns(prefix.value + [ProcessedInvoice(invoices[i], here.value)])
  {
    assert invoices[..i + 1][..i] == invoices[..i];
  }

  /** Once a prefix of the batch throws, the whole batch throws the same
      value. */
  lemma {:induction false} ValidateInOrderPrefixThrows(invoices: seq<InvoiceData>,
      validate: (nat, ValidationInput) -> Call<seq<ValidationError>>, k: nat)
    requires k <= |invoices| && ValidateInOrder(invoices[..k], validate).Throws?
    ensures ValidateInOrder(invoices, validate) == ValidateInOrder(invoices[..k], validate)
    decreases |invoices| - k
  {
    if k < |invoices| {
      assert invoices[..k + 1][..k] == invoices[..k];
      ValidateInOrderPrefixThrows(invoices, validate, k + 1);
    } else {
      assert invoices[..k] == invoices;
    }
  }

  /** Every result carries exactly one of the invoice list and the error
      message. */
  lemma ActionExactlyOne(uri: string, extract: string -> Call<Option<seq<InvoiceData>>>,
                         validate: (nat, ValidationInput) -> Call<seq<ValidationError>>)
    ensures var r := Action(uri, extract, validate);
      r.processedInvoices.Some? != r.errorMessage.Some?
  {
  }

  /** On success there is one entry per extracted invoice, in order, holding
      that invoice unchanged and the complaints of its own validation call. */
  lemma ActionSuccess(uri: string, extract: string -> Call<Option<seq<InvoiceData>>>,
                      validate: (nat, ValidationInput) -> Call<seq<ValidationError>>)
    requires Action(uri, extract, validate).processedInvoices.Some?
    ensures uri != "" && extract(uri).Returns? && extract(uri).value.Some?
    ensures var invoices := extract(uri).value.value;
      var processed := Action(uri, extract, validate).processedInvoices.value;
      && invoices != []
      && |processed| == |invoices|
      && forall j :: 0 <= j < |invoices| ==>
           processed[j].data == invoices[j]
           && validate(j, ToValidationInput(invoices[j])) == Returns(processed[j].errors)
  {
    ValidateInOrderSpec(extract(uri).value.value, validate);
  }

  /** When every validation call returns, the action succeeds. */
  lemma {:induction false} AllValidationsReturn(invoices: seq<InvoiceData>,
      validate: (nat, ValidationInput) -> Call<seq<ValidationError>>)
    requires forall j :: 0 <= j < |invoices| ==> validate(j, ToValidationInput(invoices[j])).Returns?
    ensures ValidateInOrder(invoices, validate).Returns?
    decreases |invoices|
  {
    if invoices != [] {
      var j := |invoices| - 1;
      assert forall i :: 0 <= i < j ==> invoices[..j][i] == invoices[i];
      AllValidationsReturn(invoices[..j], validate);
    }
  }

  /** A throw from any single validation call fails the whole batch with
      the prefixed message of what the first throwing call threw. */
  lemma ActionFailure(uri: string, extract: string -> Call<Option<seq<InvoiceData>>>,
                      validate: (nat, ValidationInput) -> Call<seq<ValidationError>>, j: nat)
    requires uri != "" && extract(uri).Returns? && extract(uri).value.Some?
    requires j < |extract(uri).value.value|
    requires validate(j, ToValidationInput(extract(uri).value.value[j])).Throws?
    ensures var invoices := extract(uri).value.value;
      exists k :: 0 <= k <= j
        && validate(k, ToValidationInput(invoices[k])).Throws?
        && (forall i :: 0 <= i < k ==> validate(i, ToValidationInput(invoices[i])).Returns?)
        && Action(uri, extract, validate) == FailureResult(validate(k, ToValidationInput(invoices[k])).thrown)
  {
    var invoices := extract(uri).value.value;
    ValidateInOrderSpec(invoices, validate);
    var r := ValidateInOrder(invoices, validate);
    if r.Throws? {
      var k :| 0 <= k < |invoices| && validate(k, ToValidationInput(invoices[k])) == Throws(r.thrown)
               && forall i :: 0 <= i < k ==> validate(i, ToValidationInput(invoices[i])).Returns?;
      assert Action(uri, extract, validate) == FailureResult(r.thrown);
    }
  }

  /** A throw from extraction fails the action with the prefixed message of
      what it threw. */
  lemma ExtractionFailure(uri: string, extract: string -> Call<Option<seq<InvoiceData>>>,
                          validate: (nat, ValidationInput) -> Call<seq<ValidationError>>)
    requires uri != "" && extract(uri).Throws?
    ensures Action(uri, extract, validate) == FailureResult(extract(uri).thrown)
    ensures Action(uri, extract, validate).processedInvoices.None?
  {
  }

  /** An empty URI is refused before extraction; an empty or missing
      extraction is refused before validation. */
  lemma ActionGuards(uri: string, extract: string -> Call<Option<seq<InvoiceData>>>,
                     validate: (nat, ValidationInput) -> Call<seq<ValidationError>>)
    ensures uri == "" ==> Action(uri, extract, validate) == ActionResult(None, Some(NoFileMessage))
    ensures uri != "" && extract(uri).Returns? && (extract(uri).value.None? || extract(uri).value.value == []) ==>
      Action(uri, extract, validate) == ActionResult(None, Some(NothingExtractedMessage))
  {
  }
}
