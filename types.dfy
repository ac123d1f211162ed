/** Shared values of the application: the optional/result wrappers, one
    product line of an invoice, the invoice itself, a validation complaint
    and a processed invoice (an invoice with the complaints found about it). */
module Types {

  datatype Option<+T> = None | Some(value: T)

  datatype Result<+R, +E> = Success(value: R) | Failure(error: E)

  /** A JavaScript `||` default: an absent or empty string becomes "". */
  function OrEmpty(o: Option<string>): (s: string)
    ensures o.Some? ==> s == o.value
    ensures o.None? ==> s == ""
  {
    match o
    case Some(v) => v
    case None => ""
  }

  /** One product line. Seven fields are always present; the device name,
      the sanitary registration and the four fields the operator fills in by
      hand are optional. */
  datatype Product = Product(
    nombreDelProductoFarmaceutico: string,
    nombreDelDispositivoMedico: Option<string>,
    formaFarmaceutica: string,
    numeroDeLote: string,
    concentracion: string,
    presentacion: string,
    fechaDeVencimiento: string,
    registroSanitario: Option<string>,
    cantidadRecibida: string,
    envaseInmediato: Option<string>,
    envaseMediato: Option<string>,
    condicionesDeAlmacenamiento: Option<string>,
    observaciones: Option<string>)

  /** The names of the product fields (`keyof Product`). */
  datatype Field =
    | NombreDelProductoFarmaceutico
    | NombreDelDispositivoMedico
    | FormaFarmaceutica
    | NumeroDeLote
    | Concentracion
    | Presentacion
    | FechaDeVencimiento
    | RegistroSanitario
    | CantidadRecibida
    | EnvaseInmediato
    | EnvaseMediato
    | CondicionesDeAlmacenamiento
    | Observaciones

  predicate IsOptional(f: Field) {
    f in {NombreDelDispositivoMedico, RegistroSanitario, EnvaseInmediato,
          EnvaseMediato, CondicionesDeAlmacenamiento, Observaciones}
  }

  /** `p[f]`: the value of a field, None when an optional field is absent. */
  function Get(p: Product, f: Field): (r: Option<string>)
    ensures !IsOptional(f) ==> r.Some?
  {
    match f
    case NombreDelProductoFarmaceutico => Some(p.nombreDelProductoFarmaceutico)
    case NombreDelDispositivoMedico => p.nombreDelDispositivoMedico
    case FormaFarmaceutica => Some(p.formaFarmaceutica)
    case NumeroDeLote => Some(p.numeroDeLote)
    case Concentracion => Some(p.concentracion)
    case Presentacion => Some(p.presentacion)
    case FechaDeVencimiento => Some(p.fechaDeVencimiento)
    case RegistroSanitario => p.registroSanitario
    case CantidadRecibida => Some(p.cantidadRecibida)
    case EnvaseInmediato => p.envaseInmediato
    case EnvaseMediato => p.envaseMediato
    case CondicionesDeAlmacenamiento => p.condicionesDeAlmacenamiento
    case Observaciones => p.observaciones
  }

  /** `{ ...p, [f]: v }`: field f holds v afterwards and every other field
      keeps its value. */
  function Set(p: Product, f: Field, v: string): (r: Product)
    ensures Get(r, f) == Some(v)
    ensures forall g :: g != f ==> Get(r, g) == Get(p, g)
  {
    match f
    case NombreDelProductoFarmaceutico => p.(nombreDelProductoFarmaceutico := v)
    case NombreDelDispositivoMedico => p.(nombreDelDispositivoMedico := Some(v))
    case FormaFarmaceutica => p.(formaFarmaceutica := v)
    case NumeroDeLote => p.(numeroDeLote := v)
    case Concentracion => p.(concentracion := v)
    case Presentacion => p.(presentacion := v)
    case FechaDeVencimiento => p.(fechaDeVencimiento := v)
    case RegistroSanitario => p.(registroSanitario := Some(v))
    case CantidadRecibida => p.(cantidadRecibida := v)
    case EnvaseInmediato => p.(envaseInmediato := Some(v))
    case EnvaseMediato => p.(envaseMediato := Some(v))
    case CondicionesDeAlmacenamiento => p.(condicionesDeAlmacenamiento := Some(v))
    case Observaciones => p.(observaciones := Some(v))
  }

  /** Two products that agree on every field are the same product. */
  lemma ProductExtensionality(p: Product, q: Product)
    requires forall f :: Get(p, f) == Get(q, f)
    ensures p == q
  {
    assert Get(p, NombreDelProductoFarmaceutico) == Get(q, NombreDelProductoFarmaceutico);
    assert Get(p, FormaFarmaceutica) == Get(q, FormaFarmaceutica);
    assert Get(p, NumeroDeLote) == Get(q, NumeroDeLote);
    assert Get(p, Concentracion) == Get(q, Concentracion);
    assert Get(p, Presentacion) == Get(q, Presentacion);
    assert Get(p, FechaDeVencimiento) == Get(q, FechaDeVencimiento);
    assert Get(p, CantidadRecibida) == Get(q, CantidadRecibida);
    assert Get(p, NombreDelDispositivoMedico) == Get(q, NombreDelDispositivoMedico);
    assert Get(p, RegistroSanitario) == Get(q, RegistroSanitario);
    assert Get(p, EnvaseInmediato) == Get(q, EnvaseInmediato);
    assert Get(p, EnvaseMediato) == Get(q, EnvaseMediato);
    assert Get(p, CondicionesDeAlmacenamiento) == Get(q, CondicionesDeAlmacenamiento);
    assert Get(p, Observaciones) == Get(q, Observaciones);
  }

  datatype InvoiceData = InvoiceData(
    proveedor: string,
    numeroDeFactura: string,
    fechaDeEmision: string,
    productos: seq<Product>)

  /** The header fields of an invoice (`keyof Omit<InvoiceData, 'productos'>`). */
  datatype HeaderField = Proveedor | NumeroDeFactura | FechaDeEmision

  function Header(d: InvoiceData, h: HeaderField): string {
    match h
    case Proveedor => d.proveedor
    case NumeroDeFactura => d.numeroDeFactura
    case FechaDeEmision => d.fechaDeEmision
  }

  datatype ValidationError = ValidationError(field: string, message: string)

  datatype ProcessedInvoice = ProcessedInvoice(data: InvoiceData, errors: seq<ValidationError>)
}
