/**
 * The records exchanged by the application endpoints, and the state enum
 * they expose (EstadoAplicacionDto) with its case-insensitive parser.
 */
module AplicacionDto {
  import opened Common
  import opened DtoSupport

  datatype AplicacionCreateRequest = AplicacionCreateRequest(
    nombre: Option<string>,
    descripcion: Option<string>,
    url: Option<string>,
    llaveIdentificadora: Option<string>,
    estado: Option<string>)
  {
    predicate Valid() {
      NotBlank(nombre) && SizeBetween(nombre, 2, 100)
      && SizeBetween(descripcion, 0, 1000)
      && NotBlank(url) && SizeBetween(url, 0, 255) && UrlPattern(url)
      && NotBlank(llaveIdentificadora) && SizeBetween(llaveIdentificadora, 5, 100) && KeyPattern(llaveIdentificadora)
      && EstadoPattern(estado)
    }
  }

  /**
   * The canonical constructor: a null or blank state becomes "ACTIVO"; any
   * other state is kept exactly as given, untrimmed.
   */
  function NewAplicacionCreateRequest(nombre: Option<string>, descripcion: Option<string>, url: Option<string>,
                                      llaveIdentificadora: Option<string>, estado: Option<string>): (r: AplicacionCreateRequest)
    ensures r.estado.Some?
    ensures estado.None? || IsBlank(estado.value) ==> r.estado == Some("ACTIVO")
    ensures estado.Some? && !IsBlank(estado.value) ==> r.estado == estado
    ensures r.nombre == nombre && r.descripcion == descripcion && r.url == url
    ensures r.llaveIdentificadora == llaveIdentificadora
  {
    var e := if estado.None? || IsBlank(estado.value) then Some("ACTIVO") else estado;
    AplicacionCreateRequest(nombre, descripcion, url, llaveIdentificadora, e)
  }

  /** A key that passes validation is a non-blank run of A-Z, 0-9 and '_'. */
  lemma ValidKeyShape(r: AplicacionCreateRequest)
    requires r.Valid()
    ensures 5 <= |r.llaveIdentificadora.value| <= 100
    ensures forall i :: 0 <= i < |r.llaveIdentificadora.value| ==> IsKeyChar(r.llaveIdentificadora.value[i])
    ensures HasPrefix(r.url.value, "http://") || HasPrefix(r.url.value, "https://")
  {
  }

  datatype AplicacionUpdateRequest = AplicacionUpdateRequest(
    nombre: Option<string>,
    descripcion: Option<string>,
    url: Option<string>,
    llaveIdentificadora: Option<string>,
    estado: Option<string>)
  {
    predicate Valid() {
      NotBlank(nombre) && SizeBetween(nombre, 2, 100)
      && SizeBetween(descripcion, 0, 1000)
      && NotBlank(url) && SizeBetween(url, 0, 255) && UrlPattern(url)
      && NotBlank(llaveIdentificadora) && SizeBetween(llaveIdentificadora, 5, 100) && KeyPattern(llaveIdentificadora)
      && EstadoPattern(estado)
    }
  }

  datatype AplicacionResponse = AplicacionResponse(
    id: Id,
    nombre: string,
    descripcion: Option<string>,
    url: string,
    llaveIdentificadora: string,
    estado: string,
    createdAt: Instant,
    updatedAt: Instant)

  datatype AplicacionSummary = AplicacionSummary(
    id: Id,
    nombre: string,
    url: string,
    llaveIdentificadora: string,
    estado: string)

  /** The application state as the API exposes it. */
  datatype EstadoAplicacionDto = ACTIVO | INACTIVO
  {
    function GetCodigo(): string {
      match this
      case ACTIVO => "ACTIVO"
      case INACTIVO => "INACTIVO"
    }

    function GetDescripcion(): string {
      match this
      case ACTIVO => "Aplicación activa y en funcionamiento"
      case INACTIVO => "Aplicación inactiva temporalmente"
    }
  }

  /**
   * fromString: a null or blank text is rejected; otherwise the text is
   * upper-cased (not trimmed) and must then name a constant exactly.
   */
  function FromString(estado: Option<string>): (r: Result<EstadoAplicacionDto>)
    ensures r.Ok? <==> estado.Some? && (Upper(estado.value) == "ACTIVO" || Upper(estado.value) == "INACTIVO")
    ensures r.Ok? ==> r.value.GetCodigo() == Upper(estado.value)
    ensures r.Err? ==> r.FailedWith(IllegalArgument)
    ensures estado.None? || IsBlank(estado.value) ==> r == Fail(IllegalArgument, "El estado no puede ser nulo o vacío")
    ensures estado.Some? && !IsBlank(estado.value) && r.Err? ==>
              r.failure.message == "Estado de aplicación inválido: " + estado.value + ". Estados válidos: ACTIVO, INACTIVO"
  {
    if estado.None? || IsBlank(estado.value) then
      assert estado.Some? ==> Upper(estado.value) != "ACTIVO" && Upper(estado.value) != "INACTIVO" by {
        if estado.Some? && |estado.value| > 0 {
          BlankIffAllTrimmable(estado.value);
          assert IsTrimmable(estado.value[0]);
        }
      }
      Fail(IllegalArgument, "El estado no puede ser nulo o vacío")
    else if Upper(estado.value) == "ACTIVO" then Ok(ACTIVO)
    else if Upper(estado.value) == "INACTIVO" then Ok(INACTIVO)
    else Fail(IllegalArgument, "Estado de aplicación inválido: " + estado.value + ". Estados válidos: ACTIVO, INACTIVO")
  }

  /** Every constant parses back from its code, in upper or lower case. */
  lemma FromStringRoundTrip(e: EstadoAplicacionDto)
    ensures FromString(Some(e.GetCodigo())) == Ok(e)
    ensures FromString(Some(Lower(e.GetCodigo()))) == Ok(e)
  {
    UpperLowerOfCode(e.GetCodigo());
  }

  /** Upper-casing a lower-cased upper-case code gives the code back. */
  lemma UpperLowerOfCode(code: string)
    requires forall i :: 0 <= i < |code| ==> 'A' <= code[i] <= 'Z'
    ensures Upper(code) == code && Upper(Lower(code)) == code
  {
  }
}
