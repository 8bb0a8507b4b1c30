/**
 * AccionController: the action endpoints. Each write endpoint is its
 * try/catch applied to the service's outcome; each read endpoint is the
 * service query it dispatches to, wrapped in a 200 envelope.
 */
module AccionController {
  import opened Common
  import opened Entities
  import opened Table
  import opened AccionDto
  import opened Envelope
  import opened Http
  import Service = AccionService
  import AccionRepository
  import Mapper = AccionMapper

  // ----------------------------------------------------------- try/catch

  const CrearEndpoint := Endpoint(CREATED, Some("Acción creada exitosamente"), true, ToNotFound, ToBadRequest, Uncaught)
  const ObtenerPorIdEndpoint := Endpoint(OK, Some("Acción encontrada"), true, ToNotFound, Uncaught, Uncaught)
  const ActualizarEndpoint := Endpoint(OK, Some("Acción actualizada exitosamente"), true, ToNotFound, ToBadRequest, Uncaught)
  const EliminarEndpoint := Endpoint(NO_CONTENT, None, false, ToNotFound, Uncaught, Uncaught)
  const RestaurarEndpoint := Endpoint(OK, Some("Acción restaurada exitosamente"), true, ToNotFound, ToBadRequest, ToBadRequest)

  /** crear: 201 on success, 404 for a missing application or section, 400 for a duplicate name. */
  function Crear(outcome: Result<AccionResponse>): (reply: Reply<AccionResponse>)
    ensures outcome.Ok? ==> reply.Reply? && reply.status.Code() == 201 && reply.body.Some? && reply.body.value.data == Some(outcome.value)
    ensures outcome.FailedWith(EntityNotFound) ==> reply == Reply(NOT_FOUND, None)
    ensures outcome.FailedWith(IllegalArgument) ==>
              reply.Reply? && reply.status.Code() == 400 && reply.body.Some? && reply.body.value.message == outcome.failure.message
    ensures outcome.FailedWith(IllegalState) ==> reply == Unhandled(outcome.failure)
  {
    Respond(CrearEndpoint, outcome)
  }

  /** obtenerPorId: 200 with the service's response for the live action, or a bodiless 404. */
  function ObtenerPorId(t: seq<AccionRow>, id: Id): (reply: Reply<AccionResponse>)
    ensures reply.Reply?
    ensures reply.status == OK <==> exists x :: x in t && x.Id() == id && x.IsActive()
    ensures reply.status == OK ==> reply.body == Some(WithData("Acción encontrada", Some(Service.ObtenerPorId(t, id).value)))
    ensures reply.status == OK ==> exists x :: x in t && x.Id() == id && x.IsActive()
                                              && reply.body.value.data == Mapper.ToResponse(Some(x))
    ensures reply.status != OK ==> reply == Reply(NOT_FOUND, None)
  {
    Respond(ObtenerPorIdEndpoint, Service.ObtenerPorId(t, id))
  }

  function Actualizar(outcome: Result<AccionResponse>): (reply: Reply<AccionResponse>)
    ensures outcome.Ok? ==> reply.Reply? && reply.status.Code() == 200 && reply.body.Some? && reply.body.value.data == Some(outcome.value)
    ensures outcome.FailedWith(EntityNotFound) ==> reply == Reply(NOT_FOUND, None)
    ensures outcome.FailedWith(IllegalArgument) ==>
              reply.Reply? && reply.status.Code() == 400 && reply.body.Some? && reply.body.value.message == outcome.failure.message
    ensures outcome.FailedWith(IllegalState) ==> reply == Unhandled(outcome.failure)
  {
    Respond(ActualizarEndpoint, outcome)
  }

  /** eliminar: a bodiless 204, or a bodiless 404. */
  function Eliminar(outcome: Result<()>): (reply: Reply<()>)
    ensures outcome.Ok? ==> reply == Reply(NO_CONTENT, None)
    ensures outcome.FailedWith(EntityNotFound) ==> reply == Reply(NOT_FOUND, None)
    ensures outcome.Err? && !outcome.FailedWith(EntityNotFound) ==> reply.Unhandled?
  {
    Respond(EliminarEndpoint, outcome)
  }

  /** restaurar: a not-deleted action and a name clash are both 400; an unknown id is 404. */
  function Restaurar(outcome: Result<AccionResponse>): (reply: Reply<AccionResponse>)
    ensures reply.Reply?
    ensures outcome.Ok? ==> reply.status.Code() == 200 && reply.body.Some? && reply.body.value.data == Some(outcome.value)
    ensures outcome.FailedWith(EntityNotFound) ==> reply == Reply(NOT_FOUND, None)
    ensures outcome.FailedWith(IllegalArgument) || outcome.FailedWith(IllegalState) ==>
              reply.status.Code() == 400 && reply.body.Some? && reply.body.value.message == outcome.failure.message
  {
    Respond(RestaurarEndpoint, outcome)
  }

  // ------------------------------------------------------------- listings

  /** `x != null && !x.trim().isEmpty()` */
  predicate Given(x: Option<string>) {
    x.Some? && !IsBlank(x.value)
  }

  /** The service query a list request is answered by. */
  datatype ListQuery =
    | ByAplicacionYSeccion(aplicacionId: Id, seccionId: Id)
    | ByAplicacion(aplicacionId: Id)
    | BySeccion(seccionId: Id)
    | ByNombre(nombre: string)
    | ByTexto(texto: string)
    | All

  /**
   * The list endpoint's precedence: both ids, then the application, then
   * the section, then a non-blank name, then a non-blank text, then all.
   */
  function ListQueryOf(nombre: Option<string>, texto: Option<string>, aplicacionId: Option<Id>,
                       seccionId: Option<Id>): (q: ListQuery)
    ensures q.ByAplicacionYSeccion? <==> aplicacionId.Some? && seccionId.Some?
    ensures q.ByAplicacion? <==> aplicacionId.Some? && seccionId.None?
    ensures q.BySeccion? <==> aplicacionId.None? && seccionId.Some?
    ensures q.ByNombre? <==> aplicacionId.None? && seccionId.None? && Given(nombre)
    ensures q.ByTexto? <==> aplicacionId.None? && seccionId.None? && !Given(nombre) && Given(texto)
    ensures q.ByNombre? ==> q.nombre == Trim(nombre.value) && q.nombre != []
    ensures q.ByTexto? ==> q.texto == Trim(texto.value) && q.texto != []
  {
    if aplicacionId.Some? && seccionId.Some? then ByAplicacionYSeccion(aplicacionId.value, seccionId.value)
    else if aplicacionId.Some? then ByAplicacion(aplicacionId.value)
    else if seccionId.Some? then BySeccion(seccionId.value)
    else if Given(nombre) then ByNombre(Trim(nombre.value))
    else if Given(texto) then ByTexto(Trim(texto.value))
    else All
  }

  /** The repository query behind each service listing. */
  function RowsOf(t: seq<AccionRow>, q: ListQuery): seq<AccionRow> {
    match q
    case ByAplicacionYSeccion(a, s) => AccionRepository.FindByAplicacionIdAndSeccionIdAndActive(t, a, s)
    case ByAplicacion(a) => AccionRepository.FindByAplicacionIdAndActive(t, a)
    case BySeccion(s) => AccionRepository.FindBySeccionIdAndActive(t, s)
    case ByNombre(n) => AccionRepository.FindByNombreContainingIgnoreCaseAndActive(t, n)
    case ByTexto(x) => AccionRepository.FindByTextoEnNombreOrDescripcion(t, x)
    case All => AccionRepository.FindAllActive(t)
  }

  /** The summaries of the selected query's rows, in order. */
  function Listing(t: seq<AccionRow>, q: ListQuery): (r: seq<AccionSummary>)
    ensures Service.ListsSummariesOf(r, RowsOf(t, q))
    ensures forall i :: 0 <= i < |r| ==> r[i].activo
  {
    match q
    case ByAplicacionYSeccion(a, s) => Service.BuscarPorAplicacionYSeccion(t, a, s)
    case ByAplicacion(a) => Service.BuscarPorAplicacion(t, a)
    case BySeccion(s) => Service.BuscarPorSeccion(t, s)
    case ByNombre(n) => Service.BuscarPorNombre(t, n)
    case ByTexto(x) => Service.BuscarPorTexto(t, x)
    case All => Service.ObtenerTodas(t)
  }

  /** obtenerTodas (GET): always 200, listing live actions only. */
  function ObtenerTodas(t: seq<AccionRow>, nombre: Option<string>, texto: Option<string>, aplicacionId: Option<Id>,
                        seccionId: Option<Id>): (reply: Reply<seq<AccionSummary>>)
    ensures reply.Reply? && reply.status == OK && reply.body.Some? && reply.body.value.data.Some?
    ensures Service.ListsSummariesOf(reply.body.value.data.value, RowsOf(t, ListQueryOf(nombre, texto, aplicacionId, seccionId)))
    ensures var r := reply.body.value.data.value; forall i :: 0 <= i < |r| ==> r[i].activo
  {
    OkWith("Lista de acciones obtenida exitosamente", Listing(t, ListQueryOf(nombre, texto, aplicacionId, seccionId)))
  }

  /** The paged endpoint's precedence: the application, then the section, then a non-blank name, then all. */
  datatype PageQuery = PageByAplicacion(aplicacionId: Id) | PageBySeccion(seccionId: Id) | PageByNombre(nombre: string) | PageAll

  function PageQueryOf(nombre: Option<string>, aplicacionId: Option<Id>, seccionId: Option<Id>): (q: PageQuery)
    ensures q.PageByAplicacion? <==> aplicacionId.Some?
    ensures q.PageBySeccion? <==> aplicacionId.None? && seccionId.Some?
    ensures q.PageByNombre? <==> aplicacionId.None? && seccionId.None? && Given(nombre)
    ensures q.PageByNombre? ==> q.nombre == Trim(nombre.value)
  {
    if aplicacionId.Some? then PageByAplicacion(aplicacionId.value)
    else if seccionId.Some? then PageBySeccion(seccionId.value)
    else if Given(nombre) then PageByNombre(Trim(nombre.value))
    else PageAll
  }

  /** The repository query behind each paged service listing. */
  function PageRowsOf(t: seq<AccionRow>, q: PageQuery): seq<AccionRow> {
    match q
    case PageByAplicacion(a) => AccionRepository.FindByAplicacionIdAndActive(t, a)
    case PageBySeccion(s) => AccionRepository.FindBySeccionIdAndActive(t, s)
    case PageByNombre(n) => AccionRepository.FindByNombreContainingIgnoreCaseAndActive(t, n)
    case PageAll => AccionRepository.FindAllActive(t)
  }

  /** The requested page of the selected query's summaries. */
  function Paging(t: seq<AccionRow>, q: PageQuery, req: Pageable): (p: Page<AccionSummary>)
    ensures Service.PageOfSummaries(p, PageRowsOf(t, q), req)
  {
    match q
    case PageByAplicacion(a) => Service.BuscarPorAplicacionPage(t, a, req)
    case PageBySeccion(s) => Service.BuscarPorSeccionPage(t, s, req)
    case PageByNombre(n) => Service.BuscarPorNombrePage(t, n, req)
    case PageAll => Service.ObtenerTodasPage(t, req)
  }

  function ObtenerTodasPaginado(t: seq<AccionRow>, req: Pageable, nombre: Option<string>, aplicacionId: Option<Id>,
                                seccionId: Option<Id>): (reply: Reply<Page<AccionSummary>>)
    ensures reply.Reply? && reply.status == OK && reply.body.Some? && reply.body.value.data.Some?
    ensures Service.PageOfSummaries(reply.body.value.data.value, PageRowsOf(t, PageQueryOf(nombre, aplicacionId, seccionId)), req)
  {
    OkWith("Página de acciones obtenida exitosamente", Paging(t, PageQueryOf(nombre, aplicacionId, seccionId), req))
  }

  // ------------------------------------------------------------ statistics

  datatype EstadisticasAcciones = EstadisticasAcciones(totalAcciones: nat, accionesPorAplicacion: nat, accionesPorSeccion: nat)

  /** obtenerEstadisticas: the live total, and 0 for a scope whose id is absent. */
  function ObtenerEstadisticas(t: seq<AccionRow>, aplicacionId: Option<Id>, seccionId: Option<Id>)
    : (reply: Reply<EstadisticasAcciones>)
    ensures reply.Reply? && reply.status == OK && reply.body.Some? && reply.body.value.data.Some?
    ensures var e := reply.body.value.data.value;
            e.totalAcciones == |AccionRepository.FindAllActive(t)|
            && (aplicacionId.None? ==> e.accionesPorAplicacion == 0)
            && (aplicacionId.Some? ==> e.accionesPorAplicacion == |AccionRepository.FindByAplicacionIdAndActive(t, aplicacionId.value)|)
            && (seccionId.None? ==> e.accionesPorSeccion == 0)
            && (seccionId.Some? ==> e.accionesPorSeccion == |AccionRepository.FindBySeccionIdAndActive(t, seccionId.value)|)
            && e.accionesPorAplicacion <= e.totalAcciones && e.accionesPorSeccion <= e.totalAcciones
  {
    var total := Service.ContarAcciones(t);
    var porAplicacion := if aplicacionId.Some? then Service.ContarPorAplicacion(t, aplicacionId.value) else 0;
    var porSeccion := if seccionId.Some? then Service.ContarPorSeccion(t, seccionId.value) else 0;
    OkWith("Estadísticas obtenidas exitosamente", EstadisticasAcciones(total, porAplicacion, porSeccion))
  }

  // ---------------------------------------------------------------- lemmas

  /** Once an id is given, the name and text parameters are ignored. */
  lemma IdsOverrideSearch(t: seq<AccionRow>, n1: Option<string>, x1: Option<string>, n2: Option<string>,
                          x2: Option<string>, aplicacionId: Option<Id>, seccionId: Option<Id>)
    requires aplicacionId.Some? || seccionId.Some?
    ensures ObtenerTodas(t, n1, x1, aplicacionId, seccionId) == ObtenerTodas(t, n2, x2, aplicacionId, seccionId)
  {
  }

  /** A blank name is no name, and the name is trimmed before the search. */
  lemma NameIsTrimmed(nombre: string, texto: Option<string>)
    ensures IsBlank(nombre) ==> ListQueryOf(Some(nombre), texto, None, None) == ListQueryOf(None, texto, None, None)
    ensures ListQueryOf(Some(nombre), texto, None, None) == ListQueryOf(Some(Trim(nombre)), texto, None, None)
  {
    TrimIdempotent(nombre);
  }

  /** The paged listing never combines the two ids: with the application given, the section is ignored. */
  lemma PagedIgnoresSectionWithApplication(t: seq<AccionRow>, req: Pageable, nombre: Option<string>,
                                           aplicacionId: Id, seccionId: Id)
    ensures ObtenerTodasPaginado(t, req, nombre, Some(aplicacionId), Some(seccionId))
         == ObtenerTodasPaginado(t, req, None, Some(aplicacionId), None)
  {
  }
}
