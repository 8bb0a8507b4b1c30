/**
 * SeccionController: the section endpoints, with the same reading as the
 * action endpoints: write endpoints are their try/catch applied to the
 * service's outcome, read endpoints are the query they dispatch to.
 */
module SeccionController {
  import opened Common
  import opened Entities
  import opened Table
  import opened SeccionDto
  import opened Envelope
  import opened Http
  import Service = SeccionService
  import SeccionRepository
  import AccionController
  import Mapper = SeccionMapper

  // ----------------------------------------------------------- try/catch

  const CrearEndpoint := Endpoint(CREATED, Some("Sección creada exitosamente"), true, Uncaught, ToBadRequest, Uncaught)
  const ObtenerPorIdEndpoint := Endpoint(OK, Some("Sección encontrada exitosamente"), true, ToNotFound, Uncaught, Uncaught)
  const ActualizarEndpoint := Endpoint(OK, Some("Sección actualizada exitosamente"), true, ToNotFound, ToBadRequest, Uncaught)
  const EliminarEndpoint := Endpoint(OK, Some("Sección eliminada exitosamente"), false, ToNotFound, Uncaught, Uncaught)
  const RestaurarEndpoint := Endpoint(OK, Some("Sección restaurada exitosamente"), true, ToNotFound, ToBadRequest, ToBadRequest)

  /** crear: 201 on success and 400 for a duplicate name; nothing else is caught. */
  function Crear(outcome: Result<SeccionResponse>): (reply: Reply<SeccionResponse>)
    ensures outcome.Ok? ==> reply.Reply? && reply.status.Code() == 201 && reply.body.Some?
                            && reply.body.value.data == Some(outcome.value)
    ensures outcome.FailedWith(IllegalArgument) ==>
              reply.Reply? && reply.status.Code() == 400 && reply.body.Some?
              && reply.body.value.message == outcome.failure.message
    ensures outcome.Err? && !outcome.FailedWith(IllegalArgument) ==> reply == Unhandled(outcome.failure)
  {
    Respond(CrearEndpoint, outcome)
  }

  /** obtenerPorId: 200 with the service's response for the live section, or a bodiless 404. */
  function ObtenerPorId(t: seq<SeccionRow>, id: Id): (reply: Reply<SeccionResponse>)
    ensures reply.Reply?
    ensures reply.status == OK <==> exists x :: x in t && x.Id() == id && x.IsActive()
    ensures reply.status == OK ==>
              reply.body == Some(WithData("Sección encontrada exitosamente", Some(Service.ObtenerPorId(t, id).value)))
    ensures reply.status == OK ==> exists x :: x in t && x.Id() == id && x.IsActive()
                                              && reply.body.value.data == Mapper.ToResponse(Some(x))
    ensures reply.status != OK ==> reply == Reply(NOT_FOUND, None)
  {
    Respond(ObtenerPorIdEndpoint, Service.ObtenerPorId(t, id))
  }

  function Actualizar(outcome: Result<SeccionResponse>): (reply: Reply<SeccionResponse>)
    ensures outcome.Ok? ==> reply.Reply? && reply.status.Code() == 200 && reply.body.Some?
                            && reply.body.value.data == Some(outcome.value)
    ensures outcome.FailedWith(EntityNotFound) ==> reply == Reply(NOT_FOUND, None)
    ensures outcome.FailedWith(IllegalArgument) ==>
              reply.Reply? && reply.status.Code() == 400 && reply.body.Some?
              && reply.body.value.message == outcome.failure.message
    ensures outcome.FailedWith(IllegalState) ==> reply == Unhandled(outcome.failure)
  {
    Respond(ActualizarEndpoint, outcome)
  }

  /** eliminar: 200 with an envelope carrying no data, or a bodiless 404. */
  function Eliminar(outcome: Result<()>): (reply: Reply<()>)
    ensures outcome.Ok? ==> reply == Reply(OK, Some(WithData("Sección eliminada exitosamente", None)))
    ensures outcome.FailedWith(EntityNotFound) ==> reply == Reply(NOT_FOUND, None)
    ensures outcome.Err? && !outcome.FailedWith(EntityNotFound) ==> reply.Unhandled?
  {
    Respond(EliminarEndpoint, outcome)
  }

  /** restaurar: a not-deleted section and a name clash are both 400; an unknown id is 404. */
  function Restaurar(outcome: Result<SeccionResponse>): (reply: Reply<SeccionResponse>)
    ensures reply.Reply?
    ensures outcome.Ok? ==> reply.status.Code() == 200 && reply.body.Some? && reply.body.value.data == Some(outcome.value)
    ensures outcome.FailedWith(EntityNotFound) ==> reply == Reply(NOT_FOUND, None)
    ensures outcome.FailedWith(IllegalArgument) || outcome.FailedWith(IllegalState) ==>
              reply.status.Code() == 400 && reply.body.Some? && reply.body.value.message == outcome.failure.message
  {
    Respond(RestaurarEndpoint, outcome)
  }

  // ------------------------------------------------------------- listings

  datatype ListQuery = ByTexto(texto: string) | ByNombre(nombre: string) | All

  /** The list endpoint's precedence: a non-blank text, then a non-blank name, then all. */
  function ListQueryOf(nombre: Option<string>, texto: Option<string>): (q: ListQuery)
    ensures q.ByTexto? <==> AccionController.Given(texto)
    ensures q.ByNombre? <==> !AccionController.Given(texto) && AccionController.Given(nombre)
    ensures q.ByTexto? ==> q.texto == Trim(texto.value)
    ensures q.ByNombre? ==> q.nombre == Trim(nombre.value)
  {
    if AccionController.Given(texto) then ByTexto(Trim(texto.value))
    else if AccionController.Given(nombre) then ByNombre(Trim(nombre.value))
    else All
  }

  /** The repository query behind each service listing. */
  function RowsOf(t: seq<SeccionRow>, q: ListQuery): seq<SeccionRow> {
    match q
    case ByTexto(x) => SeccionRepository.FindByTextoEnNombreOrDescripcion(t, x)
    case ByNombre(n) => SeccionRepository.FindByNombreContainingIgnoreCaseAndActive(t, n)
    case All => SeccionRepository.FindAllActive(t)
  }

  /** obtenerTodas (GET): always 200, with the summaries of the selected query's rows. */
  function ObtenerTodas(t: seq<SeccionRow>, nombre: Option<string>, texto: Option<string>)
    : (reply: Reply<seq<SeccionSummary>>)
    ensures reply.Reply? && reply.status == OK && reply.body.Some? && reply.body.value.data.Some?
    ensures Service.ListsSummariesOf(reply.body.value.data.value, RowsOf(t, ListQueryOf(nombre, texto)))
    ensures var r := reply.body.value.data.value; forall i :: 0 <= i < |r| ==> r[i].activo
  {
    var r := match ListQueryOf(nombre, texto)
             case ByTexto(x) => Service.BuscarPorTexto(t, x)
             case ByNombre(n) => Service.BuscarPorNombre(t, n)
             case All => Service.ObtenerTodas(t);
    OkWith("Lista de secciones obtenida exitosamente", r)
  }

  /** The paged endpoint: a non-blank name, trimmed, or all. */
  function ObtenerTodasPaginado(t: seq<SeccionRow>, req: Pageable, nombre: Option<string>)
    : (reply: Reply<Page<SeccionSummary>>)
    ensures reply.Reply? && reply.status == OK && reply.body.Some? && reply.body.value.data.Some?
    ensures Service.PageOfSummaries(reply.body.value.data.value,
                                    if AccionController.Given(nombre)
                                    then SeccionRepository.FindByNombreContainingIgnoreCaseAndActive(t, Trim(nombre.value))
                                    else SeccionRepository.FindAllActive(t), req)
    ensures var p := reply.body.value.data.value;
            forall i :: 0 <= i < |p.content| ==> p.content[i].activo
    ensures var p := reply.body.value.data.value;
            AccionController.Given(nombre) ==>
              forall i :: 0 <= i < |p.content| ==> ContainsIgnoreCase(p.content[i].nombre, Trim(nombre.value))
  {
    var p := if AccionController.Given(nombre) then Service.BuscarPorNombrePage(t, Trim(nombre.value), req)
             else Service.ObtenerTodasPage(t, req);
    OkWith("Página de secciones obtenida exitosamente", p)
  }

  // ------------------------------------------------------ the small records

  /** obtenerEstadisticas: the live count, which the record's constructor always accepts. */
  function ObtenerEstadisticas(t: seq<SeccionRow>): (reply: Reply<EstadisticasSecciones>)
    ensures reply.Reply? && reply.status == OK && reply.body.Some?
    ensures reply.body.value.data == Some(EstadisticasSecciones(|SeccionRepository.FindAllActive(t)|))
  {
    var estadisticas := NewEstadisticasSecciones(Service.ContarSecciones(t));
    if estadisticas.Err? then assert false; Unhandled(Failure(IllegalArgument, ""))
    else OkWith("Estadísticas obtenidas exitosamente", estadisticas.value)
  }

  /**
   * verificarNombre: `existe` is the service's probe and `disponible` its
   * negation, with the message chosen by `existe`. A blank name makes the
   * record's constructor throw, and nothing here catches it.
   */
  function VerificarNombre(t: seq<SeccionRow>, nombre: string): (reply: Reply<DisponibilidadNombre>)
    ensures reply.Unhandled? <==> IsBlank(nombre)
    ensures reply.Unhandled? ==> reply.failure.kind == IllegalArgument
    ensures reply.Reply? ==>
              var existe := Service.ExistePorNombre(t, nombre);
              reply.status == OK && reply.body.Some?
              && reply.body.value.data == Some(DisponibilidadNombre(nombre, !existe, existe))
              && reply.body.value.message == (if existe then "El nombre ya está en uso" else "El nombre está disponible")
  {
    var existe := Service.ExistePorNombre(t, nombre);
    var disponibilidad := NewDisponibilidadNombre(Some(nombre), !existe, existe);
    if disponibilidad.Err? then Unhandled(disponibilidad.failure)
    else OkWith(if existe then "El nombre ya está en uso" else "El nombre está disponible", disponibilidad.value)
  }

  // ---------------------------------------------------------------- lemmas

  /**
   * With both a name and a text given, sections search the text and
   * actions search the name: the two list endpoints use opposite
   * precedences.
   */
  lemma PrecedenceOppositeToActions(nombre: string, texto: string)
    requires !IsBlank(nombre) && !IsBlank(texto)
    ensures ListQueryOf(Some(nombre), Some(texto)) == ByTexto(Trim(texto))
    ensures AccionController.ListQueryOf(Some(nombre), Some(texto), None, None) == AccionController.ByNombre(Trim(nombre))
  {
  }

  /** A name reported available is one crear accepts: no live section has it, ignoring case. */
  lemma AvailableNameIsFree(t: seq<SeccionRow>, nombre: string)
    requires !IsBlank(nombre)
    requires VerificarNombre(t, nombre).Reply?
    requires VerificarNombre(t, nombre).body.value.data.value.disponible
    ensures !SeccionRepository.ExistsByNombreIgnoreCase(t, nombre)
  {
    SeccionRepository.ExistsByNombreIff(t, nombre);
  }
}
