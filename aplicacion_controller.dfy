/**
 * AplicacionController: the application endpoints. The service signals a
 * missing application with IllegalArgumentException, which some endpoints
 * turn into a 404 and others into a 400 carrying the message; the write
 * endpoints are that try/catch applied to the service's outcome, mapped
 * to the response record first.
 */
module AplicacionController {
  import opened Common
  import opened BaseEntity
  import opened Table
  import opened Envelope
  import opened Http
  import E = Entities
  import D = AplicacionDto
  import Service = AplicacionService
  import Mapper = AplicacionMapper

  /** toResponse of a row that is there. */
  function Response(a: E.AplicacionRow): (r: D.AplicacionResponse)
    ensures Some(r) == Mapper.ToResponse(Some(a))
    ensures r.id == a.Id() && r.llaveIdentificadora == a.data.llaveIdentificadora && r.url == a.data.url
  {
    Mapper.ToResponse(Some(a)).value
  }

  /** toSummary of a row that is there. */
  function Summary(a: E.AplicacionRow): (r: D.AplicacionSummary)
    ensures Some(r) == Mapper.ToSummary(Some(a))
    ensures r.id == a.Id() && r.nombre == a.data.nombre && r.llaveIdentificadora == a.data.llaveIdentificadora
  {
    Mapper.ToSummary(Some(a)).value
  }

  /** toSummary over a list of stored rows: one summary per row, in order. */
  function Summaries(rows: seq<E.AplicacionRow>): (r: seq<D.AplicacionSummary>)
    ensures |r| == |rows| && forall i :: 0 <= i < |r| ==> r[i] == Summary(rows[i])
    ensures forall x :: x in rows ==> Summary(x) in r
  {
    var r := Map(rows, Summary);
    assert forall x :: x in rows ==> Summary(x) in r by {
      forall x | x in rows ensures Summary(x) in r {
        var i :| 0 <= i < |rows| && rows[i] == x;
        assert r[i] == Summary(x);
      }
    }
    r
  }

  // ----------------------------------------------------------- try/catch

  const CrearEndpoint := Endpoint(CREATED, Some("Aplicación creada exitosamente"), true, Uncaught, ToBadRequest, Uncaught)
  const ObtenerEndpoint := Endpoint(OK, Some("Aplicación encontrada"), true, Uncaught, ToNotFound, Uncaught)
  const ActualizarEndpoint := Endpoint(OK, Some("Aplicación actualizada exitosamente"), true, Uncaught, ToBadRequest, Uncaught)
  const EliminarEndpoint := Endpoint(OK, Some("Aplicación eliminada exitosamente"), false, Uncaught, ToNotFound, Uncaught)
  const RestaurarEndpoint := Endpoint(OK, Some("Aplicación restaurada exitosamente"), true, Uncaught, ToNotFound, Uncaught)
  const CambiarEstadoEndpoint := Endpoint(OK, Some("Estado cambiado exitosamente"), true, Uncaught, ToBadRequest, Uncaught)

  /** crear: 201 with the created application, or 400 with the service's message. */
  function Crear(outcome: Result<E.AplicacionRow>): (reply: Reply<D.AplicacionResponse>)
    ensures outcome.Ok? ==> reply.Reply? && reply.status.Code() == 201 && reply.body.Some?
                            && reply.body.value.data == Some(Response(outcome.value))
    ensures outcome.Ok? ==> reply.body.value == WithData("Aplicación creada exitosamente", Some(Response(outcome.value)))
    ensures outcome.FailedWith(IllegalArgument) ==>
              reply.Reply? && reply.status.Code() == 400 && reply.body.Some?
              && reply.body.value.message == outcome.failure.message
  {
    Respond(CrearEndpoint, MapResult(outcome, Response))
  }

  /** obtenerPorId: 200 for any stored application, deleted or not; otherwise a bodiless 404. */
  function ObtenerPorId(t: seq<E.AplicacionRow>, id: Id): (reply: Reply<D.AplicacionResponse>)
    ensures reply.Reply?
    ensures reply.status == OK <==> exists x :: x in t && x.Id() == id
    ensures reply.status == OK ==> reply.body.Some? && reply.body.value.data.Some?
                                   && reply.body.value.data.value.id == id
    ensures reply.status == OK ==>
              reply.body == Some(WithData("Aplicación encontrada", Some(Response(Service.ObtenerPorId(t, id).value))))
    ensures reply.status == OK ==> exists x :: x in t && x.Id() == id && reply.body.value.data == Some(Response(x))
    ensures reply.status != OK ==> reply == Reply(NOT_FOUND, None)
  {
    Respond(ObtenerEndpoint, MapResult(Service.ObtenerPorId(t, id), Response))
  }

  /** obtenerPorLlaveIdentificadora: 200 for any stored application with that key; otherwise 404. */
  function ObtenerPorLlaveIdentificadora(t: seq<E.AplicacionRow>, llave: string): (reply: Reply<D.AplicacionResponse>)
    ensures reply.Reply?
    ensures reply.status == OK <==> exists x :: x in t && x.data.llaveIdentificadora == llave
    ensures reply.status == OK ==> reply.body.Some? && reply.body.value.data.Some?
                                   && reply.body.value.data.value.llaveIdentificadora == llave
    ensures reply.status == OK ==>
              reply.body == Some(WithData("Aplicación encontrada",
                                          Some(Response(Service.ObtenerPorLlaveIdentificadora(t, llave).value))))
    ensures reply.status == OK ==> exists x :: x in t && x.data.llaveIdentificadora == llave
                                              && reply.body.value.data == Some(Response(x))
    ensures reply.status != OK ==> reply == Reply(NOT_FOUND, None)
  {
    Respond(ObtenerEndpoint, MapResult(Service.ObtenerPorLlaveIdentificadora(t, llave), Response))
  }

  /** actualizar: an unknown id is a 400 here, carrying the not-found message. */
  function Actualizar(outcome: Result<E.AplicacionRow>): (reply: Reply<D.AplicacionResponse>)
    ensures outcome.Ok? ==> reply.Reply? && reply.status.Code() == 200 && reply.body.Some?
                            && reply.body.value.data == Some(Response(outcome.value))
    ensures outcome.Ok? ==> reply.body.value == WithData("Aplicación actualizada exitosamente", Some(Response(outcome.value)))
    ensures outcome.FailedWith(IllegalArgument) ==>
              reply.Reply? && reply.status.Code() == 400 && reply.body.Some?
              && reply.body.value.message == outcome.failure.message
  {
    Respond(ActualizarEndpoint, MapResult(outcome, Response))
  }

  /** eliminar: 200 with an envelope carrying no data, or a bodiless 404. */
  function Eliminar(outcome: Result<()>): (reply: Reply<()>)
    ensures outcome.Ok? ==> reply == Reply(OK, Some(WithData("Aplicación eliminada exitosamente", None)))
    ensures outcome.FailedWith(IllegalArgument) ==> reply == Reply(NOT_FOUND, None)
  {
    Respond(EliminarEndpoint, outcome)
  }

  function Restaurar(outcome: Result<E.AplicacionRow>): (reply: Reply<D.AplicacionResponse>)
    ensures outcome.Ok? ==> reply.Reply? && reply.status.Code() == 200 && reply.body.Some?
                            && reply.body.value.data == Some(Response(outcome.value))
    ensures outcome.Ok? ==> reply.body.value == WithData("Aplicación restaurada exitosamente", Some(Response(outcome.value)))
    ensures outcome.FailedWith(IllegalArgument) ==> reply == Reply(NOT_FOUND, None)
  {
    Respond(RestaurarEndpoint, MapResult(outcome, Response))
  }

  /**
   * cambiarEstado: the API state is converted with toEntityEstado before the
   * service is called with it; the reply is 200 or a 400 with the message.
   */
  function CambiarEstado(outcome: Result<E.AplicacionRow>): (reply: Reply<D.AplicacionResponse>)
    ensures outcome.Ok? ==> reply.Reply? && reply.status.Code() == 200 && reply.body.Some?
                            && reply.body.value.data == Some(Response(outcome.value))
    ensures outcome.Ok? ==> reply.body.value == WithData("Estado cambiado exitosamente", Some(Response(outcome.value)))
    ensures outcome.FailedWith(IllegalArgument) ==>
              reply.Reply? && reply.status.Code() == 400 && reply.body.Some?
              && reply.body.value.message == outcome.failure.message
  {
    Respond(CambiarEstadoEndpoint, MapResult(outcome, Response))
  }

  // ------------------------------------------------------------- listings

  /** obtenerTodas: the summaries of the ACTIVO applications, each showing state "ACTIVO". */
  function ObtenerTodas(t: seq<E.AplicacionRow>): (reply: Reply<seq<D.AplicacionSummary>>)
    ensures reply.Reply? && reply.status == OK && reply.body.Some? && reply.body.value.data.Some?
    ensures var r := reply.body.value.data.value;
            |r| == |Service.ObtenerTodas(t)| && forall i :: 0 <= i < |r| ==> r[i].estado == "ACTIVO"
    ensures var r := reply.body.value.data.value;
            forall i :: 0 <= i < |r| ==> r[i] == Summary(Service.ObtenerTodas(t)[i])
                                          && r[i].id == Service.ObtenerTodas(t)[i].Id()
  {
    var rows := Service.ObtenerTodas(t);
    assert forall i :: 0 <= i < |rows| ==> rows[i].data.estado == Some(E.ACTIVO) by {
      forall i | 0 <= i < |rows| ensures rows[i].data.estado == Some(E.ACTIVO) {
        assert rows[i] in rows;
      }
    }
    OkWith("Lista de aplicaciones obtenida exitosamente", Summaries(rows))
  }

  datatype Direction = ASC | DESC
  datatype Sort = Sort(property: string, direction: Direction)
  datatype PageRequest = PageRequest(pageable: Pageable, sort: Sort)

  /**
   * The paged endpoint's request: descending exactly when the direction
   * text is "desc" in any case, untrimmed; ascending for any other text.
   */
  function PageRequestOf(page: nat, size: PageSize, sortBy: string, sortDir: string): (r: PageRequest)
    ensures r.pageable == Pageable(page, size) && r.sort.property == sortBy
    ensures r.sort.direction == DESC <==> EqualsIgnoreCase(sortDir, "desc")
    ensures r.sort.direction == DESC ==> |sortDir| == 4
  {
    PageRequest(Pageable(page, size), Sort(sortBy, if EqualsIgnoreCase(sortDir, "desc") then DESC else ASC))
  }

  /** obtenerTodas (paged): a page of the ACTIVO applications, counted over all of them. */
  function ObtenerTodasPaginado(t: seq<E.AplicacionRow>, page: nat, size: PageSize, sortBy: string, sortDir: string)
    : (reply: Reply<Page<D.AplicacionSummary>>)
    ensures reply.Reply? && reply.status == OK && reply.body.Some? && reply.body.value.data.Some?
    ensures var p := reply.body.value.data.value;
            p.number == page && p.size == size && |p.content| <= size && p.totalElements == |Service.ObtenerTodas(t)|
    ensures var p, rows := reply.body.value.data.value, PageOf(Service.ObtenerTodas(t), Pageable(page, size)).content;
            |p.content| == |rows| && forall i :: 0 <= i < |rows| ==> p.content[i] == Summary(rows[i])
  {
    var request := PageRequestOf(page, size, sortBy, sortDir);
    OkWith("Aplicaciones paginadas obtenidas exitosamente",
           MapPage(Service.ObtenerTodasPage(t, request.pageable), Summary))
  }

  /**
   * buscarPorNombre: the summaries of the service's search, in order. A
   * blank name lists what obtenerTodas lists; any other is a trimmed search
   * that shows every application whose name contains it.
   */
  function BuscarPorNombre(t: seq<E.AplicacionRow>, nombre: string): (reply: Reply<seq<D.AplicacionSummary>>)
    ensures reply.Reply? && reply.status == OK && reply.body.Some? && reply.body.value.data.Some?
    ensures var r, rows := reply.body.value.data.value, Service.BuscarPorNombre(t, Some(nombre));
            |r| == |rows| && forall i :: 0 <= i < |r| ==> r[i] == Summary(rows[i])
    ensures !IsBlank(nombre) ==>
              forall x :: x in t && ContainsIgnoreCase(x.data.nombre, Trim(nombre)) ==>
                            Summary(x) in reply.body.value.data.value
    ensures IsBlank(nombre) ==> reply.body.value.data == ObtenerTodas(t).body.value.data
    ensures !IsBlank(nombre) ==>
              var r := reply.body.value.data.value;
              forall i :: 0 <= i < |r| ==> ContainsIgnoreCase(r[i].nombre, Trim(nombre))
  {
    var rows := Service.BuscarPorNombre(t, Some(nombre));
    assert !IsBlank(nombre) ==> forall i :: 0 <= i < |rows| ==> ContainsIgnoreCase(rows[i].data.nombre, Trim(nombre)) by {
      if !IsBlank(nombre) {
        forall i | 0 <= i < |rows| ensures ContainsIgnoreCase(rows[i].data.nombre, Trim(nombre)) {
          assert rows[i] in rows;
        }
      }
    }
    var r := Summaries(rows);
    OkWith("Búsqueda completada exitosamente", r)
  }

  /** contarAplicacionesActivas: the length of what obtenerTodas lists. */
  function ContarAplicacionesActivas(t: seq<E.AplicacionRow>): (reply: Reply<nat>)
    ensures reply.Reply? && reply.status == OK && reply.body.Some?
    ensures reply.body.value.data == Some(|ObtenerTodas(t).body.value.data.value|)
  {
    OkWith("Conteo obtenido exitosamente", Service.ContarAplicacionesActivas(t))
  }

  /** existePorLlaveIdentificadora: the probe's answer, and a message saying the same. */
  function ExistePorLlaveIdentificadora(t: seq<E.AplicacionRow>, llave: string): (reply: Reply<bool>)
    ensures reply.Reply? && reply.status == OK && reply.body.Some? && reply.body.value.data.Some?
    ensures reply.body.value.data.value <==> exists x :: x in t && x.data.llaveIdentificadora == llave
    ensures reply.body.value.message == (if reply.body.value.data.value then "La aplicación existe" else "La aplicación no existe")
  {
    var existe := Service.ExistePorLlaveIdentificadora(t, llave);
    OkWith(if existe then "La aplicación existe" else "La aplicación no existe", existe)
  }

  // ---------------------------------------------------------------- lemmas

  /**
   * The existence probe and the lookup by key agree: the probe says yes
   * exactly when the lookup is a 200.
   */
  lemma ExisteIffFound(t: seq<E.AplicacionRow>, llave: string)
    ensures ExistePorLlaveIdentificadora(t, llave).body.value.data.value
            <==> ObtenerPorLlaveIdentificadora(t, llave).status == OK
  {
  }

  /**
   * The same unknown id is a 404 on the read endpoint but a 400 on the
   * update endpoint, since both see the service's IllegalArgument.
   */
  lemma UnknownIdStatuses(t: seq<E.AplicacionRow>, id: Id)
    requires FindById(t, id).None?
    ensures ObtenerPorId(t, id) == Reply(NOT_FOUND, None)
    ensures Actualizar(Fail(IllegalArgument, Service.NotFoundMessage(id))).status == BAD_REQUEST
    ensures Eliminar(Fail(IllegalArgument, Service.NotFoundMessage(id))) == Reply(NOT_FOUND, None)
  {
  }

  /** A soft-deleted application is still served by the read endpoint. */
  lemma DeletedStillServed(t: seq<E.AplicacionRow>, id: Id, now: Instant)
    requires FindById(t, id).Some?
    ensures var a := FindById(t, id).value;
            ObtenerPorId(Save(t, a.(base := a.base.SoftDeleted(now))), id).status == OK
  {
    Service.DeletedStillFound(t, id, now, now);
  }

  /** The state the client asks for is the state the reply shows. */
  lemma CambiarEstadoShowsRequested(a: E.AplicacionRow, estado: D.EstadoAplicacionDto)
    ensures var row := a.(data := a.data.(estado := Some(Mapper.ToEntityEstado(Some(estado)))));
            CambiarEstado(Ok(row)).body.value.data.value.estado == estado.GetCodigo()
  {
  }

  /** "desc" in any case sorts descending; anything else, a padded "desc" included, ascending. */
  lemma SortDirections()
    ensures PageRequestOf(0, 10, "nombre", "DESC").sort.direction == DESC
    ensures PageRequestOf(0, 10, "nombre", "Desc").sort.direction == DESC
    ensures PageRequestOf(0, 10, "nombre", "asc").sort.direction == ASC
    ensures PageRequestOf(0, 10, "nombre", " desc").sort.direction == ASC
  {
  }
}
