/**
 * AplicacionMapper: conversions between application rows and the
 * application records, and between the entity's state enum and the API's.
 * `EstadoAplicacion.valueOf` on a string that names no constant throws
 * IllegalArgumentException: the conversions that call it are Results.
 */
module AplicacionMapper {
  import opened Common
  import opened BaseEntity
  import E = Entities
  import D = AplicacionDto

  /** toEntityEstado: null is ACTIVO, otherwise the constant of the same name. */
  function ToEntityEstado(estado: Option<D.EstadoAplicacionDto>): (r: E.EstadoAplicacion)
    ensures estado.None? ==> r == E.ACTIVO
    ensures estado.Some? ==> E.EstadoAplicacionName(r) == estado.value.GetCodigo()
  {
    if estado.None? then E.ACTIVO
    else match estado.value
      case ACTIVO => E.ACTIVO
      case INACTIVO => E.INACTIVO
  }

  /** toDtoEstado: null is ACTIVO, otherwise the constant of the same name. */
  function ToDtoEstado(estado: Option<E.EstadoAplicacion>): (r: D.EstadoAplicacionDto)
    ensures estado.None? ==> r == D.ACTIVO
    ensures estado.Some? ==> r.GetCodigo() == E.EstadoAplicacionName(estado.value)
  {
    if estado.None? then D.ACTIVO
    else match estado.value
      case ACTIVO => D.ACTIVO
      case INACTIVO => D.INACTIVO
  }

  /** The two state conversions are inverse to each other. */
  lemma EstadoConversionsRoundTrip(e: E.EstadoAplicacion, d: D.EstadoAplicacionDto)
    ensures ToEntityEstado(Some(ToDtoEstado(Some(e)))) == e
    ensures ToDtoEstado(Some(ToEntityEstado(Some(d)))) == d
  {
  }

  /** `EstadoAplicacion.valueOf(s)`, with the exception as an error. */
  function ParseEstado(s: string): (r: Result<E.EstadoAplicacion>)
    ensures r.Ok? <==> E.EstadoAplicacionValueOf(s).Some?
    ensures r.Ok? ==> E.EstadoAplicacionName(r.value) == s
    ensures r.Err? ==> r.FailedWith(IllegalArgument)
  {
    match E.EstadoAplicacionValueOf(s)
    case Some(e) => Ok(e)
    case None => Fail(IllegalArgument, "No enum constant com.server.api.domain.entity.Aplicacion.EstadoAplicacion." + s)
  }

  /**
   * toEntity: copy the request's columns; a present state must name a
   * constant exactly (case-sensitively), an absent one is ACTIVO.
   */
  function ToEntity(request: Option<D.AplicacionCreateRequest>): (r: Result<Option<E.Aplicacion>>)
    requires request.Some? ==> request.value.nombre.Some? && request.value.url.Some?
                               && request.value.llaveIdentificadora.Some?
    ensures request.None? ==> r == Ok(None)
    ensures request.Some? ==>
              (r.Ok? <==> request.value.estado.None? || E.EstadoAplicacionValueOf(request.value.estado.value).Some?)
    ensures r.Err? ==> r.FailedWith(IllegalArgument)
    ensures request.Some? && r.Ok? ==>
              var q, a := request.value, r.value;
              a.Some? && a.value.nombre == q.nombre.value && a.value.descripcion == q.descripcion
              && a.value.url == q.url.value && a.value.llaveIdentificadora == q.llaveIdentificadora.value
              && a.value.estado.Some?
              && E.EstadoAplicacionName(a.value.estado.value) == (if q.estado.Some? then q.estado.value else "ACTIVO")
  {
    if request.None? then Ok(None)
    else
      var q := request.value;
      var estado := if q.estado.Some? then ParseEstado(q.estado.value) else Ok(E.ACTIVO);
      if estado.Err? then Err(estado.failure)
      else Ok(Some(E.Aplicacion(q.nombre.value, q.descripcion, q.url.value, q.llaveIdentificadora.value,
                                Some(estado.value))))
  }

  /** A request that passed validation always converts. */
  lemma ValidRequestConverts(request: D.AplicacionCreateRequest)
    requires request.Valid()
    ensures ToEntity(Some(request)).Ok?
  {
  }

  /** The state name an application shows: its own, or ACTIVO when unset. */
  function EstadoName(a: E.Aplicacion): (r: string)
    ensures r == "ACTIVO" || r == "INACTIVO"
    ensures a.estado.Some? ==> E.EstadoAplicacionValueOf(r) == a.estado
  {
    if a.estado.Some? then E.EstadoAplicacionName(a.estado.value) else E.EstadoAplicacionName(E.ACTIVO)
  }

  function ToResponse(aplicacion: Option<E.AplicacionRow>): (r: Option<D.AplicacionResponse>)
    ensures r.Some? <==> aplicacion.Some?
    ensures r.Some? ==> var a := aplicacion.value;
                        r.value.id == a.Id() && r.value.nombre == a.data.nombre && r.value.descripcion == a.data.descripcion
                        && r.value.url == a.data.url && r.value.llaveIdentificadora == a.data.llaveIdentificadora
                        && r.value.estado == EstadoName(a.data)
                        && r.value.createdAt == a.base.createdAt && r.value.updatedAt == a.base.updatedAt
  {
    if aplicacion.None? then None
    else
      var a := aplicacion.value;
      Some(D.AplicacionResponse(a.Id(), a.data.nombre, a.data.descripcion, a.data.url, a.data.llaveIdentificadora,
                                EstadoName(a.data), a.base.createdAt, a.base.updatedAt))
  }

  function ToSummary(aplicacion: Option<E.AplicacionRow>): (r: Option<D.AplicacionSummary>)
    ensures r.Some? <==> aplicacion.Some?
    ensures r.Some? ==> var a := aplicacion.value;
                        r.value.id == a.Id() && r.value.nombre == a.data.nombre
                        && r.value.url == a.data.url && r.value.llaveIdentificadora == a.data.llaveIdentificadora
                        && r.value.estado == EstadoName(a.data)
  {
    if aplicacion.None? then None
    else
      var a := aplicacion.value;
      Some(D.AplicacionSummary(a.Id(), a.data.nombre, a.data.url, a.data.llaveIdentificadora, EstadoName(a.data)))
  }

  /**
   * updateEntityFromRequest: overwrite the four text columns; a present
   * state must name a constant exactly, an absent one leaves the state.
   * When valueOf throws, the text columns have already been overwritten on
   * the Java object; the error result carries no entity, and the service
   * that called it does not save.
   */
  function UpdateEntityFromRequest(aplicacion: E.Aplicacion, request: Option<D.AplicacionUpdateRequest>): (r: Result<E.Aplicacion>)
    requires request.Some? ==> request.value.nombre.Some? && request.value.url.Some?
                               && request.value.llaveIdentificadora.Some?
    ensures request.None? ==> r == Ok(aplicacion)
    ensures request.Some? ==>
              (r.Ok? <==> request.value.estado.None? || E.EstadoAplicacionValueOf(request.value.estado.value).Some?)
    ensures r.Err? ==> r.FailedWith(IllegalArgument)
    ensures request.Some? && r.Ok? ==>
              var q := request.value;
              r.value.nombre == q.nombre.value && r.value.descripcion == q.descripcion
              && r.value.url == q.url.value && r.value.llaveIdentificadora == q.llaveIdentificadora.value
              && (q.estado.None? ==> r.value.estado == aplicacion.estado)
              && (q.estado.Some? ==> r.value.estado.Some? && E.EstadoAplicacionName(r.value.estado.value) == q.estado.value)
  {
    if request.None? then Ok(aplicacion)
    else
      var q := request.value;
      var updated := aplicacion.(nombre := q.nombre.value, descripcion := q.descripcion, url := q.url.value,
                                 llaveIdentificadora := q.llaveIdentificadora.value);
      if q.estado.None? then Ok(updated)
      else
        var estado := ParseEstado(q.estado.value);
        if estado.Err? then Err(estado.failure)
        else Ok(updated.(estado := Some(estado.value)))
  }

  /** Converting and showing an application gives back the request's own state text. */
  lemma CreatedStateShown(request: D.AplicacionCreateRequest, id: Id, now: Instant)
    requires request.Valid()
    requires request.estado.Some?
    ensures ToEntity(Some(request)).Ok?
    ensures var row := Row(Audit(id, now, now, None), ToEntity(Some(request)).value.value);
            ToResponse(Some(row)).value.estado == request.estado.value
  {
  }
}
