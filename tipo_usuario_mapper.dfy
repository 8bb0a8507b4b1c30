/**
 * TipoUsuarioMapper: conversions between user-type rows and the user-type
 * records. Unlike the other mappers this one stamps the audit times
 * itself, from the clock reading `now` it is given.
 */
module TipoUsuarioMapper {
  import opened Common
  import opened BaseEntity
  import opened Entities
  import opened TipoUsuarioDto
  import Table

  /**
   * toEntity: a new ACTIVO user type carrying the request's name and
   * description and the given application (which may be null). The
   * creation and update stamps it sets are the insert's `now`.
   */
  function ToEntity(request: Option<TipoUsuarioCreateRequest>, aplicacion: Option<AplicacionRow>): (r: Option<TipoUsuario>)
    requires request.Some? ==> request.value.nombre.Some?
    ensures r.Some? <==> request.Some?
    ensures r.Some? ==> r.value.nombre == request.value.nombre.value && r.value.descripcion == request.value.descripcion
                        && r.value.aplicacion == aplicacion && r.value.estado == Some(TU_ACTIVO)
  {
    if request.None? then None
    else Some(TipoUsuario(request.value.nombre.value, request.value.descripcion, Some(TU_ACTIVO), aplicacion))
  }

  /**
   * `EstadoTipoUsuario.valueOf(s.toUpperCase())` inside the mapper's
   * try/catch: a text that names no constant keeps the current state.
   */
  function ParseEstadoOrKeep(s: string, current: Option<EstadoTipoUsuario>): (r: Option<EstadoTipoUsuario>)
    ensures EstadoTipoUsuarioValueOf(Upper(s)).Some? ==> r.Some? && EstadoTipoUsuarioName(r.value) == Upper(s)
    ensures EstadoTipoUsuarioValueOf(Upper(s)).None? ==> r == current
  {
    match EstadoTipoUsuarioValueOf(Upper(s))
    case Some(e) => Some(e)
    case None => current
  }

  /**
   * updateEntity: overwrite name and description; replace the application
   * when one is given; take the request's state when it names a constant
   * in any letter case; stamp `updatedAt` with `now`. The id and the
   * creation and deletion stamps are kept.
   */
  function UpdateEntity(tipo: TipoUsuarioRow, request: Option<TipoUsuarioUpdateRequest>,
                        aplicacion: Option<AplicacionRow>, now: Instant): (r: TipoUsuarioRow)
    ensures request.None? ==> r == tipo
    ensures r.Id() == tipo.Id() && r.base.createdAt == tipo.base.createdAt && r.base.deletedAt == tipo.base.deletedAt
    ensures request.Some? ==>
              var q := request.value;
              r.data.nombre == q.nombre && r.data.descripcion == q.descripcion && r.base.updatedAt == now
              && r.data.aplicacion == (if aplicacion.Some? then aplicacion else tipo.data.aplicacion)
              && (q.estado.None? ==> r.data.estado == tipo.data.estado)
              && (q.estado.Some? ==> r.data.estado == ParseEstadoOrKeep(q.estado.value, tipo.data.estado))
  {
    if request.None? then tipo
    else
      var q := request.value;
      var estado := if q.estado.Some? then ParseEstadoOrKeep(q.estado.value, tipo.data.estado) else tipo.data.estado;
      Row(tipo.base.(updatedAt := now),
          TipoUsuario(q.nombre, q.descripcion, estado,
                      if aplicacion.Some? then aplicacion else tipo.data.aplicacion))
  }

  /** A state written in any letter case is taken by the update. */
  lemma UpdateAcceptsAnyCase(tipo: TipoUsuarioRow, q: TipoUsuarioUpdateRequest, e: EstadoTipoUsuario, now: Instant)
    requires q.estado == Some(Lower(EstadoTipoUsuarioName(e)))
    ensures UpdateEntity(tipo, Some(q), None, now).data.estado == Some(e)
  {
    var name := EstadoTipoUsuarioName(e);
    assert Upper(Lower(name)) == name;
  }

  function EstadoName(e: Option<EstadoTipoUsuario>): (r: Option<string>)
    ensures r.None? <==> e.None?
    ensures e.Some? ==> EstadoTipoUsuarioValueOf(r.value) == e
  {
    if e.Some? then Some(EstadoTipoUsuarioName(e.value)) else None
  }

  function ToResponse(tipo: Option<TipoUsuarioRow>): (r: Option<TipoUsuarioResponse>)
    ensures r.Some? <==> tipo.Some?
    ensures r.Some? ==> var t := tipo.value;
                        r.value.id == t.Id() && r.value.nombre == t.data.nombre && r.value.descripcion == t.data.descripcion
                        && r.value.aplicacionId == AppIdOf(t.data.aplicacion)
                        && r.value.aplicacionNombre == (if t.data.aplicacion.Some?
                                                        then Some(t.data.aplicacion.value.data.nombre) else None)
                        && r.value.estado == EstadoName(t.data.estado)
                        && r.value.createdAt == t.base.createdAt && r.value.updatedAt == t.base.updatedAt
  {
    if tipo.None? then None
    else
      var t := tipo.value;
      Some(TipoUsuarioResponse(t.Id(), t.data.nombre, t.data.descripcion, AppIdOf(t.data.aplicacion),
                               if t.data.aplicacion.Some? then Some(t.data.aplicacion.value.data.nombre) else None,
                               EstadoName(t.data.estado), t.base.createdAt, t.base.updatedAt))
  }

  function ToSummary(tipo: Option<TipoUsuarioRow>): (r: Option<TipoUsuarioSummary>)
    ensures r.Some? <==> tipo.Some?
    ensures r.Some? ==> var t := tipo.value;
                        r.value.id == t.Id() && r.value.nombre == t.data.nombre && r.value.descripcion == t.data.descripcion
                        && r.value.aplicacionNombre == (if t.data.aplicacion.Some?
                                                        then Some(t.data.aplicacion.value.data.nombre) else None)
                        && r.value.estado == EstadoName(t.data.estado)
  {
    if tipo.None? then None
    else
      var t := tipo.value;
      Some(TipoUsuarioSummary(t.Id(), t.data.nombre, t.data.descripcion,
                              if t.data.aplicacion.Some? then Some(t.data.aplicacion.value.data.nombre) else None,
                              EstadoName(t.data.estado)))
  }

  function ToResponseList(tipos: Option<seq<TipoUsuarioRow>>): (r: Option<seq<TipoUsuarioResponse>>)
    ensures r.Some? <==> tipos.Some?
    ensures r.Some? ==> |r.value| == |tipos.value|
                        && forall i :: 0 <= i < |r.value| ==> Some(r.value[i]) == ToResponse(Some(tipos.value[i]))
  {
    if tipos.None? then None
    else Some(Table.Map(tipos.value, (t: TipoUsuarioRow) => ToResponse(Some(t)).value))
  }

  function ToSummaryList(tipos: Option<seq<TipoUsuarioRow>>): (r: Option<seq<TipoUsuarioSummary>>)
    ensures r.Some? <==> tipos.Some?
    ensures r.Some? ==> |r.value| == |tipos.value|
                        && forall i :: 0 <= i < |r.value| ==> Some(r.value[i]) == ToSummary(Some(tipos.value[i]))
  {
    if tipos.None? then None
    else Some(Table.Map(tipos.value, (t: TipoUsuarioRow) => ToSummary(Some(t)).value))
  }

  /** The summary of a row shows the same id, name, description, application name and state as its response. */
  lemma SummaryAgreesWithResponse(t: TipoUsuarioRow)
    ensures var s, r := ToSummary(Some(t)).value, ToResponse(Some(t)).value;
            s.id == r.id && s.nombre == r.nombre && s.descripcion == r.descripcion
            && s.aplicacionNombre == r.aplicacionNombre && s.estado == r.estado
  {
  }
}
