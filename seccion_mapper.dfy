/**
 * SeccionMapper: conversions between section rows and the section records.
 * A null argument is `None` and yields `None` (or, for the update, leaves
 * the entity as it is).
 */
module SeccionMapper {
  import opened Common
  import opened BaseEntity
  import opened Entities
  import opened SeccionDto
  import opened DtoSupport
  import Table

  /** toEntity: a new section carrying the request's name and description. */
  function ToEntity(request: Option<SeccionCreateRequest>): (r: Option<Seccion>)
    ensures r.Some? <==> request.Some?
    ensures r.Some? ==> r.value.nombre == request.value.nombre && r.value.descripcion == request.value.descripcion
  {
    if request.None? then None
    else Some(Seccion(request.value.nombre, request.value.descripcion))
  }

  /** updateEntity: overwrite name and description. */
  function UpdateEntity(seccion: Seccion, request: Option<SeccionUpdateRequest>): (r: Seccion)
    requires request.Some? ==> request.value.nombre.Some?
    ensures request.None? ==> r == seccion
    ensures request.Some? ==> r.nombre == request.value.nombre.value && r.descripcion == request.value.descripcion
  {
    if request.None? then seccion
    else Seccion(request.value.nombre.value, request.value.descripcion)
  }

  /** toResponse: the full view; `activo` is "not soft-deleted". */
  function ToResponse(seccion: Option<SeccionRow>): (r: Option<SeccionResponse>)
    ensures r.Some? <==> seccion.Some?
    ensures r.Some? ==> r.value.id == seccion.value.Id() && r.value.nombre == seccion.value.data.nombre
                        && r.value.descripcion == seccion.value.data.descripcion
                        && r.value.createdAt == seccion.value.base.createdAt
                        && r.value.updatedAt == seccion.value.base.updatedAt
                        && r.value.deletedAt == seccion.value.base.deletedAt
                        && (r.value.EstaActiva() <==> seccion.value.IsActive())
                        && r.value.activo == !seccion.value.IsDeleted()
  {
    if seccion.None? then None
    else
      var s := seccion.value;
      Some(NewSeccionResponse(s.Id(), s.data.nombre, s.data.descripcion, Some(!s.IsDeleted()),
                              s.base.createdAt, s.base.updatedAt, s.base.deletedAt))
  }

  /** toSummary: the short view, with the description shortened by the record. */
  function ToSummary(seccion: Option<SeccionRow>): (r: Option<SeccionSummary>)
    ensures r.Some? <==> seccion.Some?
    ensures r.Some? ==> r.value.id == seccion.value.Id() && r.value.nombre == seccion.value.data.nombre
                        && r.value.descripcion == Truncate(seccion.value.data.descripcion)
                        && (r.value.activo <==> seccion.value.IsActive())
  {
    if seccion.None? then None
    else
      var s := seccion.value;
      Some(NewSeccionSummary(s.Id(), s.data.nombre, s.data.descripcion, Some(!s.IsDeleted())))
  }

  function ToResponseList(secciones: Option<seq<SeccionRow>>): (r: Option<seq<SeccionResponse>>)
    ensures r.Some? <==> secciones.Some?
    ensures r.Some? ==> |r.value| == |secciones.value|
                        && forall i :: 0 <= i < |r.value| ==> Some(r.value[i]) == ToResponse(Some(secciones.value[i]))
  {
    if secciones.None? then None
    else Some(Table.Map(secciones.value, (s: SeccionRow) => ToResponse(Some(s)).value))
  }

  function ToSummaryList(secciones: Option<seq<SeccionRow>>): (r: Option<seq<SeccionSummary>>)
    ensures r.Some? <==> secciones.Some?
    ensures r.Some? ==> |r.value| == |secciones.value|
                        && forall i :: 0 <= i < |r.value| ==> Some(r.value[i]) == ToSummary(Some(secciones.value[i]))
  {
    if secciones.None? then None
    else Some(Table.Map(secciones.value, (s: SeccionRow) => ToSummary(Some(s)).value))
  }

  /**
   * Creating from a request and reading the row back gives the request's
   * name and description; the new row is active.
   */
  lemma CreatedRowReadsBack(request: SeccionCreateRequest, id: Id, now: Instant)
    ensures var row := Row(Audit(id, now, now, None), ToEntity(Some(request)).value);
            var resp := ToResponse(Some(row)).value;
            resp.nombre == request.nombre && resp.descripcion == request.descripcion && resp.EstaActiva()
  {
  }
}
