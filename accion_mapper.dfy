/**
 * AccionMapper: conversions between action rows and the action records.
 * A null argument is `None` and yields `None` (or, for the update, leaves
 * the entity as it is). The in-place update of the Java entity is a
 * function from the old entity value to the new one.
 */
module AccionMapper {
  import opened Common
  import opened BaseEntity
  import opened Entities
  import opened AccionDto
  import opened DtoSupport
  import Table

  /**
   * toEntity: a new action carrying the request's name and description and
   * no application or section yet.
   */
  function ToEntity(request: Option<AccionCreateRequest>): (r: Option<Accion>)
    requires request.Some? ==> request.value.nombre.Some?
    ensures r.Some? <==> request.Some?
    ensures r.Some? ==> r.value.nombre == request.value.nombre.value
                        && r.value.descripcion == request.value.descripcion
                        && r.value.aplicacion.None? && r.value.seccion.None?
  {
    if request.None? then None
    else Some(Accion(request.value.nombre.value, request.value.descripcion, None, None))
  }

  /** updateEntity: overwrite name and description; the references are untouched. */
  function UpdateEntity(accion: Accion, request: Option<AccionUpdateRequest>): (r: Accion)
    ensures request.None? ==> r == accion
    ensures request.Some? ==> r.nombre == request.value.nombre && r.descripcion == request.value.descripcion
    ensures r.aplicacion == accion.aplicacion && r.seccion == accion.seccion
  {
    if request.None? then accion
    else accion.(nombre := request.value.nombre, descripcion := request.value.descripcion)
  }

  function ToAplicacionBasicInfo(aplicacion: Option<AplicacionRow>): (r: Option<AplicacionBasicInfo>)
    ensures r.Some? <==> aplicacion.Some?
    ensures r.Some? ==> r.value.id == aplicacion.value.Id() && r.value.nombre == aplicacion.value.data.nombre
                        && r.value.llaveIdentificadora == aplicacion.value.data.llaveIdentificadora
  {
    if aplicacion.None? then None
    else Some(AplicacionBasicInfo(aplicacion.value.Id(), aplicacion.value.data.nombre,
                                  aplicacion.value.data.llaveIdentificadora))
  }

  function ToSeccionBasicInfo(seccion: Option<SeccionRow>): (r: Option<SeccionBasicInfo>)
    ensures r.Some? <==> seccion.Some?
    ensures r.Some? ==> r.value.id == seccion.value.Id() && r.value.nombre == seccion.value.data.nombre
  {
    if seccion.None? then None
    else Some(SeccionBasicInfo(seccion.value.Id(), seccion.value.data.nombre))
  }

  /** toResponse: the full view; `activo` is "not soft-deleted". */
  function ToResponse(accion: Option<AccionRow>): (r: Option<AccionResponse>)
    ensures r.Some? <==> accion.Some?
    ensures r.Some? ==> r.value.id == accion.value.Id() && r.value.nombre == accion.value.data.nombre
                        && r.value.descripcion == accion.value.data.descripcion
                        && r.value.aplicacion == ToAplicacionBasicInfo(accion.value.data.aplicacion)
                        && r.value.seccion == ToSeccionBasicInfo(accion.value.data.seccion)
                        && r.value.createdAt == accion.value.base.createdAt
                        && r.value.updatedAt == accion.value.base.updatedAt
                        && r.value.deletedAt == accion.value.base.deletedAt
                        && r.value.activo == !accion.value.IsDeleted()
                        && (r.value.EstaActiva() <==> accion.value.IsActive())
  {
    if accion.None? then None
    else
      var a := accion.value;
      Some(NewAccionResponse(a.Id(), a.data.nombre, a.data.descripcion,
                             ToAplicacionBasicInfo(a.data.aplicacion), ToSeccionBasicInfo(a.data.seccion),
                             Some(!a.IsDeleted()), a.base.createdAt, a.base.updatedAt, a.base.deletedAt))
  }

  function NombreOf<D>(x: Option<Row<D>>, nombre: D -> string): Option<string> {
    if x.Some? then Some(nombre(x.value.data)) else None
  }

  /**
   * toSummary: the short view; the reference names are null when the
   * references are, and the description is shortened by the record.
   */
  function ToSummary(accion: Option<AccionRow>): (r: Option<AccionSummary>)
    ensures r.Some? <==> accion.Some?
    ensures r.Some? ==> r.value.id == accion.value.Id() && r.value.nombre == accion.value.data.nombre
                        && r.value.descripcion == Truncate(accion.value.data.descripcion)
                        && r.value.aplicacionNombre == (if accion.value.data.aplicacion.Some?
                                                        then Some(accion.value.data.aplicacion.value.data.nombre) else None)
                        && r.value.seccionNombre == (if accion.value.data.seccion.Some?
                                                     then Some(accion.value.data.seccion.value.data.nombre) else None)
                        && (r.value.EstaActiva() <==> accion.value.IsActive())
  {
    if accion.None? then None
    else
      var a := accion.value;
      Some(NewAccionSummary(a.Id(), a.data.nombre, a.data.descripcion,
                            NombreOf(a.data.aplicacion, (x: Aplicacion) => x.nombre),
                            NombreOf(a.data.seccion, (x: Seccion) => x.nombre),
                            Some(!a.IsDeleted())))
  }

  function ToResponseList(acciones: Option<seq<AccionRow>>): (r: Option<seq<AccionResponse>>)
    ensures r.Some? <==> acciones.Some?
    ensures r.Some? ==> |r.value| == |acciones.value|
                        && forall i :: 0 <= i < |r.value| ==> Some(r.value[i]) == ToResponse(Some(acciones.value[i]))
  {
    if acciones.None? then None
    else Some(Table.Map(acciones.value, (a: AccionRow) => ToResponse(Some(a)).value))
  }

  function ToSummaryList(acciones: Option<seq<AccionRow>>): (r: Option<seq<AccionSummary>>)
    ensures r.Some? <==> acciones.Some?
    ensures r.Some? ==> |r.value| == |acciones.value|
                        && forall i :: 0 <= i < |r.value| ==> Some(r.value[i]) == ToSummary(Some(acciones.value[i]))
  {
    if acciones.None? then None
    else Some(Table.Map(acciones.value, (a: AccionRow) => ToSummary(Some(a)).value))
  }

  /**
   * The two views of one row agree: same id, name and liveness; the
   * summary's description is the response's, shortened; the summary names
   * the application and section the response describes.
   */
  lemma SummaryAgreesWithResponse(a: AccionRow)
    ensures var s, r := ToSummary(Some(a)).value, ToResponse(Some(a)).value;
            s.id == r.id && s.nombre == r.nombre && s.descripcion == Truncate(r.descripcion)
            && (s.EstaActiva() <==> r.EstaActiva())
            && (r.aplicacion.Some? ==> s.aplicacionNombre == Some(r.aplicacion.value.nombre))
            && (r.seccion.Some? ==> s.seccionNombre == Some(r.seccion.value.nombre))
  {
  }
}
