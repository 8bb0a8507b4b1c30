/**
 * The records exchanged by the action endpoints. Java records with a
 * canonical constructor that rewrites its arguments are modelled by a
 * `New…` function that every construction goes through.
 */
module AccionDto {
  import opened Common
  import opened DtoSupport

  datatype AccionCreateRequest = AccionCreateRequest(
    nombre: Option<string>,
    descripcion: Option<string>,
    aplicacionId: Option<Id>,
    seccionId: Option<Id>)
  {
    /** The Bean Validation constraints of the record's components. */
    predicate Valid() {
      NotBlank(nombre) && SizeBetween(nombre, 2, 100)
      && SizeBetween(descripcion, 0, 1000)
      && aplicacionId.Some? && seccionId.Some?
    }
  }

  /**
   * The canonical constructor: the name is trimmed, the description is
   * trimmed and a blank one becomes null; the ids are kept.
   */
  function NewAccionCreateRequest(nombre: Option<string>, descripcion: Option<string>,
                                  aplicacionId: Option<Id>, seccionId: Option<Id>): (r: AccionCreateRequest)
    ensures r.nombre == TrimPresent(nombre) && r.descripcion == TrimToNull(descripcion)
    ensures r.aplicacionId == aplicacionId && r.seccionId == seccionId
  {
    AccionCreateRequest(TrimPresent(nombre), TrimToNull(descripcion), aplicacionId, seccionId)
  }

  /** Constructing a request from a constructed request's components gives it back. */
  lemma CreateRequestNormalized(nombre: Option<string>, descripcion: Option<string>,
                                aplicacionId: Option<Id>, seccionId: Option<Id>)
    ensures var r := NewAccionCreateRequest(nombre, descripcion, aplicacionId, seccionId);
            NewAccionCreateRequest(r.nombre, r.descripcion, r.aplicacionId, r.seccionId) == r
  {
    CleanUpIdempotent(nombre);
    CleanUpIdempotent(descripcion);
  }

  /**
   * The update request of the action endpoints, with the components the
   * service reads; its declaration is not part of this model.
   */
  datatype AccionUpdateRequest = AccionUpdateRequest(
    nombre: string,
    descripcion: Option<string>,
    aplicacionId: Id,
    seccionId: Id)

  datatype AplicacionBasicInfo = AplicacionBasicInfo(id: Id, nombre: string, llaveIdentificadora: string)
  datatype SeccionBasicInfo = SeccionBasicInfo(id: Id, nombre: string)

  datatype AccionResponse = AccionResponse(
    id: Id,
    nombre: string,
    descripcion: Option<string>,
    aplicacion: Option<AplicacionBasicInfo>,
    seccion: Option<SeccionBasicInfo>,
    activo: bool,
    createdAt: Instant,
    updatedAt: Instant,
    deletedAt: Option<Instant>)
  {
    predicate EstaEliminada() {
      deletedAt.Some?
    }

    predicate EstaActiva() {
      activo && !EstaEliminada()
    }
  }

  /** The canonical constructor: a null `activo` becomes true. */
  function NewAccionResponse(id: Id, nombre: string, descripcion: Option<string>,
                             aplicacion: Option<AplicacionBasicInfo>, seccion: Option<SeccionBasicInfo>,
                             activo: Option<bool>, createdAt: Instant, updatedAt: Instant,
                             deletedAt: Option<Instant>): (r: AccionResponse)
    ensures r.activo == (activo.None? || activo.value)
    ensures r.EstaActiva() <==> (activo.None? || activo.value) && deletedAt.None?
  {
    AccionResponse(id, nombre, descripcion, aplicacion, seccion,
                   if activo.Some? then activo.value else true, createdAt, updatedAt, deletedAt)
  }

  datatype AccionSummary = AccionSummary(
    id: Id,
    nombre: string,
    descripcion: Option<string>,
    aplicacionNombre: Option<string>,
    seccionNombre: Option<string>,
    activo: bool)
  {
    /** Boolean.TRUE.equals(activo) */
    predicate EstaActiva() {
      activo
    }
  }

  /**
   * The canonical constructor: a null `activo` becomes true and a
   * description over 100 characters is cut to 97 plus "...".
   */
  function NewAccionSummary(id: Id, nombre: string, descripcion: Option<string>,
                            aplicacionNombre: Option<string>, seccionNombre: Option<string>,
                            activo: Option<bool>): (r: AccionSummary)
    ensures r.activo == (activo.None? || activo.value)
    ensures r.descripcion == Truncate(descripcion)
    ensures r.descripcion.Some? ==> |r.descripcion.value| <= SummaryDescriptionMax
  {
    AccionSummary(id, nombre, Truncate(descripcion), aplicacionNombre, seccionNombre,
                  if activo.Some? then activo.value else true)
  }

  /** Re-constructing a summary from its own components changes nothing. */
  lemma SummaryNormalized(id: Id, nombre: string, descripcion: Option<string>,
                          aplicacionNombre: Option<string>, seccionNombre: Option<string>, activo: Option<bool>)
    ensures var s := NewAccionSummary(id, nombre, descripcion, aplicacionNombre, seccionNombre, activo);
            NewAccionSummary(s.id, s.nombre, s.descripcion, s.aplicacionNombre, s.seccionNombre, Some(s.activo)) == s
  {
    TruncateIdempotent(descripcion);
  }
}
