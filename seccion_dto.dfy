/**
 * The records exchanged by the section endpoints, including the two whose
 * canonical constructor rejects its arguments (DisponibilidadNombre and
 * EstadisticasSecciones): such a construction is a Result.
 */
module SeccionDto {
  import opened Common
  import opened DtoSupport

  /**
   * The creation request of the section endpoints, with the components the
   * mapper reads; its declaration is not part of this model.
   */
  datatype SeccionCreateRequest = SeccionCreateRequest(nombre: string, descripcion: Option<string>)

  datatype SeccionUpdateRequest = SeccionUpdateRequest(nombre: Option<string>, descripcion: Option<string>)
  {
    predicate Valid() {
      NotBlank(nombre) && SizeBetween(nombre, 2, 100) && SizeBetween(descripcion, 0, 1000)
    }
  }

  /** The canonical constructor: trim the name; trim the description, blank becomes null. */
  function NewSeccionUpdateRequest(nombre: Option<string>, descripcion: Option<string>): (r: SeccionUpdateRequest)
    ensures r.nombre == TrimPresent(nombre) && r.descripcion == TrimToNull(descripcion)
  {
    SeccionUpdateRequest(TrimPresent(nombre), TrimToNull(descripcion))
  }

  /** Constructing a request from a constructed request's components gives it back. */
  lemma UpdateRequestNormalized(nombre: Option<string>, descripcion: Option<string>)
    ensures var r := NewSeccionUpdateRequest(nombre, descripcion);
            NewSeccionUpdateRequest(r.nombre, r.descripcion) == r
  {
    CleanUpIdempotent(nombre);
    CleanUpIdempotent(descripcion);
  }

  datatype SeccionResponse = SeccionResponse(
    id: Id,
    nombre: string,
    descripcion: Option<string>,
    activo: bool,
    createdAt: Instant,
    updatedAt: Instant,
    deletedAt: Option<Instant>)
  {
    predicate EstaEliminada() {
      deletedAt.Some?
    }

    predicate EstaActiva() {
      activo && !EstaEliminada()
    }
  }

  /** The canonical constructor: a null `activo` becomes true. */
  function NewSeccionResponse(id: Id, nombre: string, descripcion: Option<string>, activo: Option<bool>,
                              createdAt: Instant, updatedAt: Instant, deletedAt: Option<Instant>): (r: SeccionResponse)
    ensures r.activo == (activo.None? || activo.value)
    ensures r.EstaActiva() <==> (activo.None? || activo.value) && deletedAt.None?
  {
    SeccionResponse(id, nombre, descripcion, if activo.Some? then activo.value else true,
                    createdAt, updatedAt, deletedAt)
  }

  datatype SeccionSummary = SeccionSummary(id: Id, nombre: string, descripcion: Option<string>, activo: bool)

  /** The canonical constructor: null `activo` becomes true; long descriptions are cut. */
  function NewSeccionSummary(id: Id, nombre: string, descripcion: Option<string>, activo: Option<bool>): (r: SeccionSummary)
    ensures r.activo == (activo.None? || activo.value)
    ensures r.descripcion == Truncate(descripcion)
    ensures r.descripcion.Some? ==> |r.descripcion.value| <= SummaryDescriptionMax
  {
    SeccionSummary(id, nombre, Truncate(descripcion), if activo.Some? then activo.value else true)
  }

  /** Whether a section name is free: `disponible` and `existe` are each other's negation. */
  datatype DisponibilidadNombre = DisponibilidadNombre(nombre: string, disponible: bool, existe: bool)

  /**
   * The canonical constructor: a null or blank name, or `existe` equal to
   * `disponible`, is an IllegalArgumentException.
   */
  function NewDisponibilidadNombre(nombre: Option<string>, disponible: bool, existe: bool): (r: Result<DisponibilidadNombre>)
    ensures r.Ok? <==> nombre.Some? && !IsBlank(nombre.value) && disponible != existe
    ensures r.Ok? ==> r.value == DisponibilidadNombre(nombre.value, disponible, existe)
    ensures r.Err? ==> r.FailedWith(IllegalArgument)
    ensures nombre.None? || IsBlank(nombre.value) ==> r == Fail(IllegalArgument, "El nombre no puede ser nulo o vacío")
    ensures nombre.Some? && !IsBlank(nombre.value) && disponible == existe ==>
              r == Fail(IllegalArgument, "Inconsistencia en disponibilidad: si existe debe no estar disponible")
  {
    if nombre.None? || IsBlank(nombre.value) then
      Fail(IllegalArgument, "El nombre no puede ser nulo o vacío")
    else if existe == disponible then
      Fail(IllegalArgument, "Inconsistencia en disponibilidad: si existe debe no estar disponible")
    else
      Ok(DisponibilidadNombre(nombre.value, disponible, existe))
  }

  datatype EstadisticasSecciones = EstadisticasSecciones(totalSecciones: int)

  /** The canonical constructor: a negative total is an IllegalArgumentException. */
  function NewEstadisticasSecciones(totalSecciones: int): (r: Result<EstadisticasSecciones>)
    ensures r.Ok? <==> totalSecciones >= 0
    ensures r.Ok? ==> r.value.totalSecciones == totalSecciones
    ensures r.Err? ==> r == Fail(IllegalArgument, "El total de secciones no puede ser negativo")
  {
    if totalSecciones < 0 then Fail(IllegalArgument, "El total de secciones no puede ser negativo")
    else Ok(EstadisticasSecciones(totalSecciones))
  }
}
