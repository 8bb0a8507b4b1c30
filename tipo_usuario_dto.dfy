/** The records exchanged by the user-type endpoints. */
module TipoUsuarioDto {
  import opened Common
  import opened DtoSupport

  datatype TipoUsuarioCreateRequest = TipoUsuarioCreateRequest(
    nombre: Option<string>,
    descripcion: Option<string>,
    aplicacionId: Option<Id>)
  {
    predicate Valid() {
      NotBlank(nombre) && SizeBetween(nombre, 2, 100)
      && SizeBetween(descripcion, 0, 500)
      && aplicacionId.Some?
    }
  }

  /**
   * The update request of the user-type endpoints, with the components the
   * service and mapper read; its declaration is not part of this model.
   */
  datatype TipoUsuarioUpdateRequest = TipoUsuarioUpdateRequest(
    nombre: string,
    descripcion: Option<string>,
    aplicacionId: Id,
    estado: Option<string>)

  datatype TipoUsuarioResponse = TipoUsuarioResponse(
    id: Id,
    nombre: string,
    descripcion: Option<string>,
    aplicacionId: Option<Id>,
    aplicacionNombre: Option<string>,
    estado: Option<string>,
    createdAt: Instant,
    updatedAt: Instant)

  datatype TipoUsuarioSummary = TipoUsuarioSummary(
    id: Id,
    nombre: string,
    descripcion: Option<string>,
    aplicacionNombre: Option<string>,
    estado: Option<string>)
}
