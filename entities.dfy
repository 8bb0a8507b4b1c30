/**
 * The entities' own columns (the inherited ones live in BaseEntity.Audit)
 * and their two state enums with Enum.valueOf / Enum.name().
 *
 * An entity's reference to its parent row (an Accion's Aplicacion and
 * Seccion, a TipoUsuario's Aplicacion) is held as the parent row's value.
 */
module Entities {
  import opened Common
  import opened BaseEntity

  datatype EstadoAplicacion = ACTIVO | INACTIVO
  datatype EstadoTipoUsuario = TU_ACTIVO | TU_INACTIVO

  /** A new Aplicacion or TipoUsuario object starts in the ACTIVO state. */
  const DefaultEstadoAplicacion: EstadoAplicacion := ACTIVO
  const DefaultEstadoTipoUsuario: EstadoTipoUsuario := TU_ACTIVO

  function EstadoAplicacionName(e: EstadoAplicacion): string {
    match e
    case ACTIVO => "ACTIVO"
    case INACTIVO => "INACTIVO"
  }

  function EstadoTipoUsuarioName(e: EstadoTipoUsuario): string {
    match e
    case TU_ACTIVO => "ACTIVO"
    case TU_INACTIVO => "INACTIVO"
  }

  /** EstadoAplicacion.valueOf: the constant whose name is exactly `s`. */
  function EstadoAplicacionValueOf(s: string): (r: Option<EstadoAplicacion>)
    ensures r.Some? <==> s == "ACTIVO" || s == "INACTIVO"
    ensures r.Some? ==> EstadoAplicacionName(r.value) == s
  {
    if s == "ACTIVO" then Some(ACTIVO)
    else if s == "INACTIVO" then Some(INACTIVO)
    else None
  }

  /** EstadoTipoUsuario.valueOf: the constant whose name is exactly `s`. */
  function EstadoTipoUsuarioValueOf(s: string): (r: Option<EstadoTipoUsuario>)
    ensures r.Some? <==> s == "ACTIVO" || s == "INACTIVO"
    ensures r.Some? ==> EstadoTipoUsuarioName(r.value) == s
  {
    if s == "ACTIVO" then Some(TU_ACTIVO)
    else if s == "INACTIVO" then Some(TU_INACTIVO)
    else None
  }

  /** valueOf(name()) gives the constant back. */
  lemma EstadoNamesRoundTrip(a: EstadoAplicacion, t: EstadoTipoUsuario)
    ensures EstadoAplicacionValueOf(EstadoAplicacionName(a)) == Some(a)
    ensures EstadoTipoUsuarioValueOf(EstadoTipoUsuarioName(t)) == Some(t)
  {
  }

  datatype Aplicacion = Aplicacion(
    nombre: string,
    descripcion: Option<string>,
    url: string,
    llaveIdentificadora: string,
    estado: Option<EstadoAplicacion>)

  datatype Seccion = Seccion(
    nombre: string,
    descripcion: Option<string>)

  datatype Accion = Accion(
    nombre: string,
    descripcion: Option<string>,
    aplicacion: Option<Row<Aplicacion>>,
    seccion: Option<Row<Seccion>>)

  datatype TipoUsuario = TipoUsuario(
    nombre: string,
    descripcion: Option<string>,
    estado: Option<EstadoTipoUsuario>,
    aplicacion: Option<Row<Aplicacion>>)

  type AplicacionRow = Row<Aplicacion>
  type SeccionRow = Row<Seccion>
  type AccionRow = Row<Accion>
  type TipoUsuarioRow = Row<TipoUsuario>

  /** `x.aplicacion.id` in a query: null when the reference is null. */
  function AppIdOf(r: Option<AplicacionRow>): Option<Id> {
    if r.Some? then Some(r.value.Id()) else None
  }

  function SeccionIdOf(r: Option<SeccionRow>): Option<Id> {
    if r.Some? then Some(r.value.Id()) else None
  }
}
