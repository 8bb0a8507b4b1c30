/**
 * TipoUsuarioRepository: the queries over the `tipo_usuario` table. Every
 * query declared here filters out soft-deleted rows; a user type's name is
 * unique within its application.
 */
module TipoUsuarioRepository {
  import opened Common
  import opened BaseEntity
  import opened Entities
  import opened Table

  /** The folded name and the application id: unique among live rows. */
  function ScopeKey(x: TipoUsuarioRow): (string, Option<Id>) {
    (Lower(x.data.nombre), AppIdOf(x.data.aplicacion))
  }

  predicate InAplicacion(x: TipoUsuarioRow, aplicacionId: Id) {
    AppIdOf(x.data.aplicacion) == Some(aplicacionId)
  }

  /**
   * The condition of existsByNombreAndAplicacionIdAndDeletedAtIsNull: a live
   * row with that name ignoring case in that application, other than the
   * excluded id when one is given.
   */
  predicate NameTaken(x: TipoUsuarioRow, nombre: string, aplicacionId: Id, excludeId: Option<Id>) {
    x.IsActive() && ScopeKey(x) == (Lower(nombre), Some(aplicacionId))
    && (excludeId.None? || x.Id() != excludeId.value)
  }

  function FindByIdAndDeletedAtIsNull(t: seq<TipoUsuarioRow>, id: Id): Option<TipoUsuarioRow> {
    FindActiveById(t, id)
  }

  function FindByDeletedAtIsNull(t: seq<TipoUsuarioRow>): seq<TipoUsuarioRow> {
    Filter(t, (x: TipoUsuarioRow) => x.IsActive())
  }

  function FindByDeletedAtIsNullPage(t: seq<TipoUsuarioRow>, req: Pageable): Page<TipoUsuarioRow> {
    PageOf(FindByDeletedAtIsNull(t), req)
  }

  function FindByNombreContainingIgnoreCaseAndDeletedAtIsNullPage(
    t: seq<TipoUsuarioRow>, nombre: string, req: Pageable): Page<TipoUsuarioRow>
  {
    PageOf(Filter(t, (x: TipoUsuarioRow) => x.IsActive() && ContainsIgnoreCase(x.data.nombre, nombre)), req)
  }

  function FindByAplicacionIdAndDeletedAtIsNullPage(
    t: seq<TipoUsuarioRow>, aplicacionId: Id, req: Pageable): Page<TipoUsuarioRow>
  {
    PageOf(Filter(t, (x: TipoUsuarioRow) => x.IsActive() && InAplicacion(x, aplicacionId)), req)
  }

  function FindByEstadoAndDeletedAtIsNullPage(
    t: seq<TipoUsuarioRow>, estado: EstadoTipoUsuario, req: Pageable): Page<TipoUsuarioRow>
  {
    PageOf(Filter(t, (x: TipoUsuarioRow) => x.IsActive() && x.data.estado == Some(estado)), req)
  }

  /** One optional filter: a null parameter lets every row through. */
  predicate MatchesFilters(x: TipoUsuarioRow, nombre: Option<string>, aplicacionId: Option<Id>,
                           estado: Option<EstadoTipoUsuario>)
  {
    x.IsActive()
    && (nombre.None? || ContainsIgnoreCase(x.data.nombre, nombre.value))
    && (aplicacionId.None? || InAplicacion(x, aplicacionId.value))
    && (estado.None? || x.data.estado == estado)
  }

  function FindByFilters(t: seq<TipoUsuarioRow>, nombre: Option<string>, aplicacionId: Option<Id>,
                         estado: Option<EstadoTipoUsuario>): seq<TipoUsuarioRow>
  {
    Filter(t, (x: TipoUsuarioRow) => MatchesFilters(x, nombre, aplicacionId, estado))
  }

  function FindByFiltersPage(t: seq<TipoUsuarioRow>, nombre: Option<string>, aplicacionId: Option<Id>,
                             estado: Option<EstadoTipoUsuario>, req: Pageable): Page<TipoUsuarioRow>
  {
    PageOf(FindByFilters(t, nombre, aplicacionId, estado), req)
  }

  predicate ExistsByNombreAndAplicacionIdAndDeletedAtIsNull(
    t: seq<TipoUsuarioRow>, nombre: string, aplicacionId: Id, excludeId: Option<Id>)
  {
    Exists(t, (x: TipoUsuarioRow) => NameTaken(x, nombre, aplicacionId, excludeId))
  }

  function CountByDeletedAtIsNull(t: seq<TipoUsuarioRow>): nat {
    Count(t, (x: TipoUsuarioRow) => x.IsActive())
  }

  function CountByAplicacionIdAndDeletedAtIsNull(t: seq<TipoUsuarioRow>, aplicacionId: Id): nat {
    Count(t, (x: TipoUsuarioRow) => x.IsActive() && InAplicacion(x, aplicacionId))
  }

  function CountByEstadoAndDeletedAtIsNull(t: seq<TipoUsuarioRow>, estado: EstadoTipoUsuario): nat {
    Count(t, (x: TipoUsuarioRow) => x.IsActive() && x.data.estado == Some(estado))
  }

  // ------------------------------------------------------------- lemmas

  /** The name probe holds exactly when a clashing live row exists. */
  lemma ExistsByNombreIff(t: seq<TipoUsuarioRow>, nombre: string, aplicacionId: Id, excludeId: Option<Id>)
    ensures ExistsByNombreAndAplicacionIdAndDeletedAtIsNull(t, nombre, aplicacionId, excludeId)
        <==> exists x :: x in t && NameTaken(x, nombre, aplicacionId, excludeId)
  {
    ExistsIff(t, (x: TipoUsuarioRow) => NameTaken(x, nombre, aplicacionId, excludeId));
  }

  /** With every filter null, findByFilters is the list of all live rows. */
  lemma NoFiltersIsAllLive(t: seq<TipoUsuarioRow>)
    ensures FindByFilters(t, None, None, None) == FindByDeletedAtIsNull(t)
  {
    FilterSameCondition(t, (x: TipoUsuarioRow) => MatchesFilters(x, None, None, None),
                        (x: TipoUsuarioRow) => x.IsActive());
  }

  /** Every row findByFilters returns is live and satisfies each given filter. */
  lemma FiltersAreConjunctive(t: seq<TipoUsuarioRow>, nombre: Option<string>, aplicacionId: Option<Id>,
                              estado: Option<EstadoTipoUsuario>)
    ensures forall x :: x in FindByFilters(t, nombre, aplicacionId, estado) <==>
              x in FindByDeletedAtIsNull(t)
              && (x in FindByFilters(t, nombre, None, None))
              && (x in FindByFilters(t, None, aplicacionId, None))
              && (x in FindByFilters(t, None, None, estado))
  {
  }

  /** The live, per-application and per-state counts are the lengths of their lists. */
  lemma CountsMatchLists(t: seq<TipoUsuarioRow>, aplicacionId: Id, estado: EstadoTipoUsuario)
    ensures CountByDeletedAtIsNull(t) == |FindByDeletedAtIsNull(t)|
    ensures CountByAplicacionIdAndDeletedAtIsNull(t, aplicacionId) == |FindByFilters(t, None, Some(aplicacionId), None)|
    ensures CountByEstadoAndDeletedAtIsNull(t, estado) == |FindByFilters(t, None, None, Some(estado))|
  {
    CountIsFilterLength(t, (x: TipoUsuarioRow) => x.IsActive());
    var byApp := (x: TipoUsuarioRow) => x.IsActive() && InAplicacion(x, aplicacionId);
    CountIsFilterLength(t, byApp);
    FilterSameCondition(t, byApp, (x: TipoUsuarioRow) => MatchesFilters(x, None, Some(aplicacionId), None));
    var byEstado := (x: TipoUsuarioRow) => x.IsActive() && x.data.estado == Some(estado);
    CountIsFilterLength(t, byEstado);
    FilterSameCondition(t, byEstado, (x: TipoUsuarioRow) => MatchesFilters(x, None, None, Some(estado)));
  }
}
