/**
 * AccionRepository: the queries over the `acciones` table. Every query
 * declared here filters out soft-deleted rows; an action's scope is its
 * application and its section.
 */
module AccionRepository {
  import opened Common
  import opened BaseEntity
  import opened Entities
  import opened Table

  /**
   * The key under which an action's name must be unique among live rows:
   * the folded name, the application id and the section id.
   */
  function ScopeKey(x: AccionRow): (string, Option<Id>, Option<Id>) {
    (Lower(x.data.nombre), AppIdOf(x.data.aplicacion), SeccionIdOf(x.data.seccion))
  }

  /** A live row whose name equals `nombre` ignoring case, in that scope. */
  predicate NameTaken(x: AccionRow, nombre: string, aplicacionId: Id, seccionId: Id) {
    x.IsActive() && ScopeKey(x) == (Lower(nombre), Some(aplicacionId), Some(seccionId))
  }

  predicate InAplicacion(x: AccionRow, aplicacionId: Id) {
    AppIdOf(x.data.aplicacion) == Some(aplicacionId)
  }

  predicate InSeccion(x: AccionRow, seccionId: Id) {
    SeccionIdOf(x.data.seccion) == Some(seccionId)
  }

  function FindAllActive(t: seq<AccionRow>): seq<AccionRow> {
    Filter(t, (x: AccionRow) => x.IsActive())
  }

  function FindAllActivePage(t: seq<AccionRow>, req: Pageable): Page<AccionRow> {
    PageOf(FindAllActive(t), req)
  }

  function FindByIdAndActive(t: seq<AccionRow>, id: Id): Option<AccionRow> {
    FindActiveById(t, id)
  }

  function FindByNombreContainingIgnoreCaseAndActive(t: seq<AccionRow>, nombre: string): seq<AccionRow> {
    Filter(t, (x: AccionRow) => x.IsActive() && ContainsIgnoreCase(x.data.nombre, nombre))
  }

  function FindByNombreContainingIgnoreCaseAndActivePage(t: seq<AccionRow>, nombre: string, req: Pageable): Page<AccionRow> {
    PageOf(FindByNombreContainingIgnoreCaseAndActive(t, nombre), req)
  }

  /** A null description never matches LIKE, so only the name can match then. */
  predicate TextoMatches(x: AccionRow, texto: string) {
    ContainsIgnoreCase(x.data.nombre, texto)
    || (x.data.descripcion.Some? && ContainsIgnoreCase(x.data.descripcion.value, texto))
  }

  function FindByTextoEnNombreOrDescripcion(t: seq<AccionRow>, texto: string): seq<AccionRow> {
    Filter(t, (x: AccionRow) => x.IsActive() && TextoMatches(x, texto))
  }

  function FindByAplicacionIdAndActive(t: seq<AccionRow>, aplicacionId: Id): seq<AccionRow> {
    Filter(t, (x: AccionRow) => x.IsActive() && InAplicacion(x, aplicacionId))
  }

  function FindByAplicacionIdAndActivePage(t: seq<AccionRow>, aplicacionId: Id, req: Pageable): Page<AccionRow> {
    PageOf(FindByAplicacionIdAndActive(t, aplicacionId), req)
  }

  function FindBySeccionIdAndActive(t: seq<AccionRow>, seccionId: Id): seq<AccionRow> {
    Filter(t, (x: AccionRow) => x.IsActive() && InSeccion(x, seccionId))
  }

  function FindBySeccionIdAndActivePage(t: seq<AccionRow>, seccionId: Id, req: Pageable): Page<AccionRow> {
    PageOf(FindBySeccionIdAndActive(t, seccionId), req)
  }

  function FindByAplicacionIdAndSeccionIdAndActive(t: seq<AccionRow>, aplicacionId: Id, seccionId: Id): seq<AccionRow> {
    Filter(t, (x: AccionRow) => x.IsActive() && InAplicacion(x, aplicacionId) && InSeccion(x, seccionId))
  }

  predicate ExistsByNombreIgnoreCaseAndAplicacionIdAndSeccionId(t: seq<AccionRow>, nombre: string, aplicacionId: Id, seccionId: Id) {
    Exists(t, (x: AccionRow) => NameTaken(x, nombre, aplicacionId, seccionId))
  }

  predicate ExistsByNombreIgnoreCaseAndAplicacionIdAndSeccionIdAndIdNot(
    t: seq<AccionRow>, nombre: string, aplicacionId: Id, seccionId: Id, excludeId: Id)
  {
    Exists(t, (x: AccionRow) => NameTaken(x, nombre, aplicacionId, seccionId) && x.Id() != excludeId)
  }

  function CountActive(t: seq<AccionRow>): nat {
    Count(t, (x: AccionRow) => x.IsActive())
  }

  function CountByAplicacionIdAndActive(t: seq<AccionRow>, aplicacionId: Id): nat {
    Count(t, (x: AccionRow) => x.IsActive() && InAplicacion(x, aplicacionId))
  }

  function CountBySeccionIdAndActive(t: seq<AccionRow>, seccionId: Id): nat {
    Count(t, (x: AccionRow) => x.IsActive() && InSeccion(x, seccionId))
  }

  // ------------------------------------------------------------- lemmas

  /** The uniqueness probe holds exactly when a live row in scope has the name. */
  lemma ExistsByNombreIff(t: seq<AccionRow>, nombre: string, aplicacionId: Id, seccionId: Id)
    ensures ExistsByNombreIgnoreCaseAndAplicacionIdAndSeccionId(t, nombre, aplicacionId, seccionId)
        <==> exists x :: x in t && NameTaken(x, nombre, aplicacionId, seccionId)
  {
    ExistsIff(t, (x: AccionRow) => NameTaken(x, nombre, aplicacionId, seccionId));
  }

  /** The update probe holds exactly when another live row in scope has the name. */
  lemma ExistsByNombreIdNotIff(t: seq<AccionRow>, nombre: string, aplicacionId: Id, seccionId: Id, excludeId: Id)
    ensures ExistsByNombreIgnoreCaseAndAplicacionIdAndSeccionIdAndIdNot(t, nombre, aplicacionId, seccionId, excludeId)
        <==> exists x :: x in t && NameTaken(x, nombre, aplicacionId, seccionId) && x.Id() != excludeId
  {
    ExistsIff(t, (x: AccionRow) => NameTaken(x, nombre, aplicacionId, seccionId) && x.Id() != excludeId);
  }

  /**
   * The update probe is the creation probe minus the excluded row: it
   * implies the creation probe, and when only the creation probe holds,
   * every clashing row is the excluded one.
   */
  lemma IdNotNarrowsExists(t: seq<AccionRow>, nombre: string, aplicacionId: Id, seccionId: Id, excludeId: Id)
    ensures ExistsByNombreIgnoreCaseAndAplicacionIdAndSeccionIdAndIdNot(t, nombre, aplicacionId, seccionId, excludeId)
        ==> ExistsByNombreIgnoreCaseAndAplicacionIdAndSeccionId(t, nombre, aplicacionId, seccionId)
    ensures ExistsByNombreIgnoreCaseAndAplicacionIdAndSeccionId(t, nombre, aplicacionId, seccionId)
            && !ExistsByNombreIgnoreCaseAndAplicacionIdAndSeccionIdAndIdNot(t, nombre, aplicacionId, seccionId, excludeId)
        ==> forall x :: x in t && NameTaken(x, nombre, aplicacionId, seccionId) ==> x.Id() == excludeId
  {
    ExistsByNombreIff(t, nombre, aplicacionId, seccionId);
    ExistsByNombreIdNotIff(t, nombre, aplicacionId, seccionId, excludeId);
  }

  /** Every count query counts exactly the rows of its list query. */
  lemma CountsMatchLists(t: seq<AccionRow>, aplicacionId: Id, seccionId: Id)
    ensures CountActive(t) == |FindAllActive(t)|
    ensures CountByAplicacionIdAndActive(t, aplicacionId) == |FindByAplicacionIdAndActive(t, aplicacionId)|
    ensures CountBySeccionIdAndActive(t, seccionId) == |FindBySeccionIdAndActive(t, seccionId)|
  {
    CountIsFilterLength(t, (x: AccionRow) => x.IsActive());
    CountIsFilterLength(t, (x: AccionRow) => x.IsActive() && InAplicacion(x, aplicacionId));
    CountIsFilterLength(t, (x: AccionRow) => x.IsActive() && InSeccion(x, seccionId));
  }

  /** The per-application and per-section counts never exceed the live count. */
  lemma ScopedCountsBounded(t: seq<AccionRow>, aplicacionId: Id, seccionId: Id)
    ensures CountByAplicacionIdAndActive(t, aplicacionId) <= CountActive(t)
    ensures CountBySeccionIdAndActive(t, seccionId) <= CountActive(t)
  {
    CountMonotone(t, (x: AccionRow) => x.IsActive(), (x: AccionRow) => x.IsActive() && InAplicacion(x, aplicacionId));
    CountMonotone(t, (x: AccionRow) => x.IsActive(), (x: AccionRow) => x.IsActive() && InSeccion(x, seccionId));
  }

  /** Listing by application and section is listing by application, then by section. */
  lemma ByAplicacionAndSeccionIsIntersection(t: seq<AccionRow>, aplicacionId: Id, seccionId: Id)
    ensures FindByAplicacionIdAndSeccionIdAndActive(t, aplicacionId, seccionId)
         == Filter(FindByAplicacionIdAndActive(t, aplicacionId), (x: AccionRow) => InSeccion(x, seccionId))
    ensures forall x :: x in FindByAplicacionIdAndSeccionIdAndActive(t, aplicacionId, seccionId)
                    <==> x in FindByAplicacionIdAndActive(t, aplicacionId) && x in FindBySeccionIdAndActive(t, seccionId)
  {
    FilterFilter(t, (x: AccionRow) => x.IsActive() && InAplicacion(x, aplicacionId),
                 (x: AccionRow) => InSeccion(x, seccionId),
                 (x: AccionRow) => x.IsActive() && InAplicacion(x, aplicacionId) && InSeccion(x, seccionId));
  }

  /** A name match is a text match, and the empty search matches every live row. */
  lemma NombreSearchWithinTexto(t: seq<AccionRow>, q: string)
    ensures forall x :: x in FindByNombreContainingIgnoreCaseAndActive(t, q) ==> x in FindByTextoEnNombreOrDescripcion(t, q)
    ensures FindByNombreContainingIgnoreCaseAndActive(t, "") == FindAllActive(t)
  {
    forall x: AccionRow {
      ContainsIgnoreCaseTrivial(x.data.nombre, "");
    }
    FilterSameCondition(t, (x: AccionRow) => x.IsActive() && ContainsIgnoreCase(x.data.nombre, ""),
                        (x: AccionRow) => x.IsActive());
  }
}
