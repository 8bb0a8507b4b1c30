/**
 * SeccionRepository: the queries over the `secciones` table. Every query
 * declared here filters out soft-deleted rows.
 */
module SeccionRepository {
  import opened Common
  import opened BaseEntity
  import opened Entities
  import opened Table

  /** A live row whose name equals `nombre` ignoring case. */
  predicate NameTaken(x: SeccionRow, nombre: string) {
    x.IsActive() && EqualsIgnoreCase(x.data.nombre, nombre)
  }

  function FindAllActive(t: seq<SeccionRow>): seq<SeccionRow> {
    Filter(t, (x: SeccionRow) => x.IsActive())
  }

  function FindAllActivePage(t: seq<SeccionRow>, req: Pageable): Page<SeccionRow> {
    PageOf(FindAllActive(t), req)
  }

  function FindByIdAndActive(t: seq<SeccionRow>, id: Id): Option<SeccionRow> {
    FindActiveById(t, id)
  }

  function FindByNombreContainingIgnoreCaseAndActive(t: seq<SeccionRow>, nombre: string): seq<SeccionRow> {
    Filter(t, (x: SeccionRow) => x.IsActive() && ContainsIgnoreCase(x.data.nombre, nombre))
  }

  function FindByNombreContainingIgnoreCaseAndActivePage(t: seq<SeccionRow>, nombre: string, req: Pageable): Page<SeccionRow> {
    PageOf(FindByNombreContainingIgnoreCaseAndActive(t, nombre), req)
  }

  /** A null description never matches LIKE, so only the name can match then. */
  predicate TextoMatches(x: SeccionRow, texto: string) {
    ContainsIgnoreCase(x.data.nombre, texto)
    || (x.data.descripcion.Some? && ContainsIgnoreCase(x.data.descripcion.value, texto))
  }

  function FindByTextoEnNombreOrDescripcion(t: seq<SeccionRow>, texto: string): seq<SeccionRow> {
    Filter(t, (x: SeccionRow) => x.IsActive() && TextoMatches(x, texto))
  }

  predicate ExistsByNombreIgnoreCaseAndIdNot(t: seq<SeccionRow>, nombre: string, excludeId: Id) {
    Exists(t, (x: SeccionRow) => NameTaken(x, nombre) && x.Id() != excludeId)
  }

  predicate ExistsByNombreIgnoreCase(t: seq<SeccionRow>, nombre: string) {
    Exists(t, (x: SeccionRow) => NameTaken(x, nombre))
  }

  function CountActive(t: seq<SeccionRow>): nat {
    Count(t, (x: SeccionRow) => x.IsActive())
  }

  // ------------------------------------------------------------- lemmas

  /** The creation probe holds exactly when a live row has the name, ignoring case. */
  lemma ExistsByNombreIff(t: seq<SeccionRow>, nombre: string)
    ensures ExistsByNombreIgnoreCase(t, nombre) <==> exists x :: x in t && NameTaken(x, nombre)
  {
    ExistsIff(t, (x: SeccionRow) => NameTaken(x, nombre));
  }

  /** The update probe holds exactly when another live row has the name. */
  lemma ExistsByNombreIdNotIff(t: seq<SeccionRow>, nombre: string, excludeId: Id)
    ensures ExistsByNombreIgnoreCaseAndIdNot(t, nombre, excludeId)
        <==> exists x :: x in t && NameTaken(x, nombre) && x.Id() != excludeId
  {
    ExistsIff(t, (x: SeccionRow) => NameTaken(x, nombre) && x.Id() != excludeId);
  }

  /**
   * The update probe is the creation probe minus the excluded row: it
   * implies the creation probe, and when only the creation probe holds,
   * every clashing row is the excluded one.
   */
  lemma IdNotNarrowsExists(t: seq<SeccionRow>, nombre: string, excludeId: Id)
    ensures ExistsByNombreIgnoreCaseAndIdNot(t, nombre, excludeId) ==> ExistsByNombreIgnoreCase(t, nombre)
    ensures ExistsByNombreIgnoreCase(t, nombre) && !ExistsByNombreIgnoreCaseAndIdNot(t, nombre, excludeId)
        ==> forall x :: x in t && NameTaken(x, nombre) ==> x.Id() == excludeId
  {
    ExistsByNombreIff(t, nombre);
    ExistsByNombreIdNotIff(t, nombre, excludeId);
  }

  /** The live count is the length of the live list. */
  lemma CountMatchesList(t: seq<SeccionRow>)
    ensures CountActive(t) == |FindAllActive(t)|
  {
    CountIsFilterLength(t, (x: SeccionRow) => x.IsActive());
  }

  /** A name match is a text match, and the empty search matches every live row. */
  lemma NombreSearchWithinTexto(t: seq<SeccionRow>, q: string)
    ensures forall x :: x in FindByNombreContainingIgnoreCaseAndActive(t, q) ==> x in FindByTextoEnNombreOrDescripcion(t, q)
    ensures FindByNombreContainingIgnoreCaseAndActive(t, "") == FindAllActive(t)
  {
    forall x: SeccionRow {
      ContainsIgnoreCaseTrivial(x.data.nombre, "");
    }
    FilterSameCondition(t, (x: SeccionRow) => x.IsActive() && ContainsIgnoreCase(x.data.nombre, ""),
                        (x: SeccionRow) => x.IsActive());
  }
}
