/**
 * AplicacionRepository: the queries over the `aplicaciones` table. None of
 * them looks at the soft-delete mark: deleted applications are found,
 * counted and collide with new keys and URLs like live ones.
 */
module AplicacionRepository {
  import opened Common
  import opened BaseEntity
  import opened Entities
  import opened Table

  function FindByLlaveIdentificadora(t: seq<AplicacionRow>, llave: string): Option<AplicacionRow> {
    FindFirst(t, (x: AplicacionRow) => x.data.llaveIdentificadora == llave)
  }

  predicate ExistsByLlaveIdentificadora(t: seq<AplicacionRow>, llave: string) {
    Exists(t, (x: AplicacionRow) => x.data.llaveIdentificadora == llave)
  }

  function FindByNombreContainingIgnoreCase(t: seq<AplicacionRow>, nombre: string): seq<AplicacionRow> {
    Filter(t, (x: AplicacionRow) => ContainsIgnoreCase(x.data.nombre, nombre))
  }

  /** `a.estado = :estado`: a row with a null state matches no state. */
  function FindByEstado(t: seq<AplicacionRow>, estado: EstadoAplicacion): seq<AplicacionRow> {
    Filter(t, (x: AplicacionRow) => x.data.estado == Some(estado))
  }

  function FindByEstadoPage(t: seq<AplicacionRow>, estado: EstadoAplicacion, req: Pageable): Page<AplicacionRow> {
    PageOf(FindByEstado(t, estado), req)
  }

  function CountAplicacionesActivas(t: seq<AplicacionRow>): nat {
    Count(t, (x: AplicacionRow) => x.data.estado == Some(ACTIVO))
  }

  function FindByUrl(t: seq<AplicacionRow>, url: string): Option<AplicacionRow> {
    FindFirst(t, (x: AplicacionRow) => x.data.url == url)
  }

  predicate ExistsByUrl(t: seq<AplicacionRow>, url: string) {
    Exists(t, (x: AplicacionRow) => x.data.url == url)
  }

  // ------------------------------------------------------------- lemmas

  /** The key and URL probes hold exactly when some row, deleted or not, has that value. */
  lemma ExistsIffSomeRow(t: seq<AplicacionRow>, llave: string, url: string)
    ensures ExistsByLlaveIdentificadora(t, llave) <==> exists x :: x in t && x.data.llaveIdentificadora == llave
    ensures ExistsByUrl(t, url) <==> exists x :: x in t && x.data.url == url
  {
    ExistsIff(t, (x: AplicacionRow) => x.data.llaveIdentificadora == llave);
    ExistsIff(t, (x: AplicacionRow) => x.data.url == url);
  }

  /** Each Optional finder is present exactly when its exists probe holds. */
  lemma FindersAgreeWithProbes(t: seq<AplicacionRow>, llave: string, url: string)
    ensures FindByLlaveIdentificadora(t, llave).Some? <==> ExistsByLlaveIdentificadora(t, llave)
    ensures FindByUrl(t, url).Some? <==> ExistsByUrl(t, url)
  {
    FindFirstIffExists(t, (x: AplicacionRow) => x.data.llaveIdentificadora == llave);
    FindFirstIffExists(t, (x: AplicacionRow) => x.data.url == url);
  }

  /** The count of active applications is the length of the ACTIVO list. */
  lemma CountMatchesEstadoList(t: seq<AplicacionRow>)
    ensures CountAplicacionesActivas(t) == |FindByEstado(t, ACTIVO)|
  {
    CountIsFilterLength(t, (x: AplicacionRow) => x.data.estado == Some(ACTIVO));
  }
}
