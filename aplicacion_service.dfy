/**
 * AplicacionService: the application registry. Keys and URLs are unique
 * over every stored application, deleted or not, since the repository's
 * probes do not look at the soft-delete mark. Lookups by id find deleted
 * applications too, and a missing one is an IllegalArgument error.
 */
module AplicacionService {
  import opened Common
  import opened BaseEntity
  import opened Table
  import E = Entities
  import D = AplicacionDto
  import Repo = AplicacionRepository
  import Mapper = AplicacionMapper

  /** No two stored applications share a key or a URL. */
  ghost predicate KeysUnique(t: seq<E.AplicacionRow>) {
    forall x, y :: (x in t && y in t && x.Id() != y.Id()) ==>
      x.data.llaveIdentificadora != y.data.llaveIdentificadora && x.data.url != y.data.url
  }

  ghost predicate Invariant(t: seq<E.AplicacionRow>) {
    DistinctIds(t) && KeysUnique(t)
  }

  /** No other stored row has `row`'s key or URL. */
  ghost predicate KeysFreeFor(t: seq<E.AplicacionRow>, row: E.AplicacionRow) {
    forall x :: x in t && x.Id() != row.Id() ==>
      x.data.llaveIdentificadora != row.data.llaveIdentificadora && x.data.url != row.data.url
  }

  lemma SavePreservesInvariant(t: seq<E.AplicacionRow>, row: E.AplicacionRow)
    requires Invariant(t) && KeysFreeFor(t, row)
    ensures Invariant(Save(t, row))
  {
    SaveContents(t, row);
  }

  function NotFoundMessage(id: Id): string {
    "Aplicación no encontrada con ID: " + id
  }

  const RequiredMessage := "Los datos de la aplicación son requeridos"

  function DuplicateKeyMessage(llave: string): string {
    "Ya existe una aplicación con la llave identificadora: " + llave
  }

  function DuplicateUrlMessage(url: string): string {
    "Ya existe una aplicación con la URL: " + url
  }

  // ---------------------------------------------------------- read-only calls

  /** obtenerPorId: the stored row with that id, deleted or not. */
  function ObtenerPorId(t: seq<E.AplicacionRow>, id: Id): (r: Result<E.AplicacionRow>)
    ensures r.Ok? <==> exists x :: x in t && x.Id() == id
    ensures r.Ok? ==> r.value in t && r.value.Id() == id
    ensures r.Err? ==> r == Fail(IllegalArgument, NotFoundMessage(id))
  {
    match FindById(t, id)
    case Some(a) => Ok(a)
    case None => Fail(IllegalArgument, NotFoundMessage(id))
  }

  /** obtenerPorLlaveIdentificadora: the stored row with that key, deleted or not. */
  function ObtenerPorLlaveIdentificadora(t: seq<E.AplicacionRow>, llave: string): (r: Result<E.AplicacionRow>)
    ensures r.Ok? <==> exists x :: x in t && x.data.llaveIdentificadora == llave
    ensures r.Ok? ==> r.value in t && r.value.data.llaveIdentificadora == llave
    ensures r.Err? ==> r == Fail(IllegalArgument, "Aplicación no encontrada con llave: " + llave)
  {
    match Repo.FindByLlaveIdentificadora(t, llave)
    case Some(a) => Ok(a)
    case None => Fail(IllegalArgument, "Aplicación no encontrada con llave: " + llave)
  }

  /** obtenerTodas: exactly the stored applications in state ACTIVO, whether deleted or not. */
  function ObtenerTodas(t: seq<E.AplicacionRow>): (r: seq<E.AplicacionRow>)
    ensures forall x :: x in r <==> x in t && x.data.estado == Some(E.ACTIVO)
  {
    Repo.FindByEstado(t, E.ACTIVO)
  }

  function ObtenerTodasPage(t: seq<E.AplicacionRow>, req: Pageable): (r: Page<E.AplicacionRow>)
    ensures r == PageOf(ObtenerTodas(t), req)
    ensures r.totalElements == |ObtenerTodas(t)| && |r.content| <= req.size
    ensures forall x :: x in r.content ==> x in t && x.data.estado == Some(E.ACTIVO)
  {
    PageWithin(Repo.FindByEstado(t, E.ACTIVO), req);
    Repo.FindByEstadoPage(t, E.ACTIVO, req)
  }

  /**
   * buscarPorNombre: a null or blank query lists the ACTIVO applications;
   * any other query is trimmed and matched against every name, ignoring
   * case, whatever the application's state.
   */
  function BuscarPorNombre(t: seq<E.AplicacionRow>, nombre: Option<string>): (r: seq<E.AplicacionRow>)
    ensures nombre.None? || IsBlank(nombre.value) ==> r == ObtenerTodas(t)
    ensures nombre.Some? && !IsBlank(nombre.value) ==>
              forall x :: x in r <==> x in t && ContainsIgnoreCase(x.data.nombre, Trim(nombre.value))
  {
    if nombre.None? || IsBlank(nombre.value) then ObtenerTodas(t)
    else Repo.FindByNombreContainingIgnoreCase(t, Trim(nombre.value))
  }

  function ContarAplicacionesActivas(t: seq<E.AplicacionRow>): (n: nat)
    ensures n == |ObtenerTodas(t)|
  {
    Repo.CountMatchesEstadoList(t);
    Repo.CountAplicacionesActivas(t)
  }

  function ExistePorLlaveIdentificadora(t: seq<E.AplicacionRow>, llave: string): (b: bool)
    ensures b <==> exists x :: x in t && x.data.llaveIdentificadora == llave
  {
    Repo.ExistsIffSomeRow(t, llave, "");
    Repo.ExistsByLlaveIdentificadora(t, llave)
  }

  function ExistePorUrl(t: seq<E.AplicacionRow>, url: string): (b: bool)
    ensures b <==> exists x :: x in t && x.data.url == url
  {
    Repo.ExistsIffSomeRow(t, "", url);
    Repo.ExistsByUrl(t, url)
  }

  // ------------------------------------------------------------- the writes

  class Service {
    var aplicaciones: seq<E.AplicacionRow>

    ghost predicate Valid()
      reads this
    {
      Invariant(aplicaciones)
    }

    constructor (initial: seq<E.AplicacionRow>)
      requires Invariant(initial)
      ensures Valid() && aplicaciones == initial
    {
      aplicaciones := initial;
    }

    /**
     * crear: a null request, a key already stored and a URL already stored
     * are rejected in that order; then the request is converted (its state
     * text must name a constant exactly) and inserted.
     */
    method Crear(request: Option<D.AplicacionCreateRequest>, freshId: Id, now: Instant)
      returns (r: Result<E.AplicacionRow>)
      requires Valid() && FindById(aplicaciones, freshId).None?
      requires request.Some? ==> request.value.nombre.Some? && request.value.url.Some?
                                 && request.value.llaveIdentificadora.Some?
      modifies this
      ensures Valid()
      ensures if request.None? then
                r == Fail(IllegalArgument, RequiredMessage) && aplicaciones == old(aplicaciones)
              else
                var q := request.value;
                if ExistePorLlaveIdentificadora(old(aplicaciones), q.llaveIdentificadora.value) then
                  r == Fail(IllegalArgument, DuplicateKeyMessage(q.llaveIdentificadora.value))
                  && aplicaciones == old(aplicaciones)
                else if ExistePorUrl(old(aplicaciones), q.url.value) then
                  r == Fail(IllegalArgument, DuplicateUrlMessage(q.url.value)) && aplicaciones == old(aplicaciones)
                else if Mapper.ToEntity(request).Err? then
                  r == Err(Mapper.ToEntity(request).failure) && aplicaciones == old(aplicaciones)
                else
                  var row := Inserted(freshId, now, Mapper.ToEntity(request).value.value);
                  r == Ok(row) && aplicaciones == Save(old(aplicaciones), row)
    {
      if request.None? {
        return Fail(IllegalArgument, RequiredMessage);
      }
      var q := request.value;
      if ExistePorLlaveIdentificadora(aplicaciones, q.llaveIdentificadora.value) {
        return Fail(IllegalArgument, DuplicateKeyMessage(q.llaveIdentificadora.value));
      }
      if ExistePorUrl(aplicaciones, q.url.value) {
        return Fail(IllegalArgument, DuplicateUrlMessage(q.url.value));
      }
      var entity := Mapper.ToEntity(request);
      if entity.Err? {
        return Err(entity.failure);
      }
      var row := Inserted(freshId, now, entity.value.value);
      SavePreservesInvariant(aplicaciones, row);
      aplicaciones := Save(aplicaciones, row);
      r := Ok(row);
    }

    /**
     * actualizar: the target is any stored row; a null request is rejected;
     * the key, and then the URL, is probed only when it differs exactly from
     * the stored one; a state text that names no constant is rejected
     * without saving.
     */
    method Actualizar(id: Id, request: Option<D.AplicacionUpdateRequest>) returns (r: Result<E.AplicacionRow>)
      requires Valid()
      requires request.Some? ==> request.value.nombre.Some? && request.value.url.Some?
                                 && request.value.llaveIdentificadora.Some?
      modifies this
      ensures Valid()
      ensures var found := FindById(old(aplicaciones), id);
              if found.None? then
                r == Fail(IllegalArgument, NotFoundMessage(id)) && aplicaciones == old(aplicaciones)
              else if request.None? then
                r == Fail(IllegalArgument, RequiredMessage) && aplicaciones == old(aplicaciones)
              else
                var a, q := found.value, request.value;
                var llave, url := q.llaveIdentificadora.value, q.url.value;
                if a.data.llaveIdentificadora != llave && ExistePorLlaveIdentificadora(old(aplicaciones), llave) then
                  r == Fail(IllegalArgument, DuplicateKeyMessage(llave)) && aplicaciones == old(aplicaciones)
                else if a.data.url != url && ExistePorUrl(old(aplicaciones), url) then
                  r == Fail(IllegalArgument, DuplicateUrlMessage(url)) && aplicaciones == old(aplicaciones)
                else
                  var updated := Mapper.UpdateEntityFromRequest(a.data, request);
                  if updated.Err? then
                    r == Err(updated.failure) && aplicaciones == old(aplicaciones)
                  else
                    r == Ok(a.(data := updated.value)) && aplicaciones == Save(old(aplicaciones), a.(data := updated.value))
    {
      var found := ObtenerPorId(aplicaciones, id);
      if found.Err? {
        return Err(found.failure);
      }
      if request.None? {
        return Fail(IllegalArgument, RequiredMessage);
      }
      var a, q := found.value, request.value;
      var llave, url := q.llaveIdentificadora.value, q.url.value;
      if a.data.llaveIdentificadora != llave && ExistePorLlaveIdentificadora(aplicaciones, llave) {
        return Fail(IllegalArgument, DuplicateKeyMessage(llave));
      }
      if a.data.url != url && ExistePorUrl(aplicaciones, url) {
        return Fail(IllegalArgument, DuplicateUrlMessage(url));
      }
      var updated := Mapper.UpdateEntityFromRequest(a.data, request);
      if updated.Err? {
        return Err(updated.failure);
      }
      var row := a.(data := updated.value);
      SavePreservesInvariant(aplicaciones, row);
      aplicaciones := Save(aplicaciones, row);
      r := Ok(row);
    }

    /** eliminar: stamp the stored target as deleted at `now`, even when it already is. */
    method Eliminar(id: Id, now: Instant) returns (r: Result<()>)
      requires Valid()
      modifies this
      ensures Valid()
      ensures var found := FindById(old(aplicaciones), id);
              if found.None? then
                r == Fail(IllegalArgument, NotFoundMessage(id)) && aplicaciones == old(aplicaciones)
              else
                r == Ok(()) && aplicaciones == Save(old(aplicaciones), found.value.(base := found.value.base.SoftDeleted(now)))
    {
      var found := ObtenerPorId(aplicaciones, id);
      if found.Err? {
        return Err(found.failure);
      }
      var row := found.value.(base := found.value.base.SoftDeleted(now));
      SavePreservesInvariant(aplicaciones, row);
      aplicaciones := Save(aplicaciones, row);
      r := Ok(());
    }

    /** restaurar: clear the deletion mark of the stored target, deleted or not; nothing is checked. */
    method Restaurar(id: Id) returns (r: Result<E.AplicacionRow>)
      requires Valid()
      modifies this
      ensures Valid()
      ensures var found := FindById(old(aplicaciones), id);
              if found.None? then
                r == Fail(IllegalArgument, NotFoundMessage(id)) && aplicaciones == old(aplicaciones)
              else
                var row := found.value.(base := found.value.base.Restored());
                r == Ok(row) && aplicaciones == Save(old(aplicaciones), row)
    {
      var found := FindById(aplicaciones, id);
      if found.None? {
        return Fail(IllegalArgument, NotFoundMessage(id));
      }
      var row := found.value.(base := found.value.base.Restored());
      SavePreservesInvariant(aplicaciones, row);
      aplicaciones := Save(aplicaciones, row);
      r := Ok(row);
    }

    /** cambiarEstado: set the state of the stored target. */
    method CambiarEstado(id: Id, nuevoEstado: E.EstadoAplicacion) returns (r: Result<E.AplicacionRow>)
      requires Valid()
      modifies this
      ensures Valid()
      ensures var found := FindById(old(aplicaciones), id);
              if found.None? then
                r == Fail(IllegalArgument, NotFoundMessage(id)) && aplicaciones == old(aplicaciones)
              else
                var row := found.value.(data := found.value.data.(estado := Some(nuevoEstado)));
                r == Ok(row) && aplicaciones == Save(old(aplicaciones), row)
    {
      var found := ObtenerPorId(aplicaciones, id);
      if found.Err? {
        return Err(found.failure);
      }
      var row := found.value.(data := found.value.data.(estado := Some(nuevoEstado)));
      SavePreservesInvariant(aplicaciones, row);
      aplicaciones := Save(aplicaciones, row);
      r := Ok(row);
    }
  }

  // ---------------------------------------------------------------- lemmas

  /**
   * The update skips the key probe when the key is unchanged; without the
   * skip it would reject every update of a stored application, since the
   * probe finds the application itself.
   */
  lemma UnchangedKeyWouldCollide(t: seq<E.AplicacionRow>, id: Id)
    requires FindById(t, id).Some?
    ensures ExistePorLlaveIdentificadora(t, FindById(t, id).value.data.llaveIdentificadora)
    ensures ExistePorUrl(t, FindById(t, id).value.data.url)
  {
  }

  /**
   * With keys unique, looking up a created application's key gives back
   * exactly the created row.
   */
  lemma {:induction false} CreatedFoundByKey(t: seq<E.AplicacionRow>, row: E.AplicacionRow)
    requires Invariant(t) && KeysFreeFor(t, row)
    ensures ObtenerPorLlaveIdentificadora(Save(t, row), row.data.llaveIdentificadora) == Ok(row)
  {
    SavePreservesInvariant(t, row);
    SaveContents(t, row);
    var r := ObtenerPorLlaveIdentificadora(Save(t, row), row.data.llaveIdentificadora);
    assert row in Save(t, row);
    assert r.Ok?;
    assert r.value in Save(t, row) && r.value.data.llaveIdentificadora == row.data.llaveIdentificadora;
  }

  /**
   * A deleted application is still found by id, and eliminar can be
   * repeated: the deletion stamp is simply renewed.
   */
  lemma DeletedStillFound(t: seq<E.AplicacionRow>, id: Id, now: Instant, later: Instant)
    requires FindById(t, id).Some?
    ensures var a := FindById(t, id).value;
            var t1 := Save(t, a.(base := a.base.SoftDeleted(now)));
            ObtenerPorId(t1, id) == Ok(a.(base := a.base.SoftDeleted(now)))
            && FindById(Save(t1, a.(base := a.base.SoftDeleted(later))), id).value.base.deletedAt == Some(later)
  {
  }
}
