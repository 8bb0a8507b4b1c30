/**
 * SeccionService: the section catalogue. The read-only calls are functions
 * of the table; the calls that write (crear, actualizar, eliminar,
 * restaurar) are methods of `Service`, which owns the table and keeps
 * section names unique, ignoring case, among live rows.
 */
module SeccionService {
  import opened Common
  import opened BaseEntity
  import opened Entities
  import opened Table
  import opened SeccionDto
  import Repo = SeccionRepository
  import Mapper = SeccionMapper

  /** No two live sections share a name, ignoring case. */
  ghost predicate NamesUnique(t: seq<SeccionRow>) {
    forall x, y :: (x in t && y in t && x.IsActive() && y.IsActive()
                    && Lower(x.data.nombre) == Lower(y.data.nombre)) ==> x.Id() == y.Id()
  }

  ghost predicate Invariant(t: seq<SeccionRow>) {
    DistinctIds(t) && NamesUnique(t)
  }

  /** Saving `row` keeps the names unique: it is deleted, or no other live row has its name. */
  ghost predicate NameFreeFor(t: seq<SeccionRow>, row: SeccionRow) {
    row.IsActive() ==>
      forall x :: x in t && x.IsActive() && x.Id() != row.Id() ==> Lower(x.data.nombre) != Lower(row.data.nombre)
  }

  lemma SavePreservesInvariant(t: seq<SeccionRow>, row: SeccionRow)
    requires Invariant(t) && NameFreeFor(t, row)
    ensures Invariant(Save(t, row))
  {
    SaveContents(t, row);
  }

  function NotFoundMessage(id: Id): string {
    "Sección no encontrada con ID: " + id
  }

  function DuplicateMessage(nombre: string): string {
    "Ya existe una sección con el nombre: " + nombre
  }

  // ---------------------------------------------------------- read-only calls

  /** buscarSeccionActiva: the live row with that id, or EntityNotFound. */
  function BuscarSeccionActiva(t: seq<SeccionRow>, id: Id): (r: Result<SeccionRow>)
    ensures r.Ok? <==> exists x :: x in t && x.Id() == id && x.IsActive()
    ensures r.Ok? ==> r.value in t && r.value.Id() == id && r.value.IsActive()
    ensures r.Err? ==> r == Fail(EntityNotFound, NotFoundMessage(id))
  {
    match Repo.FindByIdAndActive(t, id)
    case Some(s) => Ok(s)
    case None => Fail(EntityNotFound, NotFoundMessage(id))
  }

  function ObtenerPorId(t: seq<SeccionRow>, id: Id): (r: Result<SeccionResponse>)
    ensures r.Ok? <==> exists x :: x in t && x.Id() == id && x.IsActive()
    ensures r.Ok? ==> exists x :: x in t && x.Id() == id && x.IsActive() && Some(r.value) == Mapper.ToResponse(Some(x))
    ensures r.Ok? ==> r.value.id == id && r.value.EstaActiva()
    ensures r.Err? ==> r == Fail(EntityNotFound, NotFoundMessage(id))
  {
    var s := BuscarSeccionActiva(t, id);
    if s.Err? then Err(s.failure) else Ok(Mapper.ToResponse(Some(s.value)).value)
  }

  /** `r` is the summaries of `rows`, one per row, in the same order. */
  predicate ListsSummariesOf(r: seq<SeccionSummary>, rows: seq<SeccionRow>) {
    |r| == |rows| && forall i :: 0 <= i < |r| ==> Some(r[i]) == Mapper.ToSummary(Some(rows[i]))
  }

  /**
   * `r` is the page the service builds from the query result `rows`: the
   * summaries of the slice at the requested position, and the full count.
   */
  predicate PageOfSummaries(r: Page<SeccionSummary>, rows: seq<SeccionRow>, req: Pageable) {
    r.number == req.number && r.size == req.size && r.totalElements == |rows|
    && ListsSummariesOf(r.content, PageOf(rows, req).content)
  }

  /** Every row of a listed result has its summary in the list. */
  lemma SummaryOfEveryRow(r: seq<SeccionSummary>, rows: seq<SeccionRow>, x: SeccionRow)
    requires ListsSummariesOf(r, rows) && x in rows
    ensures exists i :: 0 <= i < |r| && r[i].id == x.Id()
  {
    var i :| 0 <= i < |rows| && rows[i] == x;
    assert Some(r[i]) == Mapper.ToSummary(Some(x));
  }

  /** The summaries of a query result, all active when the rows are all live. */
  function Summaries(rows: seq<SeccionRow>): (r: seq<SeccionSummary>)
    requires forall x :: x in rows ==> x.IsActive()
    ensures ListsSummariesOf(r, rows)
    ensures forall i :: 0 <= i < |r| ==> r[i].activo
  {
    assert forall i :: 0 <= i < |rows| ==> rows[i] in rows;
    Mapper.ToSummaryList(Some(rows)).value
  }

  /** The service's PageImpl over a query result of live rows. */
  function SummaryPage(rows: seq<SeccionRow>, req: Pageable): (r: Page<SeccionSummary>)
    requires forall x :: x in rows ==> x.IsActive()
    ensures PageOfSummaries(r, rows, req)
    ensures |r.content| <= req.size
    ensures forall i :: 0 <= i < |r.content| ==> r.content[i].activo
  {
    var p := PageOf(rows, req);
    PageWithin(rows, req);
    Page(Summaries(p.content), req.number, req.size, p.totalElements)
  }

  /** obtenerTodas: one active summary per live row, in table order. */
  function ObtenerTodas(t: seq<SeccionRow>): (r: seq<SeccionSummary>)
    ensures ListsSummariesOf(r, Repo.FindAllActive(t))
    ensures |r| == Repo.CountActive(t)
    ensures forall i :: 0 <= i < |r| ==> r[i].activo
  {
    Repo.CountMatchesList(t);
    Summaries(Repo.FindAllActive(t))
  }

  function ObtenerTodasPage(t: seq<SeccionRow>, req: Pageable): (r: Page<SeccionSummary>)
    ensures PageOfSummaries(r, Repo.FindAllActive(t), req)
    ensures r.totalElements == Repo.CountActive(t) && |r.content| <= req.size
    ensures forall i :: 0 <= i < |r.content| ==> r.content[i].activo
  {
    Repo.CountMatchesList(t);
    SummaryPage(Repo.FindAllActive(t), req)
  }

  /** buscarPorNombre: the live sections whose name contains `nombre`, ignoring case. */
  function BuscarPorNombre(t: seq<SeccionRow>, nombre: string): (r: seq<SeccionSummary>)
    ensures ListsSummariesOf(r, Repo.FindByNombreContainingIgnoreCaseAndActive(t, nombre))
    ensures forall i :: 0 <= i < |r| ==> r[i].activo && ContainsIgnoreCase(r[i].nombre, nombre)
    ensures forall x :: x in t && x.IsActive() && ContainsIgnoreCase(x.data.nombre, nombre) ==>
              exists i :: 0 <= i < |r| && r[i].id == x.Id()
  {
    var rows := Repo.FindByNombreContainingIgnoreCaseAndActive(t, nombre);
    assert forall i :: 0 <= i < |rows| ==> rows[i] in rows;
    var r := Summaries(rows);
    forall x | x in t && x.IsActive() && ContainsIgnoreCase(x.data.nombre, nombre)
      ensures exists i :: 0 <= i < |r| && r[i].id == x.Id()
    {
      SummaryOfEveryRow(r, rows, x);
    }
    r
  }

  function BuscarPorNombrePage(t: seq<SeccionRow>, nombre: string, req: Pageable): (r: Page<SeccionSummary>)
    ensures PageOfSummaries(r, Repo.FindByNombreContainingIgnoreCaseAndActive(t, nombre), req)
    ensures forall i :: 0 <= i < |r.content| ==> r.content[i].activo && ContainsIgnoreCase(r.content[i].nombre, nombre)
  {
    var rows := Repo.FindByNombreContainingIgnoreCaseAndActive(t, nombre);
    var r := SummaryPage(rows, req);
    PageWithin(rows, req);
    assert forall i :: 0 <= i < |r.content| ==> PageOf(rows, req).content[i] in rows;
    r
  }

  /** buscarPorTexto: the live sections whose name or description contains `texto`. */
  function BuscarPorTexto(t: seq<SeccionRow>, texto: string): (r: seq<SeccionSummary>)
    ensures ListsSummariesOf(r, Repo.FindByTextoEnNombreOrDescripcion(t, texto))
    ensures forall i :: 0 <= i < |r| ==> r[i].activo
  {
    Summaries(Repo.FindByTextoEnNombreOrDescripcion(t, texto))
  }

  function ContarSecciones(t: seq<SeccionRow>): (n: nat)
    ensures n == |Repo.FindAllActive(t)|
  {
    Repo.CountMatchesList(t);
    Repo.CountActive(t)
  }

  /** existePorNombre: some live section has the name, ignoring case. */
  function ExistePorNombre(t: seq<SeccionRow>, nombre: string): (b: bool)
    ensures b <==> exists x :: x in t && x.IsActive() && EqualsIgnoreCase(x.data.nombre, nombre)
  {
    Repo.ExistsByNombreIff(t, nombre);
    Repo.ExistsByNombreIgnoreCase(t, nombre)
  }

  // ------------------------------------------------------------- the writes

  class Service {
    var secciones: seq<SeccionRow>

    ghost predicate Valid()
      reads this
    {
      Invariant(secciones)
    }

    constructor (initial: seq<SeccionRow>)
      requires Invariant(initial)
      ensures Valid() && secciones == initial
    {
      secciones := initial;
    }

    /**
     * crear: reject a name some live section has, ignoring case; otherwise
     * insert a live section with the request's name and description.
     */
    method Crear(request: SeccionCreateRequest, freshId: Id, now: Instant) returns (r: Result<SeccionResponse>)
      requires Valid() && FindById(secciones, freshId).None?
      modifies this
      ensures Valid()
      ensures r.Err? <==> ExistePorNombre(old(secciones), request.nombre)
      ensures r.Err? ==> r == Fail(IllegalArgument, DuplicateMessage(request.nombre)) && secciones == old(secciones)
      ensures r.Ok? ==>
                var row := Inserted(freshId, now, Seccion(request.nombre, request.descripcion));
                secciones == Save(old(secciones), row) && r.value == Mapper.ToResponse(Some(row)).value
    {
      if Repo.ExistsByNombreIgnoreCase(secciones, request.nombre) {
        return Fail(IllegalArgument, DuplicateMessage(request.nombre));
      }
      var seccion := Mapper.ToEntity(Some(request)).value;
      var row := Inserted(freshId, now, seccion);
      Repo.ExistsByNombreIff(secciones, request.nombre);
      SavePreservesInvariant(secciones, row);
      secciones := Save(secciones, row);
      r := Ok(Mapper.ToResponse(Some(row)).value);
    }

    /**
     * actualizar: the target must be live; the name is probed against the
     * other live sections only when it changes other than in letter case.
     */
    method Actualizar(id: Id, request: SeccionUpdateRequest) returns (r: Result<SeccionResponse>)
      requires Valid() && request.nombre.Some?
      modifies this
      ensures Valid()
      ensures var found := Repo.FindByIdAndActive(old(secciones), id);
              var nombre := request.nombre.value;
              if found.None? then
                r == Fail(EntityNotFound, NotFoundMessage(id)) && secciones == old(secciones)
              else if !EqualsIgnoreCase(found.value.data.nombre, nombre)
                      && Repo.ExistsByNombreIgnoreCaseAndIdNot(old(secciones), nombre, id) then
                r == Fail(IllegalArgument, DuplicateMessage(nombre)) && secciones == old(secciones)
              else
                var row := found.value.(data := Seccion(nombre, request.descripcion));
                secciones == Save(old(secciones), row) && r == Ok(Mapper.ToResponse(Some(row)).value)
    {
      var found := BuscarSeccionActiva(secciones, id);
      if found.Err? {
        return Err(found.failure);
      }
      var seccion := found.value;
      var nombre := request.nombre.value;
      if !EqualsIgnoreCase(seccion.data.nombre, nombre) {
        if Repo.ExistsByNombreIgnoreCaseAndIdNot(secciones, nombre, id) {
          return Fail(IllegalArgument, DuplicateMessage(nombre));
        }
      }
      var row := seccion.(data := Mapper.UpdateEntity(seccion.data, Some(request)));
      if EqualsIgnoreCase(seccion.data.nombre, nombre) {
        CaseOnlyRenameNeverConflicts(secciones, id, nombre);
      }
      Repo.ExistsByNombreIdNotIff(secciones, nombre, id);
      SavePreservesInvariant(secciones, row);
      secciones := Save(secciones, row);
      r := Ok(Mapper.ToResponse(Some(row)).value);
    }

    /** eliminar: stamp the live target as deleted at `now`. */
    method Eliminar(id: Id, now: Instant) returns (r: Result<()>)
      requires Valid()
      modifies this
      ensures Valid()
      ensures var found := Repo.FindByIdAndActive(old(secciones), id);
              if found.None? then
                r == Fail(EntityNotFound, NotFoundMessage(id)) && secciones == old(secciones)
              else
                r == Ok(()) && secciones == Save(old(secciones), found.value.(base := found.value.base.SoftDeleted(now)))
    {
      var found := BuscarSeccionActiva(secciones, id);
      if found.Err? {
        return Err(found.failure);
      }
      var row := found.value.(base := found.value.base.SoftDeleted(now));
      SavePreservesInvariant(secciones, row);
      secciones := Save(secciones, row);
      r := Ok(());
    }

    /**
     * restaurar: the target may be any stored row; it must be deleted, and
     * no other live section may hold its name.
     */
    method Restaurar(id: Id) returns (r: Result<SeccionResponse>)
      requires Valid()
      modifies this
      ensures Valid()
      ensures var found := FindById(old(secciones), id);
              if found.None? then
                r == Fail(EntityNotFound, NotFoundMessage(id)) && secciones == old(secciones)
              else if !found.value.IsDeleted() then
                r == Fail(IllegalState, "La sección no está eliminada") && secciones == old(secciones)
              else if Repo.ExistsByNombreIgnoreCaseAndIdNot(old(secciones), found.value.data.nombre, id) then
                r == Fail(IllegalArgument, DuplicateMessage(found.value.data.nombre)) && secciones == old(secciones)
              else
                var row := found.value.(base := found.value.base.Restored());
                secciones == Save(old(secciones), row) && r == Ok(Mapper.ToResponse(Some(row)).value)
    {
      var found := FindById(secciones, id);
      if found.None? {
        return Fail(EntityNotFound, NotFoundMessage(id));
      }
      var seccion := found.value;
      if !seccion.IsDeleted() {
        return Fail(IllegalState, "La sección no está eliminada");
      }
      if Repo.ExistsByNombreIgnoreCaseAndIdNot(secciones, seccion.data.nombre, id) {
        return Fail(IllegalArgument, DuplicateMessage(seccion.data.nombre));
      }
      var row := seccion.(base := seccion.base.Restored());
      Repo.ExistsByNombreIdNotIff(secciones, seccion.data.nombre, id);
      SavePreservesInvariant(secciones, row);
      secciones := Save(secciones, row);
      r := Ok(Mapper.ToResponse(Some(row)).value);
    }
  }

  // ---------------------------------------------------------------- lemmas

  /**
   * The update skips the probe when the name changes only in letter case;
   * that is sound: with unique names, no other live row can hold it.
   */
  lemma CaseOnlyRenameNeverConflicts(t: seq<SeccionRow>, id: Id, nombre: string)
    requires Invariant(t)
    requires Repo.FindByIdAndActive(t, id).Some?
    requires EqualsIgnoreCase(Repo.FindByIdAndActive(t, id).value.data.nombre, nombre)
    ensures !Repo.ExistsByNombreIgnoreCaseAndIdNot(t, nombre, id)
  {
    Repo.ExistsByNombreIdNotIff(t, nombre, id);
  }

  /** After a successful crear, the name exists, so crearing it again is rejected. */
  lemma CreatedNameExists(t: seq<SeccionRow>, request: SeccionCreateRequest, freshId: Id, now: Instant)
    requires DistinctIds(t)
    ensures ExistePorNombre(Save(t, Inserted(freshId, now, Seccion(request.nombre, request.descripcion))), request.nombre)
  {
    var row := Inserted(freshId, now, Seccion(request.nombre, request.descripcion));
    SaveContents(t, row);
    assert row in Save(t, row);
  }

  /** After eliminar, the section is no longer found by obtenerPorId. */
  lemma DeletedNotFound(t: seq<SeccionRow>, id: Id, now: Instant)
    requires DistinctIds(t)
    requires Repo.FindByIdAndActive(t, id).Some?
    ensures var row := Repo.FindByIdAndActive(t, id).value;
            ObtenerPorId(Save(t, row.(base := row.base.SoftDeleted(now))), id).Err?
  {
    var row := Repo.FindByIdAndActive(t, id).value;
    SaveContents(t, row.(base := row.base.SoftDeleted(now)));
  }
}
