/**
 * AccionService: the action catalogue. An action belongs to one
 * application and one section, and its name is unique, ignoring case,
 * among the live actions of that pair. The read-only calls are functions
 * of the tables; the calls that write are methods of `Service`, which owns
 * the action table and reads the application and section tables it is
 * given.
 */
module AccionService {
  import opened Common
  import opened BaseEntity
  import opened Entities
  import opened Table
  import opened AccionDto
  import Repo = AccionRepository
  import SeccionRepository
  import Mapper = AccionMapper

  /** Every stored action refers to an application and a section. */
  ghost predicate Attached(t: seq<AccionRow>) {
    forall x :: x in t ==> x.data.aplicacion.Some? && x.data.seccion.Some?
  }

  /** No two live actions share a name, ignoring case, in the same application and section. */
  ghost predicate KeysUnique(t: seq<AccionRow>) {
    forall x, y :: (x in t && y in t && x.IsActive() && y.IsActive()
                    && Repo.ScopeKey(x) == Repo.ScopeKey(y)) ==> x.Id() == y.Id()
  }

  ghost predicate Invariant(t: seq<AccionRow>) {
    DistinctIds(t) && Attached(t) && KeysUnique(t)
  }

  /** Saving `row` keeps the keys unique: it is deleted, or no other live row has its key. */
  ghost predicate KeyFreeFor(t: seq<AccionRow>, row: AccionRow) {
    row.IsActive() ==>
      forall x :: x in t && x.IsActive() && x.Id() != row.Id() ==> Repo.ScopeKey(x) != Repo.ScopeKey(row)
  }

  lemma SavePreservesInvariant(t: seq<AccionRow>, row: AccionRow)
    requires Invariant(t) && KeyFreeFor(t, row)
    requires row.data.aplicacion.Some? && row.data.seccion.Some?
    ensures Invariant(Save(t, row))
  {
    SaveContents(t, row);
  }

  function NotFoundMessage(id: Id): string {
    "Acción no encontrada con ID: " + id
  }

  function AplicacionNotFoundMessage(id: Id): string {
    "Aplicación no encontrada con ID: " + id
  }

  function SeccionNotFoundMessage(id: Id): string {
    "Sección no encontrada con ID: " + id
  }

  function DuplicateMessage(nombre: string): string {
    "Ya existe una acción con el nombre '" + nombre + "' en la aplicación y sección especificadas"
  }

  // ---------------------------------------------------------- read-only calls

  /** buscarAccionActiva: the live row with that id, or EntityNotFound. */
  function BuscarAccionActiva(t: seq<AccionRow>, id: Id): (r: Result<AccionRow>)
    ensures r.Ok? <==> exists x :: x in t && x.Id() == id && x.IsActive()
    ensures r.Ok? ==> r.value in t && r.value.Id() == id && r.value.IsActive()
    ensures r.Err? ==> r == Fail(EntityNotFound, NotFoundMessage(id))
  {
    match Repo.FindByIdAndActive(t, id)
    case Some(a) => Ok(a)
    case None => Fail(EntityNotFound, NotFoundMessage(id))
  }

  function ObtenerPorId(t: seq<AccionRow>, id: Id): (r: Result<AccionResponse>)
    ensures r.Ok? <==> exists x :: x in t && x.Id() == id && x.IsActive()
    ensures r.Ok? ==> exists x :: x in t && x.Id() == id && x.IsActive() && Some(r.value) == Mapper.ToResponse(Some(x))
    ensures r.Ok? ==> r.value.id == id && r.value.EstaActiva()
    ensures r.Err? ==> r == Fail(EntityNotFound, NotFoundMessage(id))
  {
    var a := BuscarAccionActiva(t, id);
    if a.Err? then Err(a.failure) else Ok(Mapper.ToResponse(Some(a.value)).value)
  }

  /** `r` is the summaries of `rows`, one per row, in the same order. */
  predicate ListsSummariesOf(r: seq<AccionSummary>, rows: seq<AccionRow>) {
    |r| == |rows| && forall i :: 0 <= i < |r| ==> Some(r[i]) == Mapper.ToSummary(Some(rows[i]))
  }

  /**
   * `r` is the page the service builds from the query result `rows`: the
   * summaries of the slice at the requested position, and the full count.
   */
  predicate PageOfSummaries(r: Page<AccionSummary>, rows: seq<AccionRow>, req: Pageable) {
    r.number == req.number && r.size == req.size && r.totalElements == |rows|
    && ListsSummariesOf(r.content, PageOf(rows, req).content)
  }

  /** The summaries of rows that are all live are all active. */
  function Summaries(rows: seq<AccionRow>): (r: seq<AccionSummary>)
    requires forall x :: x in rows ==> x.IsActive()
    ensures ListsSummariesOf(r, rows)
    ensures forall i :: 0 <= i < |r| ==> r[i].activo && r[i].id == rows[i].Id() && r[i].nombre == rows[i].data.nombre
  {
    assert forall i :: 0 <= i < |rows| ==> rows[i] in rows;
    Mapper.ToSummaryList(Some(rows)).value
  }

  /** The service's PageImpl: the page's summaries, the request's position, the query's full count. */
  function SummaryPage(s: seq<AccionRow>, req: Pageable): (r: Page<AccionSummary>)
    requires forall x :: x in s ==> x.IsActive()
    ensures PageOfSummaries(r, s, req)
    ensures |r.content| <= req.size
    ensures forall i :: 0 <= i < |r.content| ==> r.content[i].activo
  {
    var p := PageOf(s, req);
    PageWithin(s, req);
    Page(Summaries(p.content), req.number, req.size, p.totalElements)
  }

  /** obtenerTodas: one active summary per live row, in table order. */
  function ObtenerTodas(t: seq<AccionRow>): (r: seq<AccionSummary>)
    ensures ListsSummariesOf(r, Repo.FindAllActive(t))
    ensures |r| == Repo.CountActive(t)
    ensures forall i :: 0 <= i < |r| ==> r[i].activo
  {
    Repo.CountsMatchLists(t, "", "");
    Summaries(Repo.FindAllActive(t))
  }

  function ObtenerTodasPage(t: seq<AccionRow>, req: Pageable): (r: Page<AccionSummary>)
    ensures PageOfSummaries(r, Repo.FindAllActive(t), req)
    ensures r.totalElements == Repo.CountActive(t)
  {
    Repo.CountsMatchLists(t, "", "");
    SummaryPage(Repo.FindAllActive(t), req)
  }

  /** buscarPorNombre: the live actions whose name contains `nombre`, ignoring case. */
  function BuscarPorNombre(t: seq<AccionRow>, nombre: string): (r: seq<AccionSummary>)
    ensures ListsSummariesOf(r, Repo.FindByNombreContainingIgnoreCaseAndActive(t, nombre))
    ensures forall i :: 0 <= i < |r| ==> r[i].activo && ContainsIgnoreCase(r[i].nombre, nombre)
    ensures forall x :: x in t && x.IsActive() && ContainsIgnoreCase(x.data.nombre, nombre) ==>
              exists i :: 0 <= i < |r| && r[i].id == x.Id()
  {
    var rows := Repo.FindByNombreContainingIgnoreCaseAndActive(t, nombre);
    assert forall i :: 0 <= i < |rows| ==> rows[i] in rows;
    var r := Summaries(rows);
    forall x | x in t && x.IsActive() && ContainsIgnoreCase(x.data.nombre, nombre)
      ensures exists i :: 0 <= i < |r| && r[i].id == x.Id()
    {
      SummaryOfEveryRow(r, rows, x);
    }
    r
  }

  /** Every row of a listed result has its summary in the list. */
  lemma SummaryOfEveryRow(r: seq<AccionSummary>, rows: seq<AccionRow>, x: AccionRow)
    requires ListsSummariesOf(r, rows) && x in rows
    ensures exists i :: 0 <= i < |r| && r[i].id == x.Id()
  {
    var i :| 0 <= i < |rows| && rows[i] == x;
    assert Some(r[i]) == Mapper.ToSummary(Some(x));
  }

  function BuscarPorNombrePage(t: seq<AccionRow>, nombre: string, req: Pageable): (r: Page<AccionSummary>)
    ensures PageOfSummaries(r, Repo.FindByNombreContainingIgnoreCaseAndActive(t, nombre), req)
    ensures forall i :: 0 <= i < |r.content| ==> r.content[i].activo
  {
    SummaryPage(Repo.FindByNombreContainingIgnoreCaseAndActive(t, nombre), req)
  }

  /** buscarPorTexto: the live actions whose name or description contains `texto`. */
  function BuscarPorTexto(t: seq<AccionRow>, texto: string): (r: seq<AccionSummary>)
    ensures ListsSummariesOf(r, Repo.FindByTextoEnNombreOrDescripcion(t, texto))
    ensures forall i :: 0 <= i < |r| ==> r[i].activo
  {
    Summaries(Repo.FindByTextoEnNombreOrDescripcion(t, texto))
  }

  function BuscarPorAplicacion(t: seq<AccionRow>, aplicacionId: Id): (r: seq<AccionSummary>)
    ensures ListsSummariesOf(r, Repo.FindByAplicacionIdAndActive(t, aplicacionId))
    ensures |r| == Repo.CountByAplicacionIdAndActive(t, aplicacionId)
    ensures forall i :: 0 <= i < |r| ==> r[i].activo
  {
    Repo.CountsMatchLists(t, aplicacionId, "");
    Summaries(Repo.FindByAplicacionIdAndActive(t, aplicacionId))
  }

  function BuscarPorAplicacionPage(t: seq<AccionRow>, aplicacionId: Id, req: Pageable): (r: Page<AccionSummary>)
    ensures PageOfSummaries(r, Repo.FindByAplicacionIdAndActive(t, aplicacionId), req)
    ensures r.totalElements == Repo.CountByAplicacionIdAndActive(t, aplicacionId)
  {
    Repo.CountsMatchLists(t, aplicacionId, "");
    SummaryPage(Repo.FindByAplicacionIdAndActive(t, aplicacionId), req)
  }

  function BuscarPorSeccion(t: seq<AccionRow>, seccionId: Id): (r: seq<AccionSummary>)
    ensures ListsSummariesOf(r, Repo.FindBySeccionIdAndActive(t, seccionId))
    ensures |r| == Repo.CountBySeccionIdAndActive(t, seccionId)
    ensures forall i :: 0 <= i < |r| ==> r[i].activo
  {
    Repo.CountsMatchLists(t, "", seccionId);
    Summaries(Repo.FindBySeccionIdAndActive(t, seccionId))
  }

  function BuscarPorSeccionPage(t: seq<AccionRow>, seccionId: Id, req: Pageable): (r: Page<AccionSummary>)
    ensures PageOfSummaries(r, Repo.FindBySeccionIdAndActive(t, seccionId), req)
    ensures r.totalElements == Repo.CountBySeccionIdAndActive(t, seccionId)
  {
    Repo.CountsMatchLists(t, "", seccionId);
    SummaryPage(Repo.FindBySeccionIdAndActive(t, seccionId), req)
  }

  /** buscarPorAplicacionYSeccion: the live actions of that application within that section. */
  function BuscarPorAplicacionYSeccion(t: seq<AccionRow>, aplicacionId: Id, seccionId: Id): (r: seq<AccionSummary>)
    ensures ListsSummariesOf(r, Repo.FindByAplicacionIdAndSeccionIdAndActive(t, aplicacionId, seccionId))
    ensures |r| <= Repo.CountByAplicacionIdAndActive(t, aplicacionId)
    ensures forall i :: 0 <= i < |r| ==> r[i].activo
  {
    var rows := Repo.FindByAplicacionIdAndSeccionIdAndActive(t, aplicacionId, seccionId);
    Repo.ByAplicacionAndSeccionIsIntersection(t, aplicacionId, seccionId);
    Repo.CountsMatchLists(t, aplicacionId, seccionId);
    Summaries(rows)
  }

  function ContarAcciones(t: seq<AccionRow>): (n: nat)
    ensures n == |Repo.FindAllActive(t)|
  {
    Repo.CountsMatchLists(t, "", "");
    Repo.CountActive(t)
  }

  function ContarPorAplicacion(t: seq<AccionRow>, aplicacionId: Id): (n: nat)
    ensures n == |Repo.FindByAplicacionIdAndActive(t, aplicacionId)| && n <= ContarAcciones(t)
  {
    Repo.CountsMatchLists(t, aplicacionId, "");
    Repo.ScopedCountsBounded(t, aplicacionId, "");
    Repo.CountByAplicacionIdAndActive(t, aplicacionId)
  }

  function ContarPorSeccion(t: seq<AccionRow>, seccionId: Id): (n: nat)
    ensures n == |Repo.FindBySeccionIdAndActive(t, seccionId)| && n <= ContarAcciones(t)
  {
    Repo.CountsMatchLists(t, "", seccionId);
    Repo.ScopedCountsBounded(t, "", seccionId);
    Repo.CountBySeccionIdAndActive(t, seccionId)
  }

  /** existePorNombre: a live action of that application and section has the name, ignoring case. */
  function ExistePorNombre(t: seq<AccionRow>, nombre: string, aplicacionId: Id, seccionId: Id): (b: bool)
    ensures b <==> exists x :: x in t && x.IsActive()
                                && Repo.ScopeKey(x) == (Lower(nombre), Some(aplicacionId), Some(seccionId))
  {
    Repo.ExistsByNombreIff(t, nombre, aplicacionId, seccionId);
    Repo.ExistsByNombreIgnoreCaseAndAplicacionIdAndSeccionId(t, nombre, aplicacionId, seccionId)
  }

  // ------------------------------------------------------------- the writes

  class Service {
    var acciones: seq<AccionRow>

    ghost predicate Valid()
      reads this
    {
      Invariant(acciones)
    }

    constructor (initial: seq<AccionRow>)
      requires Invariant(initial)
      ensures Valid() && acciones == initial
    {
      acciones := initial;
    }

    /**
     * crear: the application must be stored (deleted or not), the section
     * must be live, and the name must be free in that pair; then a live
     * action referring to both is inserted. The checks run in that order.
     */
    method Crear(request: AccionCreateRequest, aplicaciones: seq<AplicacionRow>, secciones: seq<SeccionRow>,
                 freshId: Id, now: Instant) returns (r: Result<AccionResponse>)
      requires Valid() && FindById(acciones, freshId).None?
      requires request.nombre.Some? && request.aplicacionId.Some? && request.seccionId.Some?
      modifies this
      ensures Valid()
      ensures var nombre, appId, secId := request.nombre.value, request.aplicacionId.value, request.seccionId.value;
              var app, sec := FindById(aplicaciones, appId), SeccionRepository.FindByIdAndActive(secciones, secId);
              if app.None? then
                r == Fail(EntityNotFound, AplicacionNotFoundMessage(appId)) && acciones == old(acciones)
              else if sec.None? then
                r == Fail(EntityNotFound, SeccionNotFoundMessage(secId)) && acciones == old(acciones)
              else if ExistePorNombre(old(acciones), nombre, appId, secId) then
                r == Fail(IllegalArgument, DuplicateMessage(nombre)) && acciones == old(acciones)
              else
                var row := Inserted(freshId, now, Accion(nombre, request.descripcion, app, sec));
                acciones == Save(old(acciones), row) && r == Ok(Mapper.ToResponse(Some(row)).value)
    {
      var appId, secId := request.aplicacionId.value, request.seccionId.value;
      var app := FindById(aplicaciones, appId);
      if app.None? {
        return Fail(EntityNotFound, AplicacionNotFoundMessage(appId));
      }
      var sec := SeccionRepository.FindByIdAndActive(secciones, secId);
      if sec.None? {
        return Fail(EntityNotFound, SeccionNotFoundMessage(secId));
      }
      var nombre := request.nombre.value;
      if Repo.ExistsByNombreIgnoreCaseAndAplicacionIdAndSeccionId(acciones, nombre, appId, secId) {
        return Fail(IllegalArgument, DuplicateMessage(nombre));
      }
      var accion := Mapper.ToEntity(Some(request)).value.(aplicacion := app, seccion := sec);
      var row := Inserted(freshId, now, accion);
      Repo.ExistsByNombreIff(acciones, nombre, appId, secId);
      SavePreservesInvariant(acciones, row);
      acciones := Save(acciones, row);
      r := Ok(Mapper.ToResponse(Some(row)).value);
    }

    /**
     * actualizar: the target must be live, the application stored and the
     * section live; the name is probed against the other live actions only
     * when the name changes other than in letter case, or the application
     * or the section changes.
     */
    method Actualizar(id: Id, request: AccionUpdateRequest, aplicaciones: seq<AplicacionRow>,
                      secciones: seq<SeccionRow>) returns (r: Result<AccionResponse>)
      requires Valid()
      modifies this
      ensures Valid()
      ensures var found := Repo.FindByIdAndActive(old(acciones), id);
              var app := FindById(aplicaciones, request.aplicacionId);
              var sec := SeccionRepository.FindByIdAndActive(secciones, request.seccionId);
              if found.None? then
                r == Fail(EntityNotFound, NotFoundMessage(id)) && acciones == old(acciones)
              else if app.None? then
                r == Fail(EntityNotFound, AplicacionNotFoundMessage(request.aplicacionId)) && acciones == old(acciones)
              else if sec.None? then
                r == Fail(EntityNotFound, SeccionNotFoundMessage(request.seccionId)) && acciones == old(acciones)
              else if Repo.ScopeKey(found.value) != (Lower(request.nombre), Some(request.aplicacionId), Some(request.seccionId))
                      && Repo.ExistsByNombreIgnoreCaseAndAplicacionIdAndSeccionIdAndIdNot(
                           old(acciones), request.nombre, request.aplicacionId, request.seccionId, id) then
                r == Fail(IllegalArgument, DuplicateMessage(request.nombre)) && acciones == old(acciones)
              else
                var row := found.value.(data := Accion(request.nombre, request.descripcion, app, sec));
                acciones == Save(old(acciones), row) && r == Ok(Mapper.ToResponse(Some(row)).value)
    {
      var found := BuscarAccionActiva(acciones, id);
      if found.Err? {
        return Err(found.failure);
      }
      var accion := found.value;
      var app := FindById(aplicaciones, request.aplicacionId);
      if app.None? {
        return Fail(EntityNotFound, AplicacionNotFoundMessage(request.aplicacionId));
      }
      var sec := SeccionRepository.FindByIdAndActive(secciones, request.seccionId);
      if sec.None? {
        return Fail(EntityNotFound, SeccionNotFoundMessage(request.seccionId));
      }
      var changed := !EqualsIgnoreCase(accion.data.nombre, request.nombre)
                     || accion.data.aplicacion.value.Id() != request.aplicacionId
                     || accion.data.seccion.value.Id() != request.seccionId;
      assert changed <==> Repo.ScopeKey(accion) != (Lower(request.nombre), Some(request.aplicacionId), Some(request.seccionId));
      if changed {
        if Repo.ExistsByNombreIgnoreCaseAndAplicacionIdAndSeccionIdAndIdNot(
             acciones, request.nombre, request.aplicacionId, request.seccionId, id) {
          return Fail(IllegalArgument, DuplicateMessage(request.nombre));
        }
      } else {
        UnchangedKeyNeverConflicts(acciones, id, request.nombre, request.aplicacionId, request.seccionId);
      }
      var updated := Mapper.UpdateEntity(accion.data, Some(request)).(aplicacion := app, seccion := sec);
      var row := accion.(data := updated);
      Repo.ExistsByNombreIdNotIff(acciones, request.nombre, request.aplicacionId, request.seccionId, id);
      SavePreservesInvariant(acciones, row);
      acciones := Save(acciones, row);
      r := Ok(Mapper.ToResponse(Some(row)).value);
    }

    /** eliminar: stamp the live target as deleted at `now`. */
    method Eliminar(id: Id, now: Instant) returns (r: Result<()>)
      requires Valid()
      modifies this
      ensures Valid()
      ensures var found := Repo.FindByIdAndActive(old(acciones), id);
              if found.None? then
                r == Fail(EntityNotFound, NotFoundMessage(id)) && acciones == old(acciones)
              else
                r == Ok(()) && acciones == Save(old(acciones), found.value.(base := found.value.base.SoftDeleted(now)))
    {
      var found := BuscarAccionActiva(acciones, id);
      if found.Err? {
        return Err(found.failure);
      }
      var row := found.value.(base := found.value.base.SoftDeleted(now));
      SavePreservesInvariant(acciones, row);
      acciones := Save(acciones, row);
      r := Ok(());
    }

    /**
     * restaurar: the target may be any stored row; it must be deleted, and
     * no other live action of its application and section may hold its name.
     */
    method Restaurar(id: Id) returns (r: Result<AccionResponse>)
      requires Valid()
      modifies this
      ensures Valid()
      ensures var found := FindById(old(acciones), id);
              if found.None? then
                r == Fail(EntityNotFound, NotFoundMessage(id)) && acciones == old(acciones)
              else if !found.value.IsDeleted() then
                r == Fail(IllegalState, "La acción no está eliminada") && acciones == old(acciones)
              else
                var a := found.value;
                if a.data.aplicacion.None? || a.data.seccion.None? then false
                else if Repo.ExistsByNombreIgnoreCaseAndAplicacionIdAndSeccionIdAndIdNot(
                          old(acciones), a.data.nombre, a.data.aplicacion.value.Id(), a.data.seccion.value.Id(), id) then
                  r == Fail(IllegalArgument, DuplicateMessage(a.data.nombre)) && acciones == old(acciones)
                else
                  var row := a.(base := a.base.Restored());
                  acciones == Save(old(acciones), row) && r == Ok(Mapper.ToResponse(Some(row)).value)
    {
      var found := FindById(acciones, id);
      if found.None? {
        return Fail(EntityNotFound, NotFoundMessage(id));
      }
      var accion := found.value;
      if !accion.IsDeleted() {
        return Fail(IllegalState, "La acción no está eliminada");
      }
      var appId, secId := accion.data.aplicacion.value.Id(), accion.data.seccion.value.Id();
      if Repo.ExistsByNombreIgnoreCaseAndAplicacionIdAndSeccionIdAndIdNot(acciones, accion.data.nombre, appId, secId, id) {
        return Fail(IllegalArgument, DuplicateMessage(accion.data.nombre));
      }
      var row := accion.(base := accion.base.Restored());
      Repo.ExistsByNombreIdNotIff(acciones, accion.data.nombre, appId, secId, id);
      SavePreservesInvariant(acciones, row);
      acciones := Save(acciones, row);
      r := Ok(Mapper.ToResponse(Some(row)).value);
    }
  }

  // ---------------------------------------------------------------- lemmas

  /**
   * The update skips the probe when the key is unchanged; that is sound:
   * with unique keys, no other live row can hold it.
   */
  lemma UnchangedKeyNeverConflicts(t: seq<AccionRow>, id: Id, nombre: string, aplicacionId: Id, seccionId: Id)
    requires Invariant(t)
    requires Repo.FindByIdAndActive(t, id).Some?
    requires Repo.ScopeKey(Repo.FindByIdAndActive(t, id).value) == (Lower(nombre), Some(aplicacionId), Some(seccionId))
    ensures !Repo.ExistsByNombreIgnoreCaseAndAplicacionIdAndSeccionIdAndIdNot(t, nombre, aplicacionId, seccionId, id)
  {
    Repo.ExistsByNombreIdNotIff(t, nombre, aplicacionId, seccionId, id);
  }

  /**
   * After a successful crear the name is taken in that application and
   * section (so the same crear again is rejected), and nowhere else.
   */
  lemma CreatedNameTaken(t: seq<AccionRow>, request: AccionCreateRequest, app: AplicacionRow, sec: SeccionRow,
                         freshId: Id, now: Instant)
    requires DistinctIds(t) && request.nombre.Some?
    ensures var row := Inserted(freshId, now, Accion(request.nombre.value, request.descripcion, Some(app), Some(sec)));
            ExistePorNombre(Save(t, row), request.nombre.value, app.Id(), sec.Id())
  {
    var row := Inserted(freshId, now, Accion(request.nombre.value, request.descripcion, Some(app), Some(sec)));
    SaveContents(t, row);
    assert row in Save(t, row);
  }

  /** After eliminar, the action is no longer found by obtenerPorId. */
  lemma DeletedNotFound(t: seq<AccionRow>, id: Id, now: Instant)
    requires DistinctIds(t)
    requires Repo.FindByIdAndActive(t, id).Some?
    ensures var row := Repo.FindByIdAndActive(t, id).value;
            ObtenerPorId(Save(t, row.(base := row.base.SoftDeleted(now))), id).Err?
  {
    var row := Repo.FindByIdAndActive(t, id).value;
    SaveContents(t, row.(base := row.base.SoftDeleted(now)));
  }
}
