/**
 * TipoUsuarioService: the user types of each application. A user type's
 * name is unique, ignoring case, among the live user types of its
 * application. Only live user types are found; the application a request
 * names is looked up among all stored applications, deleted or not.
 */
module TipoUsuarioService {
  import opened Common
  import opened BaseEntity
  import opened Entities
  import opened Table
  import opened TipoUsuarioDto
  import Repo = TipoUsuarioRepository
  import Mapper = TipoUsuarioMapper

  /** Every stored user type belongs to an application. */
  ghost predicate Attached(t: seq<TipoUsuarioRow>) {
    forall x :: x in t ==> x.data.aplicacion.Some?
  }

  /** No two live user types of one application share a name, ignoring case. */
  ghost predicate NamesUnique(t: seq<TipoUsuarioRow>) {
    forall x, y :: (x in t && y in t && x.IsActive() && y.IsActive()
                    && Repo.ScopeKey(x) == Repo.ScopeKey(y)) ==> x.Id() == y.Id()
  }

  ghost predicate Invariant(t: seq<TipoUsuarioRow>) {
    DistinctIds(t) && Attached(t) && NamesUnique(t)
  }

  ghost predicate NameFreeFor(t: seq<TipoUsuarioRow>, row: TipoUsuarioRow) {
    row.IsActive() ==>
      forall x :: x in t && x.IsActive() && x.Id() != row.Id() ==> Repo.ScopeKey(x) != Repo.ScopeKey(row)
  }

  lemma SavePreservesInvariant(t: seq<TipoUsuarioRow>, row: TipoUsuarioRow)
    requires Invariant(t) && NameFreeFor(t, row) && row.data.aplicacion.Some?
    ensures Invariant(Save(t, row))
  {
    SaveContents(t, row);
  }

  function NotFoundMessage(id: Id): string {
    "Tipo de usuario no encontrado con ID: " + id
  }

  function AplicacionNotFoundMessage(id: Id): string {
    "Aplicación no encontrada con ID: " + id
  }

  const DuplicateMessage := "Ya existe un tipo de usuario con ese nombre en la aplicación"

  const TotalKey := "totalTiposUsuario"
  const PorAplicacionKey := "tiposUsuarioPorAplicacion"
  const PorEstadoKey := "tiposUsuarioPorEstado"

  // ---------------------------------------------------------- read-only calls

  /** The live row with that id, or EntityNotFound. */
  function BuscarActivo(t: seq<TipoUsuarioRow>, id: Id): (r: Result<TipoUsuarioRow>)
    ensures r.Ok? <==> exists x :: x in t && x.Id() == id && x.IsActive()
    ensures r.Ok? ==> r.value in t && r.value.Id() == id && r.value.IsActive()
    ensures r.Err? ==> r == Fail(EntityNotFound, NotFoundMessage(id))
  {
    match Repo.FindByIdAndDeletedAtIsNull(t, id)
    case Some(x) => Ok(x)
    case None => Fail(EntityNotFound, NotFoundMessage(id))
  }

  function ObtenerPorId(t: seq<TipoUsuarioRow>, id: Id): (r: Result<TipoUsuarioResponse>)
    ensures r.Ok? <==> exists x :: x in t && x.Id() == id && x.IsActive()
    ensures r.Ok? ==> exists x :: x in t && x.Id() == id && x.IsActive() && Some(r.value) == Mapper.ToResponse(Some(x))
    ensures r.Ok? ==> r.value.id == id
    ensures r.Err? ==> r == Fail(EntityNotFound, NotFoundMessage(id))
  {
    var x := BuscarActivo(t, id);
    if x.Err? then Err(x.failure) else Ok(Mapper.ToResponse(Some(x.value)).value)
  }

  /** The summary of a stored user type, which `toSummary` always produces. */
  function SummaryOf(x: TipoUsuarioRow): TipoUsuarioSummary {
    Mapper.ToSummary(Some(x)).value
  }

  /**
   * `r` is the page the service builds from the query result `rows`: the
   * summaries of the slice at the requested position, and the full count.
   */
  predicate PageOfSummaries(r: Page<TipoUsuarioSummary>, rows: seq<TipoUsuarioRow>, req: Pageable) {
    var slice := PageOf(rows, req).content;
    r.number == req.number && r.size == req.size && r.totalElements == |rows|
    && |r.content| == |slice|
    && forall i :: 0 <= i < |r.content| ==> Some(r.content[i]) == Mapper.ToSummary(Some(slice[i]))
  }

  /**
   * obtenerTodos: the requested page of the live user types that pass every
   * given filter, each shown as a summary.
   */
  function ObtenerTodos(t: seq<TipoUsuarioRow>, req: Pageable, nombre: Option<string>, aplicacionId: Option<Id>,
                        estado: Option<EstadoTipoUsuario>): (r: Page<TipoUsuarioSummary>)
    ensures PageOfSummaries(r, Repo.FindByFilters(t, nombre, aplicacionId, estado), req)
    ensures r.totalElements == |Repo.FindByFilters(t, nombre, aplicacionId, estado)|
    ensures r.number == req.number && |r.content| <= req.size
    ensures forall s :: s in r.content ==>
              exists x :: x in t && Repo.MatchesFilters(x, nombre, aplicacionId, estado)
                          && Some(s) == Mapper.ToSummary(Some(x))
  {
    var rows := Repo.FindByFilters(t, nombre, aplicacionId, estado);
    var p := Repo.FindByFiltersPage(t, nombre, aplicacionId, estado, req);
    PageWithin(rows, req);
    var q := MapPage(p, SummaryOf);
    forall s | s in q.content
      ensures exists x :: x in t && Repo.MatchesFilters(x, nombre, aplicacionId, estado)
                          && Some(s) == Mapper.ToSummary(Some(x))
    {
      var i :| 0 <= i < |q.content| && q.content[i] == s;
      var x := p.content[i];
      assert x in p.content && x in rows;
      assert Some(s) == Mapper.ToSummary(Some(x));
    }
    q
  }

  /**
   * obtenerEstadisticas: three counters of live user types. The
   * per-application and per-state counters are 0 when their filter is null.
   */
  method ObtenerEstadisticas(t: seq<TipoUsuarioRow>, aplicacionId: Option<Id>, estado: Option<EstadoTipoUsuario>)
    returns (estadisticas: map<string, nat>)
    ensures estadisticas.Keys == {TotalKey, PorAplicacionKey, PorEstadoKey}
    ensures estadisticas[TotalKey] == |Repo.FindByDeletedAtIsNull(t)|
    ensures estadisticas[PorAplicacionKey]
         == if aplicacionId.Some? then |Repo.FindByFilters(t, None, aplicacionId, None)| else 0
    ensures estadisticas[PorEstadoKey] == if estado.Some? then |Repo.FindByFilters(t, None, None, estado)| else 0
    ensures estadisticas[PorAplicacionKey] <= estadisticas[TotalKey]
    ensures estadisticas[PorEstadoKey] <= estadisticas[TotalKey]
  {
    estadisticas := map[];
    estadisticas := estadisticas[TotalKey := Repo.CountByDeletedAtIsNull(t)];
    if aplicacionId.Some? {
      Repo.CountsMatchLists(t, aplicacionId.value, TU_ACTIVO);
      CountMonotone(t, (x: TipoUsuarioRow) => x.IsActive(),
                    (x: TipoUsuarioRow) => x.IsActive() && Repo.InAplicacion(x, aplicacionId.value));
      estadisticas := estadisticas[PorAplicacionKey := Repo.CountByAplicacionIdAndDeletedAtIsNull(t, aplicacionId.value)];
    } else {
      estadisticas := estadisticas[PorAplicacionKey := 0];
    }
    if estado.Some? {
      Repo.CountsMatchLists(t, "", estado.value);
      CountMonotone(t, (x: TipoUsuarioRow) => x.IsActive(),
                    (x: TipoUsuarioRow) => x.IsActive() && x.data.estado == Some(estado.value));
      estadisticas := estadisticas[PorEstadoKey := Repo.CountByEstadoAndDeletedAtIsNull(t, estado.value)];
    } else {
      estadisticas := estadisticas[PorEstadoKey := 0];
    }
    Repo.CountsMatchLists(t, "", TU_ACTIVO);
  }

  // ------------------------------------------------------------- the writes

  class Service {
    var tipos: seq<TipoUsuarioRow>

    ghost predicate Valid()
      reads this
    {
      Invariant(tipos)
    }

    constructor (initial: seq<TipoUsuarioRow>)
      requires Invariant(initial)
      ensures Valid() && tipos == initial
    {
      tipos := initial;
    }

    /**
     * crear: the application must be stored and the name free among the
     * application's live user types; then a live ACTIVO user type of that
     * application is inserted.
     */
    method Crear(request: TipoUsuarioCreateRequest, aplicaciones: seq<AplicacionRow>, freshId: Id, now: Instant)
      returns (r: Result<TipoUsuarioResponse>)
      requires Valid() && FindById(tipos, freshId).None?
      requires request.nombre.Some? && request.aplicacionId.Some?
      modifies this
      ensures Valid()
      ensures var nombre, appId := request.nombre.value, request.aplicacionId.value;
              var app := FindById(aplicaciones, appId);
              if app.None? then
                r == Fail(EntityNotFound, AplicacionNotFoundMessage(appId)) && tipos == old(tipos)
              else if Repo.ExistsByNombreAndAplicacionIdAndDeletedAtIsNull(old(tipos), nombre, appId, None) then
                r == Fail(IllegalArgument, DuplicateMessage) && tipos == old(tipos)
              else
                var row := Inserted(freshId, now, TipoUsuario(nombre, request.descripcion, Some(TU_ACTIVO), app));
                tipos == Save(old(tipos), row) && r == Ok(Mapper.ToResponse(Some(row)).value)
    {
      var nombre, appId := request.nombre.value, request.aplicacionId.value;
      var app := FindById(aplicaciones, appId);
      if app.None? {
        return Fail(EntityNotFound, AplicacionNotFoundMessage(appId));
      }
      if Repo.ExistsByNombreAndAplicacionIdAndDeletedAtIsNull(tipos, nombre, appId, None) {
        return Fail(IllegalArgument, DuplicateMessage);
      }
      var row := Inserted(freshId, now, Mapper.ToEntity(Some(request), app).value);
      Repo.ExistsByNombreIff(tipos, nombre, appId, None);
      SavePreservesInvariant(tipos, row);
      tipos := Save(tipos, row);
      r := Ok(Mapper.ToResponse(Some(row)).value);
    }

    /**
     * actualizar: the target must be live and the application stored; the
     * name is always probed, excluding the target itself; the update stamps
     * `updatedAt` with `now`.
     */
    method Actualizar(id: Id, request: TipoUsuarioUpdateRequest, aplicaciones: seq<AplicacionRow>, now: Instant)
      returns (r: Result<TipoUsuarioResponse>)
      requires Valid()
      modifies this
      ensures Valid()
      ensures var found := Repo.FindByIdAndDeletedAtIsNull(old(tipos), id);
              var app := FindById(aplicaciones, request.aplicacionId);
              if found.None? then
                r == Fail(EntityNotFound, NotFoundMessage(id)) && tipos == old(tipos)
              else if app.None? then
                r == Fail(EntityNotFound, AplicacionNotFoundMessage(request.aplicacionId)) && tipos == old(tipos)
              else if Repo.ExistsByNombreAndAplicacionIdAndDeletedAtIsNull(old(tipos), request.nombre, request.aplicacionId, Some(id)) then
                r == Fail(IllegalArgument, DuplicateMessage) && tipos == old(tipos)
              else
                var row := Mapper.UpdateEntity(found.value, Some(request), app, now);
                tipos == Save(old(tipos), row) && r == Ok(Mapper.ToResponse(Some(row)).value)
    {
      var found := BuscarActivo(tipos, id);
      if found.Err? {
        return Err(found.failure);
      }
      var app := FindById(aplicaciones, request.aplicacionId);
      if app.None? {
        return Fail(EntityNotFound, AplicacionNotFoundMessage(request.aplicacionId));
      }
      if Repo.ExistsByNombreAndAplicacionIdAndDeletedAtIsNull(tipos, request.nombre, request.aplicacionId, Some(id)) {
        return Fail(IllegalArgument, DuplicateMessage);
      }
      var row := Mapper.UpdateEntity(found.value, Some(request), app, now);
      Repo.ExistsByNombreIff(tipos, request.nombre, request.aplicacionId, Some(id));
      SavePreservesInvariant(tipos, row);
      tipos := Save(tipos, row);
      r := Ok(Mapper.ToResponse(Some(row)).value);
    }

    /** eliminar: stamp the live target as deleted at `now`. */
    method Eliminar(id: Id, now: Instant) returns (r: Result<()>)
      requires Valid()
      modifies this
      ensures Valid()
      ensures var found := Repo.FindByIdAndDeletedAtIsNull(old(tipos), id);
              if found.None? then
                r == Fail(EntityNotFound, NotFoundMessage(id)) && tipos == old(tipos)
              else
                r == Ok(()) && tipos == Save(old(tipos), found.value.(base := found.value.base.SoftDeleted(now)))
    {
      var found := BuscarActivo(tipos, id);
      if found.Err? {
        return Err(found.failure);
      }
      var row := found.value.(base := found.value.base.SoftDeleted(now));
      SavePreservesInvariant(tipos, row);
      tipos := Save(tipos, row);
      r := Ok(());
    }

    /** cambiarEstado: set the state of the live target (null included). */
    method CambiarEstado(id: Id, nuevoEstado: Option<EstadoTipoUsuario>) returns (r: Result<TipoUsuarioResponse>)
      requires Valid()
      modifies this
      ensures Valid()
      ensures var found := Repo.FindByIdAndDeletedAtIsNull(old(tipos), id);
              if found.None? then
                r == Fail(EntityNotFound, NotFoundMessage(id)) && tipos == old(tipos)
              else
                var row := found.value.(data := found.value.data.(estado := nuevoEstado));
                tipos == Save(old(tipos), row) && r == Ok(Mapper.ToResponse(Some(row)).value)
    {
      var found := BuscarActivo(tipos, id);
      if found.Err? {
        return Err(found.failure);
      }
      var row := found.value.(data := found.value.data.(estado := nuevoEstado));
      SavePreservesInvariant(tipos, row);
      tipos := Save(tipos, row);
      r := Ok(Mapper.ToResponse(Some(row)).value);
    }
  }

  // ---------------------------------------------------------------- lemmas

  /**
   * Because the update's probe excludes the target, keeping a user type's
   * own name and application (in any letter case) never conflicts.
   */
  lemma KeepingOwnNameNeverConflicts(t: seq<TipoUsuarioRow>, id: Id, nombre: string, aplicacionId: Id)
    requires Invariant(t)
    requires Repo.FindByIdAndDeletedAtIsNull(t, id).Some?
    requires Repo.ScopeKey(Repo.FindByIdAndDeletedAtIsNull(t, id).value) == (Lower(nombre), Some(aplicacionId))
    ensures !Repo.ExistsByNombreAndAplicacionIdAndDeletedAtIsNull(t, nombre, aplicacionId, Some(id))
  {
    Repo.ExistsByNombreIff(t, nombre, aplicacionId, Some(id));
  }

  /** After a successful crear, the same crear is rejected: the name is taken in that application. */
  lemma CreatedNameTaken(t: seq<TipoUsuarioRow>, request: TipoUsuarioCreateRequest, app: AplicacionRow,
                         freshId: Id, now: Instant)
    requires DistinctIds(t) && request.nombre.Some?
    ensures var row := Inserted(freshId, now, TipoUsuario(request.nombre.value, request.descripcion, Some(TU_ACTIVO), Some(app)));
            Repo.ExistsByNombreAndAplicacionIdAndDeletedAtIsNull(Save(t, row), request.nombre.value, app.Id(), None)
  {
    var row := Inserted(freshId, now, TipoUsuario(request.nombre.value, request.descripcion, Some(TU_ACTIVO), Some(app)));
    SaveContents(t, row);
    assert row in Save(t, row);
    Repo.ExistsByNombreIff(Save(t, row), request.nombre.value, app.Id(), None);
  }

  /** After eliminar, the user type is no longer found and is left out of every listing. */
  lemma DeletedNotFound(t: seq<TipoUsuarioRow>, id: Id, now: Instant)
    requires DistinctIds(t)
    requires Repo.FindByIdAndDeletedAtIsNull(t, id).Some?
    ensures var row := Repo.FindByIdAndDeletedAtIsNull(t, id).value;
            var t1 := Save(t, row.(base := row.base.SoftDeleted(now)));
            ObtenerPorId(t1, id).Err?
            && forall x :: x in Repo.FindByDeletedAtIsNull(t1) ==> x.Id() != id
  {
    var row := Repo.FindByIdAndDeletedAtIsNull(t, id).value;
    SaveContents(t, row.(base := row.base.SoftDeleted(now)));
  }
}
