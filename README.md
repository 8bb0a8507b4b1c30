# CCA_API access-control catalogue, modelled in Dafny

This project models the domain-rule layer of the CCA_API backend, which keeps the
access-control catalogue of a set of applications: **Aplicaciones** (applications, each
with a unique identifying key and URL), **Secciones** (sections), **Acciones** (actions,
which belong to one application and one section) and **Tipos de usuario** (user types,
which belong to one application). It also models the small state machines of the
**Usuario**, **Sesion** and **AuditoriaAcceso** entities.

It covers these layers:

- **Entities and soft delete** (`base_entity.dfy`, `entities.dfy`). A row is its inherited
  columns (`Audit`: id, createdAt, updatedAt, deletedAt) plus the entity's own data.
  `softDelete`, `restore` and `isDeleted` work on the deletion mark.
- **Tables** (`table.dfy`). Each table is a sequence of rows in scan order. JPA's
  `save` is `Save` (merge or insert by key), `findById` is `FindById`, and the paged
  queries are slices with the unpaged total kept.
- **Repositories** (`*_repository.dfy`). Every declared query is a pure filter, count,
  exists probe or Optional finder over a table. `LOWER(..) = LOWER(..)` and
  `LIKE %q%` become an ASCII case fold plus equality or substring search.
- **Services** (`*_service.dfy`). The read operations are functions. The write operations
  are methods of a `Service` class that owns its table. Each method states its exact
  outcome: the error it raises, or the new table. It also keeps the service's uniqueness
  invariant (names per scope among live rows; keys and URLs across all applications).
  Exceptions are a `Result` whose error kinds are the Java classes thrown:
  EntityNotFound, IllegalArgument and IllegalState. The clock and fresh UUIDs are
  parameters.
- **Mappers and DTO records** (`*_mapper.dfy`, `*_dto.dfy`, `dto_support.dfy`). These
  cover field copying, state parsing with its fallbacks, the records' canonical-constructor
  normalisation, and the Bean Validation constraints as predicates.
- **Controllers** (`*_controller.dfy`, `http.dfy`, `api_response.dfy`).
  - A write endpoint is its try/catch applied to the service's outcome. `Http.Respond`
    turns each caught exception class into a bodiless 404 or a 400 carrying the
    exception's message. An uncaught exception escapes as `Unhandled`.
  - A read endpoint is the query its parameters select.
- **Entity state machines** (`usuario.dfy`, `sesion.dfy`, `auditoria_acceso.dfy`). These are
  classes whose methods update fields in place: the failed-login counter and lock, the
  session lifecycle with its expiry checks, and the audit record's own soft delete and
  factories.

Where the repository's documentation and its code differ, the model follows the code:

- `findById`, inherited from Spring Data, sees deleted rows. The restore paths need this:
  they look a deleted row up and then check that it is deleted. Application lookups by
  id therefore also return deleted applications. Application `eliminar` re-stamps a row
  that is already deleted. This rests on an assumption about Hibernate: the
  `@Where(clause = "deleted_at IS NULL")` on the mapped superclass `BaseEntity`
  (`BaseEntity.java:29`) is taken not to filter the subclasses' queries (see "Left out").
- The two-argument `ApiResponse` constructor always sets `success` to true. So the 400
  bodies the controllers build from an exception message are flagged as successes.
- The controllers return 200 with an envelope (not 204) for section and application
  deletion. Only action deletion is a bodiless 204.
- `verificarNombre` with a blank name makes the `DisponibilidadNombre` constructor throw,
  and nothing in the controller catches it.
- `obtenerTodas` for applications lists the applications in state ACTIVO, whether they
  are deleted or not. The text search by name ignores both the state and the deletion
  mark.

## Model

| member | source | states |
|---|---|---|
| BaseEntity.Audit.SoftDeleted | src/main/java/com/server/api/domain/entity/BaseEntity.java:52-54 | the deletion instant is set to the clock, so the row is deleted; id, createdAt and updatedAt are unchanged |
| BaseEntity.Audit.Restored | src/main/java/com/server/api/domain/entity/BaseEntity.java:67-69 | the deletion instant is cleared, so the row is not deleted; the other columns are unchanged |
| BaseEntity.RestoreUndoesSoftDelete | src/main/java/com/server/api/domain/entity/BaseEntity.java:52-69 | restoring a row that was soft-deleted while live gives the original row back |
| Entities.EstadoAplicacionValueOf | src/main/java/com/server/api/domain/mapper/AplicacionMapper.java:74 | `valueOf` succeeds exactly on the names "ACTIVO" and "INACTIVO", and returns the constant of that name |
| Entities.EstadoTipoUsuarioValueOf | src/main/java/com/server/api/domain/mapper/TipoUsuarioMapper.java:60 | `valueOf` succeeds exactly on the two constant names, and returns the constant of that name |
| Entities.EstadoNamesRoundTrip | src/main/java/com/server/api/domain/mapper/TipoUsuarioMapper.java:60 | `valueOf(name())` gives back the constant, for both state enums |
| Common.Trim | src/main/java/com/server/api/domain/dto/accion/AccionCreateRequest.java:50 | the result is a contiguous part of the input, and has no character at or below U+0020 at either end |
| Common.TrimIdempotent | src/main/java/com/server/api/domain/dto/seccion/SeccionUpdateRequest.java:31-33 | trimming a trimmed string changes nothing |
| Common.BlankIffAllTrimmable | src/main/java/com/server/api/domain/dto/seccion/DisponibilidadNombre.java:29 | `trim().isEmpty()` holds exactly when every character is at or below U+0020 |
| Common.Lower | src/main/java/com/server/api/domain/repository/AccionRepository.java:46-48 | `LOWER` keeps the length, maps each upper-case ASCII letter to its lower-case partner (code plus 32) and keeps every other character |
| Common.Upper | src/main/java/com/server/api/domain/dto/aplicacion/EstadoAplicacionDto.java:63 | `toUpperCase` keeps the length, maps each lower-case ASCII letter to its upper-case partner (code minus 32) and keeps every other character |
| Common.ContainsIgnoreCaseTrivial | src/main/java/com/server/api/domain/repository/AccionRepository.java:46-48 | `LIKE %q%` matches when q is empty or equals the value ignoring case |
| DtoSupport.TrimPresent | src/main/java/com/server/api/domain/dto/accion/AccionCreateRequest.java:49-51 | null stays null; any other value is trimmed |
| DtoSupport.TrimToNull | src/main/java/com/server/api/domain/dto/accion/AccionCreateRequest.java:52-58 | the result is null exactly when the input is null or blank; otherwise it is the non-empty trimmed value |
| DtoSupport.CleanUpIdempotent | src/main/java/com/server/api/domain/dto/accion/AccionCreateRequest.java:47-59 | applying either clean-up to its own result changes nothing |
| DtoSupport.Truncate | src/main/java/com/server/api/domain/dto/accion/AccionSummary.java:50-52 | null stays null; the result is at most 100 characters; a description of at most 100 is kept; a longer one becomes its first 97 characters plus "..." |
| DtoSupport.TruncateIdempotent | src/main/java/com/server/api/domain/dto/accion/AccionSummary.java:50-52 | truncating a truncated description changes nothing |
| Table.Filter | src/main/java/com/server/api/domain/repository/AccionRepository.java:28-29 | a list query returns exactly the table's rows that satisfy its condition, and no more rows than the table |
| Table.Count | src/main/java/com/server/api/domain/repository/AccionRepository.java:128-129 | a count query is at most the table's size |
| Table.FindFirst | src/main/java/com/server/api/domain/repository/AplicacionRepository.java:32 | an Optional finder returns a matching row of the table; it is empty exactly when no row matches |
| Table.Map | src/main/java/com/server/api/domain/mapper/AccionMapper.java:110-117 | a mapped list has the same length, and each element is the conversion of the element at the same position |
| Table.CountIsFilterLength | src/main/java/com/server/api/domain/repository/AccionRepository.java:128-141 | a count query equals the length of the list query with the same condition |
| Table.ExistsIff | src/main/java/com/server/api/domain/repository/AccionRepository.java:103-109 | `COUNT(..) > 0` holds exactly when some row satisfies the condition |
| Table.FindFirstIffExists | src/main/java/com/server/api/domain/repository/AplicacionRepository.java:32-41 | an Optional finder is present exactly when the exists query with the same condition holds |
| Table.FilterFilter | src/main/java/com/server/api/domain/repository/AccionRepository.java:92-97 | filtering twice is filtering by the conjunction |
| Table.FilterSameCondition | src/main/java/com/server/api/domain/repository/TipoUsuarioRepository.java:60-67 | conditions that agree on every row of the table select the same rows |
| Table.FilterAppend | src/main/java/com/server/api/domain/repository/AccionRepository.java:28-29 | filtering a concatenation is concatenating the filtered parts |
| Table.CountMonotone | src/main/java/com/server/api/domain/repository/AccionRepository.java:128-141 | counting under a stronger condition never gives more |
| Table.FindById | src/main/java/com/server/api/application/service/AccionService.java:227-228 | `findById` returns the row with that key, deleted or not; it is empty exactly when no row has the key |
| Table.FindActiveById | src/main/java/com/server/api/domain/repository/AccionRepository.java:40-41 | `findByIdAndActive` returns the live row with that key; it is empty exactly when every row with that key is deleted |
| Table.ActiveFinderIsFindById | src/main/java/com/server/api/domain/repository/AccionRepository.java:40-41 | with distinct keys, the live finder is `findById` restricted to live rows |
| Table.Inserted | src/main/java/com/server/api/application/service/AccionService.java:68-72 | a newly saved entity has the fresh key, is live, and has createdAt = updatedAt = the clock |
| Table.Save | src/main/java/com/server/api/application/service/AccionService.java:72 | after `save`, the key finds the saved row; every other key finds what it found before; the table grows only on insert |
| Table.SaveContents | src/main/java/com/server/api/application/service/AccionService.java:72 | with distinct keys, `save` keeps the keys distinct, and the table holds the saved row plus the old rows with other keys |
| Table.PageOf | src/main/java/com/server/api/application/service/AccionService.java:99-104 | a page holds at most `size` rows, starting at row number·size of the result, and keeps the unpaged total |
| Table.PageWithin | src/main/java/com/server/api/application/service/AccionService.java:99-104 | every row of a page belongs to the result it was cut from |
| Table.MapPage | src/main/java/com/server/api/presentation/controller/AplicacionController.java:149 | `Page.map` keeps the position, size and total, and converts each row in place |
| Table.PagesCoverResult | src/main/java/com/server/api/application/service/AccionService.java:99-104 | reading the pages in turn gives back the whole result once, in order |
| Table.TotalPagesBounds | src/main/java/com/server/api/application/service/AccionService.java:99-104 | the page count times the size covers the result; a page number is below the page count exactly when it starts inside the result |
| AccionRepository.ExistsByNombreIff | src/main/java/com/server/api/domain/repository/AccionRepository.java:103-109 | the uniqueness probe holds exactly when a live action in that application and section has the name, ignoring case |
| AccionRepository.ExistsByNombreIdNotIff | src/main/java/com/server/api/domain/repository/AccionRepository.java:115-123 | the update probe holds exactly when a live action other than the excluded id, in that scope, has the name, ignoring case |
| AccionRepository.IdNotNarrowsExists | src/main/java/com/server/api/domain/repository/AccionRepository.java:103-123 | the IdNot probe implies the plain probe, and the two differ only by the excluded row |
| AccionRepository.CountsMatchLists | src/main/java/com/server/api/domain/repository/AccionRepository.java:128-141 | each of the three counts equals the length of its list query |
| AccionRepository.ScopedCountsBounded | src/main/java/com/server/api/domain/repository/AccionRepository.java:128-141 | the per-application and per-section counts never exceed the live count |
| AccionRepository.ByAplicacionAndSeccionIsIntersection | src/main/java/com/server/api/domain/repository/AccionRepository.java:68-97 | listing by application and section is listing by application, then by section, and returns only live rows of both |
| AccionRepository.NombreSearchWithinTexto | src/main/java/com/server/api/domain/repository/AccionRepository.java:46-63 | a name match is a text match, and the empty name search lists every live action |
| SeccionRepository.ExistsByNombreIff | src/main/java/com/server/api/domain/repository/SeccionRepository.java:76-78 | the probe holds exactly when some live section has the name, ignoring case |
| SeccionRepository.ExistsByNombreIdNotIff | src/main/java/com/server/api/domain/repository/SeccionRepository.java:68-70 | the IdNot probe holds exactly when a live section other than the excluded id has the name |
| SeccionRepository.IdNotNarrowsExists | src/main/java/com/server/api/domain/repository/SeccionRepository.java:68-78 | the IdNot probe implies the plain probe; when only the excluded row has the name, the IdNot probe is false |
| SeccionRepository.CountMatchesList | src/main/java/com/server/api/domain/repository/SeccionRepository.java:27-84 | `countActive` equals the length of `findAllActive` |
| SeccionRepository.NombreSearchWithinTexto | src/main/java/com/server/api/domain/repository/SeccionRepository.java:45-62 | a name match is a text match, and the empty name search lists every live section |
| AplicacionRepository.ExistsIffSomeRow | src/main/java/com/server/api/domain/repository/AplicacionRepository.java:41-93 | the key and URL probes hold exactly when some application, deleted or not, has that value |
| AplicacionRepository.FindersAgreeWithProbes | src/main/java/com/server/api/domain/repository/AplicacionRepository.java:32-93 | each Optional finder is present exactly when its exists probe holds |
| AplicacionRepository.CountMatchesEstadoList | src/main/java/com/server/api/domain/repository/AplicacionRepository.java:58-77 | `countAplicacionesActivas` equals the length of `findByEstado(ACTIVO)` |
| TipoUsuarioRepository.ExistsByNombreIff | src/main/java/com/server/api/domain/repository/TipoUsuarioRepository.java:72-77 | the probe holds exactly when a live user type of that application, other than the excluded id, has the name ignoring case; a null excludeId excludes nothing |
| TipoUsuarioRepository.NoFiltersIsAllLive | src/main/java/com/server/api/domain/repository/TipoUsuarioRepository.java:32-67 | `findByFilters` with every filter null is `findByDeletedAtIsNull` |
| TipoUsuarioRepository.FiltersAreConjunctive | src/main/java/com/server/api/domain/repository/TipoUsuarioRepository.java:60-67 | a row is returned exactly when it is live and satisfies every filter that is given |
| TipoUsuarioRepository.CountsMatchLists | src/main/java/com/server/api/domain/repository/TipoUsuarioRepository.java:82-95 | each count equals the length of the matching filtered list |
| AccionDto.NewAccionCreateRequest | src/main/java/com/server/api/domain/dto/accion/AccionCreateRequest.java:47-59 | the name is trimmed; the description is trimmed and becomes null when blank; the ids are kept |
| AccionDto.CreateRequestNormalized | src/main/java/com/server/api/domain/dto/accion/AccionCreateRequest.java:47-59 | constructing a request from a constructed request's components gives it back |
| AccionDto.NewAccionResponse | src/main/java/com/server/api/domain/dto/accion/AccionResponse.java:54-73 | a null `activo` becomes true; `estaActiva` holds exactly when activo holds and there is no deletion instant |
| AccionDto.NewAccionSummary | src/main/java/com/server/api/domain/dto/accion/AccionSummary.java:43-53 | a null `activo` becomes true; the description is truncated to at most 100 characters |
| AccionDto.SummaryNormalized | src/main/java/com/server/api/domain/dto/accion/AccionSummary.java:43-53 | re-constructing a summary from its own components changes nothing |
| SeccionDto.NewSeccionUpdateRequest | src/main/java/com/server/api/domain/dto/seccion/SeccionUpdateRequest.java:29-41 | the name is trimmed; the description is trimmed and becomes null when blank |
| SeccionDto.UpdateRequestNormalized | src/main/java/com/server/api/domain/dto/seccion/SeccionUpdateRequest.java:29-41 | constructing a request from a constructed request's components gives it back |
| SeccionDto.NewSeccionResponse | src/main/java/com/server/api/domain/dto/seccion/SeccionResponse.java:46-65 | a null `activo` becomes true; `estaActiva` holds exactly when activo holds and there is no deletion instant |
| SeccionDto.NewSeccionSummary | src/main/java/com/server/api/domain/dto/seccion/SeccionSummary.java:33-42 | a null `activo` becomes true; the description is truncated to at most 100 characters |
| SeccionDto.NewDisponibilidadNombre | src/main/java/com/server/api/domain/dto/seccion/DisponibilidadNombre.java:28-37 | construction succeeds exactly when the name is present and not blank and `disponible` differs from `existe`; a null or blank name is IllegalArgument "El nombre no puede ser nulo o vacío", equal flags are IllegalArgument "Inconsistencia en disponibilidad: si existe debe no estar disponible" |
| SeccionDto.NewEstadisticasSecciones | src/main/java/com/server/api/domain/dto/seccion/EstadisticasSecciones.java:20-24 | construction succeeds exactly when the total is not negative; otherwise it is IllegalArgument "El total de secciones no puede ser negativo" |
| AplicacionDto.NewAplicacionCreateRequest | src/main/java/com/server/api/domain/dto/aplicacion/AplicacionCreateRequest.java:39-43 | a null or blank state becomes "ACTIVO"; any other state and every other component is kept |
| AplicacionDto.ValidKeyShape | src/main/java/com/server/api/domain/dto/aplicacion/AplicacionCreateRequest.java:22-29 | a valid request has a 5 to 100 character key of A-Z, 0-9 and '_', and a URL starting with http:// or https:// |
| AplicacionDto.FromString | src/main/java/com/server/api/domain/dto/aplicacion/EstadoAplicacionDto.java:57-68 | a null or blank text is IllegalArgument "El estado no puede ser nulo o vacío"; otherwise parsing succeeds exactly when the upper-cased text is a constant's code, returning that constant, and fails with the message naming the text and the valid states |
| AplicacionDto.FromStringRoundTrip | src/main/java/com/server/api/domain/dto/aplicacion/EstadoAplicacionDto.java:37-68 | every constant parses back from its code, in upper or lower case |
| AplicacionDto.UpperLowerOfCode | src/main/java/com/server/api/domain/dto/aplicacion/EstadoAplicacionDto.java:63 | upper-casing the lower-cased form of an upper-case code gives the code back |
| AccionMapper.ToEntity | src/main/java/com/server/api/domain/mapper/AccionMapper.java:29-40 | null maps to null; otherwise the name and description are copied and the application and section are left unset |
| AccionMapper.UpdateEntity | src/main/java/com/server/api/domain/mapper/AccionMapper.java:46-54 | a null request changes nothing; otherwise only the name and description are overwritten |
| AccionMapper.ToAplicacionBasicInfo | src/main/java/com/server/api/domain/mapper/AccionMapper.java:122-132 | null maps to null; otherwise the id, name and key are copied |
| AccionMapper.ToSeccionBasicInfo | src/main/java/com/server/api/domain/mapper/AccionMapper.java:137-146 | null maps to null; otherwise the id and name are copied |
| AccionMapper.ToResponse | src/main/java/com/server/api/domain/mapper/AccionMapper.java:59-75 | null maps to null; otherwise id, name and description are copied, the application and section are their basic infos, createdAt, updatedAt and deletedAt are copied and `activo` is "not deleted" |
| AccionMapper.ToSummary | src/main/java/com/server/api/domain/mapper/AccionMapper.java:80-93 | null maps to null; the application and section names are the referenced rows' names, or null when the references are null; `activo` is "not deleted" |
| AccionMapper.ToResponseList | src/main/java/com/server/api/domain/mapper/AccionMapper.java:98-105 | null maps to null; otherwise the list keeps its length and order |
| AccionMapper.ToSummaryList | src/main/java/com/server/api/domain/mapper/AccionMapper.java:110-117 | null maps to null; otherwise the list keeps its length and order |
| AccionMapper.SummaryAgreesWithResponse | src/main/java/com/server/api/domain/mapper/AccionMapper.java:59-93 | a row's summary shows the same id, name, activity and reference names as its response |
| SeccionMapper.ToEntity | src/main/java/com/server/api/domain/mapper/SeccionMapper.java:24-35 | null maps to null; otherwise only the name and description are copied |
| SeccionMapper.UpdateEntity | src/main/java/com/server/api/domain/mapper/SeccionMapper.java:40-48 | a null request changes nothing; otherwise the name and description are overwritten |
| SeccionMapper.ToResponse | src/main/java/com/server/api/domain/mapper/SeccionMapper.java:53-67 | null maps to null; otherwise the fields and timestamps are copied, `activo` is "not deleted" and estaActiva holds exactly for a live row |
| SeccionMapper.ToSummary | src/main/java/com/server/api/domain/mapper/SeccionMapper.java:72-83 | null maps to null; otherwise `activo` is "not deleted" and the description is truncated |
| SeccionMapper.ToResponseList | src/main/java/com/server/api/domain/mapper/SeccionMapper.java:88-96 | null maps to null; otherwise the list keeps its length and order |
| SeccionMapper.ToSummaryList | src/main/java/com/server/api/domain/mapper/SeccionMapper.java:101-109 | null maps to null; otherwise the list keeps its length and order |
| SeccionMapper.CreatedRowReadsBack | src/main/java/com/server/api/domain/mapper/SeccionMapper.java:24-67 | a newly saved section reads back with the request's name and description and as active |
| AplicacionMapper.ToEntityEstado | src/main/java/com/server/api/domain/mapper/AplicacionMapper.java:27-36 | null is ACTIVO; otherwise the constant of the same name |
| AplicacionMapper.ToDtoEstado | src/main/java/com/server/api/domain/mapper/AplicacionMapper.java:44-53 | null is ACTIVO; otherwise the constant of the same name |
| AplicacionMapper.EstadoConversionsRoundTrip | src/main/java/com/server/api/domain/mapper/AplicacionMapper.java:27-53 | the two state conversions are inverse to each other |
| AplicacionMapper.ParseEstado | src/main/java/com/server/api/domain/mapper/AplicacionMapper.java:74 | `valueOf` succeeds exactly on a constant's exact name; otherwise it is IllegalArgument |
| AplicacionMapper.ToEntity | src/main/java/com/server/api/domain/mapper/AplicacionMapper.java:61-80 | null maps to null; the state must name a constant exactly (IllegalArgument otherwise) and an absent state is ACTIVO; the text fields are copied |
| AplicacionMapper.ValidRequestConverts | src/main/java/com/server/api/domain/mapper/AplicacionMapper.java:61-80 | a request that passes validation always converts |
| AplicacionMapper.EstadoName | src/main/java/com/server/api/domain/mapper/AplicacionMapper.java:88-103 | the state shown is "ACTIVO" or "INACTIVO", and names the entity's own state when it is set |
| AplicacionMapper.ToResponse | src/main/java/com/server/api/domain/mapper/AplicacionMapper.java:88-103 | null maps to null; otherwise the fields and timestamps are copied and the state is shown by name |
| AplicacionMapper.ToSummary | src/main/java/com/server/api/domain/mapper/AplicacionMapper.java:111-123 | null maps to null; otherwise id, name, URL, key and state name are copied |
| AplicacionMapper.UpdateEntityFromRequest | src/main/java/com/server/api/domain/mapper/AplicacionMapper.java:131-144 | null changes nothing; the four text columns are overwritten; a present state must name a constant exactly (IllegalArgument otherwise); an absent one keeps the state |
| AplicacionMapper.CreatedStateShown | src/main/java/com/server/api/domain/mapper/AplicacionMapper.java:61-103 | converting a valid request and showing it gives back the request's own state text |
| TipoUsuarioMapper.ToEntity | src/main/java/com/server/api/domain/mapper/TipoUsuarioMapper.java:27-41 | null maps to null; otherwise name and description are copied, the state is ACTIVO and the application is attached |
| TipoUsuarioMapper.ParseEstadoOrKeep | src/main/java/com/server/api/domain/mapper/TipoUsuarioMapper.java:58-63 | a state text that names a constant once upper-cased sets that constant; any other text keeps the current state |
| TipoUsuarioMapper.UpdateEntity | src/main/java/com/server/api/domain/mapper/TipoUsuarioMapper.java:46-67 | null changes nothing; the key, createdAt and deletion mark are kept; name and description are overwritten, the state is parsed with fallback, and updatedAt is the clock |
| TipoUsuarioMapper.UpdateAcceptsAnyCase | src/main/java/com/server/api/domain/mapper/TipoUsuarioMapper.java:58-63 | a state written in lower case is taken by the update |
| TipoUsuarioMapper.EstadoName | src/main/java/com/server/api/domain/mapper/TipoUsuarioMapper.java:72-87 | a null state shows as null; a set one shows as the name `valueOf` reads back |
| TipoUsuarioMapper.ToResponse | src/main/java/com/server/api/domain/mapper/TipoUsuarioMapper.java:72-87 | null maps to null; otherwise the fields are copied, the state is its name, and the application id and name are the referenced application's (null without one) |
| TipoUsuarioMapper.ToSummary | src/main/java/com/server/api/domain/mapper/TipoUsuarioMapper.java:92-104 | null maps to null; otherwise id, name, description and state are copied and the application name is the referenced application's (null without one) |
| TipoUsuarioMapper.ToResponseList | src/main/java/com/server/api/domain/mapper/TipoUsuarioMapper.java:109-117 | null maps to null; otherwise the list keeps its length and order |
| TipoUsuarioMapper.ToSummaryList | src/main/java/com/server/api/domain/mapper/TipoUsuarioMapper.java:122-130 | null maps to null; otherwise the list keeps its length and order |
| TipoUsuarioMapper.SummaryAgreesWithResponse | src/main/java/com/server/api/domain/mapper/TipoUsuarioMapper.java:72-104 | a row's summary shows the same id, name, description, application name and state as its response |
| AccionService.SavePreservesInvariant | src/main/java/com/server/api/application/service/AccionService.java:293-309 | saving a row whose name is free in its scope keeps the keys distinct and the live names unique per (application, section) |
| AccionService.BuscarAccionActiva | src/main/java/com/server/api/application/service/AccionService.java:285-288 | the live action with that id, or EntityNotFound with its message |
| AccionService.ObtenerPorId | src/main/java/com/server/api/application/service/AccionService.java:81-84 | succeeds exactly when a live action has that id, and the response is `toResponse` of that live action (so shown active); otherwise EntityNotFound |
| AccionService.Summaries | src/main/java/com/server/api/application/service/AccionService.java:90-93 | the summaries of the given live rows, one per row, in order |
| AccionService.SummaryPage | src/main/java/com/server/api/application/service/AccionService.java:99-104 | the page keeps number and size, its total is the unpaged count, and its content is the summaries of `PageOf`'s slice of the rows, in order |
| AccionService.ObtenerTodas | src/main/java/com/server/api/application/service/AccionService.java:90-93 | the summaries of `findAllActive`, one per live action, in table order |
| AccionService.ObtenerTodasPage | src/main/java/com/server/api/application/service/AccionService.java:99-104 | the summaries of the requested slice of `findAllActive`, with the live count as total |
| AccionService.BuscarPorNombre | src/main/java/com/server/api/application/service/AccionService.java:110-113 | the summaries of the live actions whose name contains the query ignoring case, in order; every such action appears |
| AccionService.BuscarPorNombrePage | src/main/java/com/server/api/application/service/AccionService.java:119-124 | the summaries of the requested slice of those, whose total counts every match |
| AccionService.BuscarPorTexto | src/main/java/com/server/api/application/service/AccionService.java:130-133 | the summaries of the live actions whose name or description contains the text, in order |
| AccionService.BuscarPorAplicacion | src/main/java/com/server/api/application/service/AccionService.java:139-142 | the summaries of the live actions of that application, in order |
| AccionService.BuscarPorAplicacionPage | src/main/java/com/server/api/application/service/AccionService.java:148-153 | the summaries of the requested slice of those, whose total counts all of them |
| AccionService.BuscarPorSeccion | src/main/java/com/server/api/application/service/AccionService.java:159-162 | the summaries of the live actions of that section, in order |
| AccionService.BuscarPorSeccionPage | src/main/java/com/server/api/application/service/AccionService.java:168-173 | the summaries of the requested slice of those, whose total counts all of them |
| AccionService.BuscarPorAplicacionYSeccion | src/main/java/com/server/api/application/service/AccionService.java:179-182 | the summaries of the live actions of both that application and that section, in order |
| AccionService.ContarAcciones | src/main/java/com/server/api/application/service/AccionService.java:252-254 | the number of live actions |
| AccionService.ContarPorAplicacion | src/main/java/com/server/api/application/service/AccionService.java:260-262 | the number of live actions of the application, at most the live count |
| AccionService.ContarPorSeccion | src/main/java/com/server/api/application/service/AccionService.java:268-270 | the number of live actions of the section, at most the live count |
| AccionService.ExistePorNombre | src/main/java/com/server/api/application/service/AccionService.java:276-278 | holds exactly when a live action in that scope has the name, ignoring case |
| AccionService.Service.constructor | src/main/java/com/server/api/application/service/AccionService.java:41-50 | the service starts on a table that satisfies its invariant |
| AccionService.Service.Crear | src/main/java/com/server/api/application/service/AccionService.java:56-75 | unknown application: EntityNotFound; missing or deleted section: EntityNotFound; name taken in scope: IllegalArgument; otherwise exactly one live action with the request's data is added; on any error the table is unchanged; the invariant is kept |
| AccionService.Service.Actualizar | src/main/java/com/server/api/application/service/AccionService.java:187-212 | the target must be live (EntityNotFound); the application and section are resolved; uniqueness is probed, excluding the target, only when the scope key changes; the saved row keeps id and deletion state |
| AccionService.Service.Eliminar | src/main/java/com/server/api/application/service/AccionService.java:217-221 | a live target gets the clock as deletion instant; a missing or deleted one is EntityNotFound and nothing changes |
| AccionService.Service.Restaurar | src/main/java/com/server/api/application/service/AccionService.java:226-246 | unknown id: EntityNotFound; not deleted: IllegalState; name taken by a live action in its scope: IllegalArgument and it stays deleted; otherwise the deletion instant is cleared |
| AccionService.UnchangedKeyNeverConflicts | src/main/java/com/server/api/application/service/AccionService.java:199-203 | updating with an unchanged scope key never meets a clash, since the invariant leaves no other live row with that key |
| AccionService.CreatedNameTaken | src/main/java/com/server/api/application/service/AccionService.java:66-72 | after a successful crear, the same name in the same scope is taken |
| AccionService.DeletedNotFound | src/main/java/com/server/api/application/service/AccionService.java:217-221 | after eliminar, obtenerPorId fails for that id |
| SeccionService.SavePreservesInvariant | src/main/java/com/server/api/application/service/SeccionService.java:184-197 | saving a row whose name is free keeps keys distinct and live names unique ignoring case |
| SeccionService.BuscarSeccionActiva | src/main/java/com/server/api/application/service/SeccionService.java:176-179 | the live section with that id, or EntityNotFound with its message |
| SeccionService.Summaries | src/main/java/com/server/api/application/service/SeccionService.java:64-67 | the summaries of the given live rows, one per row, in order |
| SeccionService.SummaryPage | src/main/java/com/server/api/application/service/SeccionService.java:73-78 | the page keeps number and size, its total is the unpaged count, and its content is the summaries of `PageOf`'s slice of the rows, in order |
| SeccionService.ObtenerPorId | src/main/java/com/server/api/application/service/SeccionService.java:55-58 | succeeds exactly when a live section has that id, and the response is `toResponse` of that live section; otherwise EntityNotFound |
| SeccionService.ObtenerTodas | src/main/java/com/server/api/application/service/SeccionService.java:64-67 | the summaries of `findAllActive`, one per live section, in table order |
| SeccionService.ObtenerTodasPage | src/main/java/com/server/api/application/service/SeccionService.java:73-78 | the summaries of the requested slice of `findAllActive`, with the live count as total |
| SeccionService.BuscarPorNombre | src/main/java/com/server/api/application/service/SeccionService.java:84-87 | the summaries of the live sections whose name contains the query ignoring case, in order; every such section appears |
| SeccionService.BuscarPorNombrePage | src/main/java/com/server/api/application/service/SeccionService.java:93-98 | the summaries of the requested slice of those, whose total counts every match |
| SeccionService.BuscarPorTexto | src/main/java/com/server/api/application/service/SeccionService.java:104-107 | the summaries of the live sections whose name or description contains the text, in order |
| SeccionService.ContarSecciones | src/main/java/com/server/api/application/service/SeccionService.java:159-161 | the number of live sections |
| SeccionService.ExistePorNombre | src/main/java/com/server/api/application/service/SeccionService.java:167-169 | holds exactly when a live section has the name ignoring case, the same condition crear rejects on |
| SeccionService.Service.constructor | src/main/java/com/server/api/application/service/SeccionService.java:34-37 | the service starts on a table that satisfies its invariant |
| SeccionService.Service.Crear | src/main/java/com/server/api/application/service/SeccionService.java:42-49 | fails with IllegalArgument and changes nothing exactly when the name exists; otherwise one live section with the request's name and description is added |
| SeccionService.Service.Actualizar | src/main/java/com/server/api/application/service/SeccionService.java:112-124 | the target must be live (EntityNotFound); uniqueness excluding the target is probed only when the name changes ignoring case; name and description are overwritten |
| SeccionService.Service.Eliminar | src/main/java/com/server/api/application/service/SeccionService.java:129-133 | a live target gets the clock as deletion instant and nothing else in the table changes; otherwise EntityNotFound |
| SeccionService.Service.Restaurar | src/main/java/com/server/api/application/service/SeccionService.java:138-153 | unknown id: EntityNotFound; not deleted: IllegalState; name owned by another live section: IllegalArgument; otherwise the deletion instant is cleared |
| SeccionService.CaseOnlyRenameNeverConflicts | src/main/java/com/server/api/application/service/SeccionService.java:116-118 | renaming a section to a name equal to its own ignoring case never clashes |
| SeccionService.CreatedNameExists | src/main/java/com/server/api/application/service/SeccionService.java:42-49 | after a successful crear the name exists, so the same crear is rejected |
| SeccionService.DeletedNotFound | src/main/java/com/server/api/application/service/SeccionService.java:129-133 | after eliminar, obtenerPorId fails with EntityNotFound |
| AplicacionService.SavePreservesInvariant | src/main/java/com/server/api/application/service/AplicacionService.java:196-233 | saving a row whose key and URL are free keeps keys, URLs and ids distinct |
| AplicacionService.ObtenerPorId | src/main/java/com/server/api/application/service/AplicacionService.java:59-62 | succeeds exactly when some application, deleted or not, has that id; otherwise IllegalArgument |
| AplicacionService.ObtenerPorLlaveIdentificadora | src/main/java/com/server/api/application/service/AplicacionService.java:72-75 | succeeds exactly when some application has that key; otherwise IllegalArgument |
| AplicacionService.ObtenerTodas | src/main/java/com/server/api/application/service/AplicacionService.java:83-85 | exactly the applications whose state is ACTIVO |
| AplicacionService.ObtenerTodasPage | src/main/java/com/server/api/application/service/AplicacionService.java:95-97 | the requested slice of the ACTIVO applications, whose total counts all of them |
| AplicacionService.BuscarPorNombre | src/main/java/com/server/api/application/service/AplicacionService.java:107-112 | null or blank input is obtenerTodas; otherwise exactly the applications whose name contains the trimmed input ignoring case, with no state filter |
| AplicacionService.ContarAplicacionesActivas | src/main/java/com/server/api/application/service/AplicacionService.java:164-166 | the length of obtenerTodas |
| AplicacionService.ExistePorLlaveIdentificadora | src/main/java/com/server/api/application/service/AplicacionService.java:175-177 | holds exactly when some application, deleted or not, has the key |
| AplicacionService.ExistePorUrl | src/main/java/com/server/api/application/service/AplicacionService.java:202-209 | holds exactly when some application, deleted or not, has the URL |
| AplicacionService.Service.constructor | src/main/java/com/server/api/application/service/AplicacionService.java:30-33 | the service starts on a table that satisfies its invariant |
| AplicacionService.Service.Crear | src/main/java/com/server/api/application/service/AplicacionService.java:43-48 | null request: IllegalArgument; key taken (checked first): IllegalArgument; URL taken: IllegalArgument; bad state text: IllegalArgument; otherwise one new application is added; on error nothing changes |
| AplicacionService.Service.Actualizar | src/main/java/com/server/api/application/service/AplicacionService.java:123-129 | unknown id: IllegalArgument; key and URL are probed only when each differs exactly from the stored value; the saved row keeps its id and deletion mark |
| AplicacionService.Service.Eliminar | src/main/java/com/server/api/application/service/AplicacionService.java:138-142 | only the deletion instant changes, even on an already deleted row; unknown id: IllegalArgument |
| AplicacionService.Service.Restaurar | src/main/java/com/server/api/application/service/AplicacionService.java:150-156 | with no deleted check and no uniqueness check, the deletion instant is cleared; unknown id: IllegalArgument |
| AplicacionService.Service.CambiarEstado | src/main/java/com/server/api/application/service/AplicacionService.java:186-190 | only the state changes; unknown id: IllegalArgument |
| AplicacionService.UnchangedKeyWouldCollide | src/main/java/com/server/api/application/service/AplicacionService.java:221-232 | the stored key and URL of an application are always taken, so the update must skip the probes when they are unchanged |
| AplicacionService.CreatedFoundByKey | src/main/java/com/server/api/application/service/AplicacionService.java:43-75 | with keys unique, looking up a created application's key gives back exactly the created row |
| AplicacionService.DeletedStillFound | src/main/java/com/server/api/application/service/AplicacionService.java:59-62 | a deleted application is still found by id, and a repeated eliminar renews the deletion instant |
| TipoUsuarioService.SavePreservesInvariant | src/main/java/com/server/api/application/service/TipoUsuarioService.java:55-58 | saving an attached row whose name is free keeps every row attached and live names unique per application |
| TipoUsuarioService.BuscarActivo | src/main/java/com/server/api/application/service/TipoUsuarioService.java:73-74 | the live user type with that id, or EntityNotFound |
| TipoUsuarioService.ObtenerPorId | src/main/java/com/server/api/application/service/TipoUsuarioService.java:70-77 | succeeds exactly when a live user type has that id, and the response is `toResponse` of that user type (name, description, state, application); otherwise EntityNotFound |
| TipoUsuarioService.ObtenerTodos | src/main/java/com/server/api/application/service/TipoUsuarioService.java:82-87 | the summaries of the requested slice of the live user types that satisfy every given filter, in order, whose total counts all of them |
| TipoUsuarioService.ObtenerEstadisticas | src/main/java/com/server/api/application/service/TipoUsuarioService.java:152-174 | three keys; the total is the live count; the per-application and per-state entries are 0 when their filter is absent, else the matching live count; each is at most the total |
| TipoUsuarioService.Service.constructor | src/main/java/com/server/api/application/service/TipoUsuarioService.java:47-65 | the service starts on a table that satisfies its invariant |
| TipoUsuarioService.Service.Crear | src/main/java/com/server/api/application/service/TipoUsuarioService.java:47-65 | unknown application: EntityNotFound; name taken by a live user type of that application: IllegalArgument; otherwise one live ACTIVO user type is added; on error nothing changes |
| TipoUsuarioService.Service.Actualizar | src/main/java/com/server/api/application/service/TipoUsuarioService.java:93-114 | the target must be live (EntityNotFound); the application is resolved; uniqueness is always probed excluding the target; the update then applies |
| TipoUsuarioService.Service.Eliminar | src/main/java/com/server/api/application/service/TipoUsuarioService.java:120-130 | a live target gets the clock as deletion instant; otherwise EntityNotFound |
| TipoUsuarioService.Service.CambiarEstado | src/main/java/com/server/api/application/service/TipoUsuarioService.java:136-147 | only the state of a live target changes; otherwise EntityNotFound |
| TipoUsuarioService.KeepingOwnNameNeverConflicts | src/main/java/com/server/api/application/service/TipoUsuarioService.java:104-107 | keeping one's own name and application never clashes |
| TipoUsuarioService.CreatedNameTaken | src/main/java/com/server/api/application/service/TipoUsuarioService.java:55-61 | after a successful crear, the uniqueness probe finds the name taken in that application, so the same crear is rejected |
| TipoUsuarioService.DeletedNotFound | src/main/java/com/server/api/application/service/TipoUsuarioService.java:120-130 | after eliminar, obtenerPorId fails for that id and the live listing no longer holds it |
| Envelope.WithData | src/main/java/com/server/api/presentation/response/ApiResponse.java:21-25 | the two-argument constructor gives a success envelope with that message and data and no errors |
| Envelope.WithErrors | src/main/java/com/server/api/presentation/response/ApiResponse.java:30-34 | the three-argument constructor gives no data, with the flag, message and errors given |
| Envelope.Success | src/main/java/com/server/api/presentation/response/ApiResponse.java:39-41 | a success envelope carrying the data |
| Envelope.Error | src/main/java/com/server/api/presentation/response/ApiResponse.java:46-48 | a failure envelope carrying the errors and no data |
| Envelope.ErrorMessage | src/main/java/com/server/api/presentation/response/ApiResponse.java:53-55 | a failure envelope with neither data nor errors |
| Envelope.FactoriesAreConstructors | src/main/java/com/server/api/presentation/response/ApiResponse.java:21-55 | the factories are the constructors they call, and a success envelope never equals an error envelope |
| Http.OkWith | src/main/java/com/server/api/presentation/controller/SeccionController.java:152-155 | `ResponseEntity.ok(new ApiResponse<>(message, data))`: a success status with a success envelope carrying the data |
| Http.Respond | src/main/java/com/server/api/presentation/controller/SeccionController.java:288-302 | a reply is a success exactly when the service returned; a caught exception is a bodiless 404 or a 400 carrying its message; an uncaught one escapes unchanged |
| Http.MapResult | src/main/java/com/server/api/presentation/controller/AplicacionController.java:75-76 | the service's outcome with its value converted; an error passes through |
| AccionController.Crear | src/main/java/com/server/api/presentation/controller/AccionController.java:85-100 | success is 201 with the action; IllegalArgument and NotFound are caught as the catch clauses say |
| AccionController.ObtenerPorId | src/main/java/com/server/api/presentation/controller/AccionController.java:119-130 | 200 exactly when a live action has the id, with the envelope "Acción encontrada" carrying the service's response, which is `toResponse` of that live action; otherwise a bodiless 404 |
| AccionController.Actualizar | src/main/java/com/server/api/presentation/controller/AccionController.java:251-269 | 200 with the action; NotFound is 404; IllegalArgument is 400 with the message; IllegalState escapes |
| AccionController.Eliminar | src/main/java/com/server/api/presentation/controller/AccionController.java:287-298 | success is a bodiless 204; NotFound is a bodiless 404 |
| AccionController.Restaurar | src/main/java/com/server/api/presentation/controller/AccionController.java:322-336 | 200 with the action; NotFound is 404; IllegalState and IllegalArgument are 400 with the message |
| AccionController.ListQueryOf | src/main/java/com/server/api/presentation/controller/AccionController.java:144-178 | the list filter's precedence: application and section, application, section, non-blank name (trimmed), non-blank text (trimmed), else all |
| AccionController.Listing | src/main/java/com/server/api/presentation/controller/AccionController.java:144-178 | the summaries of the repository query the request selects (`RowsOf`), one per row, in order |
| AccionController.ObtenerTodas | src/main/java/com/server/api/presentation/controller/AccionController.java:144-178 | always 200, with the summaries of the rows of the query chosen by the parameters' precedence, one per row, in order |
| AccionController.PageQueryOf | src/main/java/com/server/api/presentation/controller/AccionController.java:192-222 | the paged filter's precedence: application, section, non-blank name, else all |
| AccionController.Paging | src/main/java/com/server/api/presentation/controller/AccionController.java:192-222 | the requested page of the selected query's summaries: position and size kept, the slice `PageOf` cuts, and the query's full count as total |
| AccionController.ObtenerTodasPaginado | src/main/java/com/server/api/presentation/controller/AccionController.java:192-222 | always 200, with the requested page of the summaries of the query chosen by the parameters' precedence, and that query's full count as total |
| AccionController.ObtenerEstadisticas | src/main/java/com/server/api/presentation/controller/AccionController.java:350-370 | the total is the live count; the per-application and per-section counts are the exact repository counts for a given id and 0 for an absent one, and both are at most the total |
| AccionController.IdsOverrideSearch | src/main/java/com/server/api/presentation/controller/AccionController.java:144-178 | when an application or section id is given, the name and text parameters are ignored |
| AccionController.NameIsTrimmed | src/main/java/com/server/api/presentation/controller/AccionController.java:144-178 | a blank name is no name, and the name is trimmed before the search |
| AccionController.PagedIgnoresSectionWithApplication | src/main/java/com/server/api/presentation/controller/AccionController.java:192-222 | with an application id, the paged endpoint ignores the section id and the name |
| SeccionController.Crear | src/main/java/com/server/api/presentation/controller/SeccionController.java:79-92 | 201 with the section; IllegalArgument is 400 with the message; nothing else is caught |
| SeccionController.ObtenerPorId | src/main/java/com/server/api/presentation/controller/SeccionController.java:111-122 | 200 exactly when a live section has the id, with the envelope "Sección encontrada exitosamente" carrying the service's response, which is `toResponse` of that live section; otherwise a bodiless 404 |
| SeccionController.Actualizar | src/main/java/com/server/api/presentation/controller/SeccionController.java:217-235 | 200 with the section; NotFound is 404; IllegalArgument is 400 with the message; IllegalState escapes |
| SeccionController.Eliminar | src/main/java/com/server/api/presentation/controller/SeccionController.java:253-264 | success is 200 with an envelope carrying no data; NotFound is a bodiless 404 |
| SeccionController.Restaurar | src/main/java/com/server/api/presentation/controller/SeccionController.java:288-302 | 200 with the section; NotFound is 404; IllegalState and IllegalArgument are 400 with the message |
| SeccionController.ListQueryOf | src/main/java/com/server/api/presentation/controller/SeccionController.java:136-156 | a non-blank text is searched first, then a non-blank name, both trimmed; otherwise all |
| SeccionController.ObtenerTodas | src/main/java/com/server/api/presentation/controller/SeccionController.java:136-156 | always 200, with the summaries of the rows of the selected query (text search, else name search, else all live sections), one per row, in order |
| SeccionController.ObtenerTodasPaginado | src/main/java/com/server/api/presentation/controller/SeccionController.java:170-188 | always 200, with the requested page of the summaries of the trimmed name search (or of all live sections when the name is blank), and that query's full count as total |
| SeccionController.ObtenerEstadisticas | src/main/java/com/server/api/presentation/controller/SeccionController.java:316-321 | always 200, and the total is the number of live sections |
| SeccionController.VerificarNombre | src/main/java/com/server/api/presentation/controller/SeccionController.java:335-345 | a blank name escapes as IllegalArgument; otherwise 200 with `disponible` the negation of the service's `existe`, and a message chosen by `existe` |
| SeccionController.PrecedenceOppositeToActions | src/main/java/com/server/api/presentation/controller/SeccionController.java:136-156 | with both a name and a text, sections search the text while actions search the name |
| SeccionController.AvailableNameIsFree | src/main/java/com/server/api/presentation/controller/SeccionController.java:335-345 | a name reported available is held by no live section, ignoring case |
| AplicacionController.Response | src/main/java/com/server/api/presentation/controller/AplicacionController.java:76 | `toResponse` of a stored application, as the mapper produces it: its id, key and URL among the rest |
| AplicacionController.Summary | src/main/java/com/server/api/presentation/controller/AplicacionController.java:129 | `toSummary` of a stored application: its id, name and key, as the mapper produces them |
| AplicacionController.Summaries | src/main/java/com/server/api/presentation/controller/AplicacionController.java:128-130 | `map(toSummary)` over a list: one summary per row in order, and every row's summary is in the list |
| AplicacionController.Crear | src/main/java/com/server/api/presentation/controller/AplicacionController.java:73-83 | 201 with the envelope "Aplicación creada exitosamente" carrying the converted application; IllegalArgument is 400 with the message |
| AplicacionController.ObtenerPorId | src/main/java/com/server/api/presentation/controller/AplicacionController.java:94-103 | 200 exactly when some application, deleted or not, has the id, with the envelope "Aplicación encontrada" carrying `toResponse` of the service's row; otherwise a bodiless 404 |
| AplicacionController.ObtenerPorLlaveIdentificadora | src/main/java/com/server/api/presentation/controller/AplicacionController.java:110-119 | 200 exactly when some application has the key, with the envelope "Aplicación encontrada" carrying `toResponse` of the service's row; otherwise a bodiless 404 |
| AplicacionController.Actualizar | src/main/java/com/server/api/presentation/controller/AplicacionController.java:179-190 | 200 with the envelope "Aplicación actualizada exitosamente" carrying the converted application; IllegalArgument, including an unknown id, is 400 with the message |
| AplicacionController.Eliminar | src/main/java/com/server/api/presentation/controller/AplicacionController.java:201-209 | success is 200 with an envelope carrying no data; IllegalArgument is a bodiless 404 |
| AplicacionController.Restaurar | src/main/java/com/server/api/presentation/controller/AplicacionController.java:216-225 | 200 with the envelope "Aplicación restaurada exitosamente" carrying the converted application; IllegalArgument is a bodiless 404 |
| AplicacionController.CambiarEstado | src/main/java/com/server/api/presentation/controller/AplicacionController.java:232-245 | 200 with the envelope "Estado cambiado exitosamente" carrying the converted application; IllegalArgument is 400 with the message |
| AplicacionController.ObtenerTodas | src/main/java/com/server/api/presentation/controller/AplicacionController.java:126-132 | 200 with the summaries of the ACTIVO applications, one per application, in order, each showing state "ACTIVO" |
| AplicacionController.PageRequestOf | src/main/java/com/server/api/presentation/controller/AplicacionController.java:145-146 | descending exactly when the direction is "desc" in any letter case, untrimmed (an iff); the page number and size are passed on |
| AplicacionController.ObtenerTodasPaginado | src/main/java/com/server/api/presentation/controller/AplicacionController.java:139-152 | 200 with the summaries of the requested slice of the ACTIVO applications, in order, at the requested number and size, at most `size` rows, whose total counts all of them |
| AplicacionController.BuscarPorNombre | src/main/java/com/server/api/presentation/controller/AplicacionController.java:159-166 | the summaries of the service's search, one per row, in order: a blank name lists what obtenerTodas lists; any other name lists exactly the applications whose name contains it, trimmed, ignoring case (every match is listed) |
| AplicacionController.ContarAplicacionesActivas | src/main/java/com/server/api/presentation/controller/AplicacionController.java:252-255 | the count equals the length of obtenerTodas' list |
| AplicacionController.ExistePorLlaveIdentificadora | src/main/java/com/server/api/presentation/controller/AplicacionController.java:262-267 | the answer holds exactly when some application has the key, and the message says the same |
| AplicacionController.ExisteIffFound | src/main/java/com/server/api/presentation/controller/AplicacionController.java:110-119 | the existence answer is true exactly when the lookup by key is a 200 |
| AplicacionController.UnknownIdStatuses | src/main/java/com/server/api/presentation/controller/AplicacionController.java:94-209 | the same unknown id is 404 on get and delete but 400 on update |
| AplicacionController.DeletedStillServed | src/main/java/com/server/api/presentation/controller/AplicacionController.java:94-103 | a soft-deleted application is still served with 200 |
| AplicacionController.CambiarEstadoShowsRequested | src/main/java/com/server/api/presentation/controller/AplicacionController.java:236-239 | the state the client asks for, converted by toEntityEstado, is the state the reply shows |
| AplicacionController.SortDirections | src/main/java/com/server/api/presentation/controller/AplicacionController.java:145 | "DESC" and "Desc" sort descending; "asc" and " desc" sort ascending |
| UsuarioEntity.Int32Increment | src/main/java/com/server/api/domain/entity/Usuario.java:103 | Java `int` increment: the successor modulo 2^32 in the signed range, strictly larger below the maximum |
| UsuarioEntity.AfterFailuresFrom | src/main/java/com/server/api/domain/entity/Usuario.java:102-105 | the counter after k failures from any `int` value stays in the `int` range, and is exactly the start plus k while that does not pass the largest `int` |
| UsuarioEntity.AfterFailures | src/main/java/com/server/api/domain/entity/Usuario.java:102-105 | the counter after k failures from zero stays in the `int` range |
| UsuarioEntity.CounterCountsFailures | src/main/java/com/server/api/domain/entity/Usuario.java:102-105 | up to the largest `int`, the counter is exactly the number of failures |
| UsuarioEntity.CounterWraps | src/main/java/com/server/api/domain/entity/Usuario.java:103 | one failure past the largest `int` wraps the counter to the smallest |
| UsuarioEntity.Usuario.constructor | src/main/java/com/server/api/domain/entity/Usuario.java:45-69 | defaults: ACTIVO, 2FA off, 0 failures, not locked, password changed now and no change required |
| UsuarioEntity.Usuario.IncrementarIntentosFallidos | src/main/java/com/server/api/domain/entity/Usuario.java:102-105 | the counter goes up by one (with `int` wrap-around) and the attempt time is the clock; the lock and other fields are unchanged |
| UsuarioEntity.Usuario.ResetearIntentosFallidos | src/main/java/com/server/api/domain/entity/Usuario.java:110-114 | the counter is 0, both dates are cleared and the user is not locked |
| UsuarioEntity.Usuario.BloquearPorIntentosFallidos | src/main/java/com/server/api/domain/entity/Usuario.java:119-128 | the lock instant is the clock, so estaBloqueado holds; the counter is unchanged |
| UsuarioEntity.RegistrarFallos | src/main/java/com/server/api/domain/entity/Usuario.java:102-105 | after a run of failed logins the counter is `AfterFailuresFrom` its old value (exactly old value plus their number up to the largest `int`), the last attempt instant is recorded, and the lock, its instant and the state are unchanged |
| SesionEntity.ActiveAndExpiredDisjoint | src/main/java/com/server/api/domain/entity/Sesion.java:99-109 | a session is never both active and expired; at the expiry instant it is neither; an open session at any other instant is exactly one of them |
| SesionEntity.Sesion.constructor | src/main/java/com/server/api/domain/entity/Sesion.java:43-54 | a new session is ACTIVA, started now, not ended, and active exactly while the clock is before its expiry |
| SesionEntity.Sesion.CerrarSesion | src/main/java/com/server/api/domain/entity/Sesion.java:83-86 | the state is CERRADA and the end instant is the clock; it is never active again; whether it has expired does not change |
| SesionEntity.Sesion.Expirar | src/main/java/com/server/api/domain/entity/Sesion.java:91-94 | the state is EXPIRADA and the end instant is the clock; it is never active again; whether it has expired does not change |
| AuditoriaAccesoEntity.AuditoriaAcceso.constructor | src/main/java/com/server/api/domain/entity/AuditoriaAcceso.java:53-63 | defaults: EXITOSO, createdAt = updatedAt = now, not deleted, nothing else set |
| AuditoriaAccesoEntity.AuditoriaAcceso.SoftDelete | src/main/java/com/server/api/domain/entity/AuditoriaAcceso.java:99-102 | deletedAt and updatedAt are both the clock, so isDeleted holds; the key, createdAt and data are unchanged |
| AuditoriaAccesoEntity.AuditoriaAcceso.Restore | src/main/java/com/server/api/domain/entity/AuditoriaAcceso.java:114-117 | deletedAt is cleared and updatedAt is the clock; the key, createdAt and data are unchanged |
| AuditoriaAccesoEntity.Exitoso | src/main/java/com/server/api/domain/entity/AuditoriaAcceso.java:122-135 | a fresh record keyed by (fresh id, now), EXITOSO, with the given user, and the email, application, action, IP and message copied |
| AuditoriaAccesoEntity.Fallido | src/main/java/com/server/api/domain/entity/AuditoriaAcceso.java:140-152 | a fresh record keyed by (fresh id, now), FALLIDO, with no user, and the other fields copied |

## Left out

- Spring wiring, `@Transactional` and concurrency. Each service call is one atomic step on the service's own table.
- HTTP transport and JSON serialisation. Swagger annotations. CORS and security configuration.
- The framework's global exception handler. An exception that no catch clause takes is `Unhandled(failure)`, and its final status is not modelled.
- Bean Validation itself. The annotated constraints are predicates (`Valid()`). The services assume the fields that `@Valid` makes non-null.
- JPA auditing. `@CreatedDate`/`@LastModifiedDate` are modelled only on insert (createdAt = updatedAt = the clock). Updates do not refresh updatedAt, except in the user-type mapper, which sets it explicitly.
- Sorting. `Sort.by(sortBy)` and the sort direction are computed (`AplicacionController.PageRequestOf`). Pages are cut from the result in table scan order, not sorted.
- `%` and `_` inside a search text are treated as literal characters, not as LIKE wildcards.
- Case folding is ASCII only. Unicode case mapping and locale rules are not modelled.
- Truncate: lengths are counted in Unicode code points (`|s|`), not in the UTF-16 code units of Java's `length()` and `substring`. Text with characters outside the Basic Multilingual Plane is therefore truncated differently: Java may cut such text earlier and split a surrogate pair, which a string of Unicode scalar values cannot hold.
- SizeBetween: the `@Size` bounds of the request records are counted in code points as well, so a value with characters outside the Basic Multilingual Plane can pass a bound here that `@Size` rejects.
- Entity references in rows (an action's application and section, a user type's application) are value snapshots. Aliasing between JPA-managed objects is not modelled.
- The mappers' in-place `updateEntity` methods are functions returning the updated entity.
- Tables are sequences of rows with distinct keys, not maps; the repositories' scan order is the sequence order.
- `AccionUpdateRequest`, `SeccionCreateRequest` and `TipoUsuarioUpdateRequest` are not part of this model's sources. They are records with the fields the services and mappers read.
- `TipoUsuarioController` is not modelled. It only delegates, and its failures go to the global exception handler.
- Logging calls.
- The `errors` payload of an error envelope is a list of strings. It is Java `Object` in the source, and the controllers never fill it.
- UUID generation and `OffsetDateTime.now()` are parameters. Several clock readings within one call are one instant.
- Usuario: the profile columns (names, email, password, TOTP secret) and the relations are plain data with no logic, and are left out.
- Sesion: the token, email, IP and device columns and the user relation are left out. A session whose expiry was never set is not modelled; `estaActiva` would throw on it.
- AuditoriaAcceso: `AuditoriaAccesoId`'s hand-written `equals`/`hashCode` is datatype equality.
- The class-level `@Where(clause = "deleted_at IS NULL")` on `BaseEntity` (BaseEntity.java:29). Hibernate is assumed not to apply a `@Where` declared on a `@MappedSuperclass` to the entities' queries, so `findById` sees deleted rows. If it did apply, `findById` would miss deleted rows: every restore path would fail with not-found, a deleted application would not be served by id and `eliminar` of a deleted application would fail with not-found. `AplicacionService.DeletedStillFound` and `AplicacionController.DeletedStillServed` would then not hold.
