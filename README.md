# PRUNplanner backend core in Dafny

This project models the deterministic core of the PRUNplanner backend. PRUNplanner is a Django service that keeps a copy of Prosperous Universe game data (planets, materials, buildings, exchanges) and users' plans, empires and exchange preferences. The model covers:

- the data-refresh engine that keeps planets and users' player data up to date;
- the rules for building and purging cache keys;
- the small credential state machines.

It proves the properties those parts promise. Time is passed in as an integer number of seconds, and the upstream game-data feed is passed in as a value. The cache store and the database tables are maps.

## Layout

One module per source file of the core, plus four helper modules:

- `Common`: Option and Result, string helpers, and sequence maps and filters.
- `Sorting`: stable insertion sort, used for ordered keys and for the infrastructure retention window.
- `KeyedSeq`: sequences of records indexed by a key.
- `Reconcile`: the shared diff-by-natural-key step behind the three child-table syncs.

The modules for the source files are:

- `Automation` (backend/core/models.py). This is the refresh health state machine: `ok`, `pending`, `retrying` and `failed`. A failure adds one to the error count and sets a fixed retry delay. The state becomes permanently failed at 10 errors. `AutomatedRecord` is a class whose `UpdateRefreshResult` writes the columns and, with `commit`, saves exactly them.
- `PlanetModels` (backend/gamedata/models/game_planet.py) holds the planet record and its child tables.
  - The planet table is keyed by natural id. The source only indexes that column and does not make it unique; the "## Left out" section says what this map does not capture.
  - The child tables are keyed by the natural keys their unique constraints name, so those constraints hold by construction:
    - resources by material id;
    - COGC programs (the planet's colony-program records) by type and window;
    - production fees by category and workforce level.
  - It also models the derived daily extraction, the resource `save`, the active-program annotation and the planet retry delay of 30 minutes.
- `PlanetSync`, `PlanetImport`, `PlanetBulkImport` and `PlanetInfrastructure` (backend/gamedata/fio/importers.py):
  - Resource, COGC and fee syncs are methods with loops. They are proved against specification functions: the stored key set equals the fetched key set, matched rows keep their identity, and a second run is a no-op.
  - The single-planet import covers three outcomes: an empty fetch, a rolled-back failure recorded on the planet, and success.
  - The all-planets import deletes and recreates only the fetched planets. It fails as a whole on a planet-id clash or on a resource of an unknown material, whose null ticker the column refuses.
  - The infrastructure import keeps the ten highest simulation periods.
- `RefreshTasks` (backend/gamedata/tasks.py) covers three tasks:
  - the single-planet refresh picks the stalest candidate, marks it pending, imports it and records the outcome;
  - the user-data dispatcher applies eligibility and staleness rules, orders the users and caps the batch at 100;
  - the user-data refresh replaces the player data or records the failure.
- `CacheManager` (backend/core/services/cache_manager.py) covers:
  - `make_key`;
  - `get_or_set_response`, with hit and miss paths, the falsy-value miss, headers and timeout;
  - `delete` and `delete_pattern`;
  - the commit hook, which runs deferred purges only when the transaction commits.
- `GamedataCache` (backend/gamedata/gamedata_cache_manager.py) and `PlanningCache` (backend/planning/planning_cache_manager.py) hold the key builders and timeouts. This includes the order-normalised planet-search key, built by a loop over the sorted field names, and the per-user planning namespace.
- `GamedataSignals` and `PlanningSignals` (the two `signals.py` files) say which keys and patterns each model change purges after commit.
- `EmpireJunctions` and `CxJunctions` (the empire and CX viewsets) model the junction synchronisation, with ownership checks, the diff of link pairs and duplicate detection.
- `PlanetSearch` (backend/gamedata/services/planet_search.py) models the search predicate and search by term. `Search` is the search as the code filters; `IntendedSearch` replaces only its resource count test by "every listed ticker is present".
- `FioSchemas` models the feed schemas' classifiers and bounds (fio_planet.py, fio_building.py).
- `GamedataSerializer` models the storage keying, the recipe and ticker ids, and planet-id bounds (backend/gamedata/api/serializer.py).
- `CxSchema` and `PlanSchema` model the legacy exchange remapping and the COGC normalisation and bounds (the planning schemas).
- `UserSerializer` models `deep_merge`, the preference representation, the planet captcha, email uniqueness and `create` (backend/user/api/serializer.py).
- `VerificationCodes` and `VerificationService` model the verification-code lifecycle.
- `UserSignals` models the refresh and clean dispatch and the email-change flagging.
- `ApiKeyAuth` models API-key extraction, revocation and the hourly touch.
- `DbRouter` models the legacy database router.

## Observations

The model follows the code where the code and its comments or annotations differ. It records these behaviours, which are intended or harmless:

- For a material it does not know, the per-planet resource sync stores the empty ticker. The bulk planet import builds a null ticker, which the NOT NULL `material_ticker` column refuses. So one unknown material rolls back the whole bulk import: no planet is replaced and no cache entry is purged (`PlanetBulkImport.UnknownMaterialOutcomes`). Saving a resource of an unknown material fails the same way (`PlanetModels.SaveResource`).
- The empire-retrieve purge pattern `*{user_id}:empire:retrieve*` is not anchored to the `PLANNING:` prefix. A change by user 1 also drops user 11's empire entries (`PlanningSignals.PlanChangeDropsOtherUsersEmpire`). This costs only a cache miss.
- A planet change purges only that planet's get key. Because the one-planet multiple request is cached under that same key, its entry goes too (`GamedataSignals.AfterCommit`). The planet list, search, popr and other multiple entries stay until they expire.
- Reassigning an empire's exchange preference through the CX endpoint uses a queryset update, which fires no model signal. The endpoint purges nothing of its own.
- Among legacy exchange codes, `AI1_30D` becomes `AI1_7D`, like every other code with a known prefix.
- A `PP…` code keeps only its first two `_`-separated parts. A `PP…` code without `_` has no second part: the validator raises an error, which the model returns as `None`.
- With more than one `Api-Key ` marker in the header, the key is the stripped text between the first and the second marker.
- The router's comment says legacy migrations are refused, but the code allows them on `legacy`. Its return annotation is a literal type, but the value is a plain boolean. The model follows the code.
- A user whose email is cleared keeps the email-verified flag.
- `automation_last_refreshed_at` is never null: its column has a default. So the dispatcher's never-refreshed case and its nulls-first ordering never apply. The model stores the timestamp as a plain integer.
- The gamedata viewset calls a search-term key builder that the cache manager does not define. The viewset is not part of this model.

## Model

| member | source | states |
|---|---|---|
| ApiKeyAuth.FindFrom | backend/user/auth_apikey.py:16 | the index found is the first occurrence of the marker at or after the start, or the end of the text when there is none |
| ApiKeyAuth.HeaderKey | backend/user/auth_apikey.py:14-16 | a header `Api-Key <rest>` whose rest holds no further marker yields the stripped rest as the key, whatever the query parameter |
| ApiKeyAuth.QueryKeyFallback | backend/user/auth_apikey.py:18-20 | a missing header, or one without the marker, falls back to the `api_key` query parameter, and an empty one counts as no key |
| ApiKeyAuth.ExtractedKeyNotEmpty | backend/user/auth_apikey.py:11-24 | an extracted key is never empty; no key at all means the query parameter was missing or empty too |
| ApiKeyAuth.Touch | backend/user/auth_apikey.py:37-44 | a timestamp is rewritten only when missing or older than one hour, and afterwards is never older than one hour |
| ApiKeyAuth.TouchOncePerHour | backend/user/auth_apikey.py:37-44 | after a write at `now`, a second request within the hour leaves the timestamp at `now` |
| ApiKeyAuth.TouchAfterHour | backend/user/auth_apikey.py:37-44 | a request more than one hour after the last write writes the new time |
| ApiKeyAuth.TouchIdempotent | backend/user/auth_apikey.py:37-44 | touching twice at the same instant is the same as touching once |
| ApiKeyAuth.ApiKeyAuthentication.Authenticate | backend/user/auth_apikey.py:10-49 | the outcome and the new key and user tables are those `AuthenticateSpec` gives |
| ApiKeyAuth.AuthenticateMeaning | backend/user/auth_apikey.py:10-49 | no key gives `None` (other authenticators run) and writes nothing; an unknown or revoked key fails and writes nothing; otherwise the key's owner signs in and only that user's last login and that key's last use change, each as `Touch` says |
| ApiKeyAuth.RepeatWithinHourWritesNothing | backend/user/auth_apikey.py:37-46 | after a request that wrote both timestamps, the same request within the hour signs in the same user and writes nothing |
| Automation.RecordSuccess | backend/core/models.py:58-63 | a success leaves status `ok`, no error, no retry time, error count 0 and the refresh time `now`, whatever the state before |
| Automation.RecordFailure | backend/core/models.py:64-73 | a failure adds exactly one to the count, keeps the last refresh time, stores the first 2000 characters of the message; the status is `failed` (no retry time) iff the new count reaches 10, else `retrying` with the retry time `now` plus the fixed delay |
| Automation.RecordOutcome | backend/core/models.py:55-73 | every recorded outcome leaves a settled state: never `pending`, the status agrees with the count, only `retrying` carries a retry time |
| Automation.RetryDelayIsFixed | backend/core/models.py:71-73 | the retry time of a failure depends on neither the earlier count nor the message: the delay is not exponential |
| Automation.ReplayErrorCount | backend/core/models.py:58-73 | after a series of attempts the count is the number of failures since the last success, or the old count plus every failure when there was none |
| Automation.SuccessForgetsHistory | backend/core/models.py:58-63 | two records that go through the same attempts, one of them a success, end equal |
| Automation.FailureRun | backend/core/models.py:64-73 | from a healthy record, n failures in a row give count n, keep the refresh time, and give `failed` iff n >= 10, `retrying` otherwise |
| Automation.AutomatedRecord.constructor | backend/core/models.py:24-33 | a new row has the column defaults: `ok`, no error, no retry time, count 0, refreshed at creation |
| Automation.AutomatedRecord.UpdateRefreshResult | backend/core/models.py:55-84 | the five columns become the recorded outcome; with `commit` exactly those columns are saved, without it nothing is |
| Automation.AutomatedRecord.MarkPending | backend/gamedata/tasks.py:72-73 | the status becomes `pending`, nothing else changes, and the row is saved |
| CacheManager.MakeKeyDecodes | backend/core/services/cache_manager.py:21-24 | splitting a key on ':' gives back the base followed by the rendered non-`None` parts, when no part holds ':' |
| CacheManager.MakeKeyInjective | backend/core/services/cache_manager.py:21-24 | two part lists without ':' give the same key only when they render the same |
| CacheManager.MakeKeyPrefix | backend/core/services/cache_manager.py:24 | every key starts with the base, and with `base:` when some part is left |
| CacheManager.MakeKeyHead | backend/core/services/cache_manager.py:24 | a key whose first part is `s` starts with `base:s` |
| CacheManager.MakeKeyThree | backend/core/services/cache_manager.py:21-24 | three text parts give the base, then each part, each preceded by one `:` |
| CacheManager.CachedResponseCases | backend/core/services/cache_manager.py:67-90 | a truthy cached value is returned verbatim with `X-Cache-Hit` 1, without computing and without writing; otherwise the payload is computed once, stored with expiry `now + timeout` and returned with `X-Cache-Hit` 0; both set public `max-age` = timeout |
| CacheManager.RepeatIsHit | backend/core/services/cache_manager.py:67-90 | after a miss that stored a non-empty body, a request for the same key before expiry is a hit with the same body and writes nothing |
| CacheManager.ApplyPurgesEffect | backend/core/services/cache_manager.py:34-42 | after a series of deletes a key survives iff it was stored and no delete removes it; survivors keep their values |
| CacheManager.Transaction.OnCommit | backend/planning/signals.py:17-26 | a callback registered inside the transaction is appended to the pending ones |
| CacheManager.Transaction.Commit | backend/planning/signals.py:17-26 | on commit the pending purges run in registration order and the list is emptied |
| CacheManager.Transaction.Rollback | backend/planning/signals.py:17-26 | on rollback the pending purges are dropped and nothing is deleted |
| CacheManager.CacheStore.Get | backend/core/services/cache_manager.py:26-28 | a read returns the stored value when it has not expired, `None` otherwise |
| CacheManager.CacheStore.Set | backend/core/services/cache_manager.py:30-32 | a write stores the value under the key with expiry `now + timeout`, leaving other keys alone |
| CacheManager.CacheStore.Delete | backend/core/services/cache_manager.py:34-37 | a delete removes exactly that key; every other entry stays |
| CacheManager.CacheStore.DeletePattern | backend/core/services/cache_manager.py:39-42 | a pattern delete removes exactly the keys the pattern matches |
| CacheManager.CacheStore.GetOrSetResponse | backend/core/services/cache_manager.py:67-90 | the response and the new store are those `CachedResponse` gives |
| Common.Prefix | backend/core/models.py:66 | the stored error text is the message cut to its first 2000 characters, shorter messages kept whole |
| Common.SplitJoin | backend/core/services/cache_manager.py:24 | joining parts that hold no separator and splitting again gives the same parts back |
| Common.JoinInjective | backend/core/services/cache_manager.py:24 | two lists of separator-free parts join to the same text only when they are equal |
| Common.NatToString | backend/planning/planning_cache_manager.py:15-43 | the decimal rendering of a user id is a non-empty run of digits |
| Common.NatToStringInjective | backend/planning/planning_cache_manager.py:15-43 | different user ids render differently, so different users get different key segments |
| Common.SetOfSeqCard | backend/planning/api/viewsets/cx_viewset.py:91-95 | the number of distinct uuids in a list is at most its length, and equal to it exactly when the list has no repeat |
| Sorting.SortStrings | backend/gamedata/gamedata_cache_manager.py:61-75 | sorting a list of strings gives a permutation of it in ascending order |
| Sorting.SortStringsPermutationInvariant | backend/gamedata/gamedata_cache_manager.py:61-75 | two lists that hold the same strings in any order sort to the same list |
| Sorting.SortByStr | backend/gamedata/gamedata_cache_manager.py:64 | sorting by a string key keeps every element, as a permutation |
| Sorting.SortByStrSorted | backend/gamedata/gamedata_cache_manager.py:64 | the result of sorting by a string key is in ascending key order |
| Sorting.SortedByStrUnique | backend/gamedata/gamedata_cache_manager.py:64 | with a key that tells elements apart, two sorted permutations of the same elements are equal |
| Sorting.SortByInt | backend/gamedata/fio/importers.py:241-243 | sorting reports by period keeps every report, as a permutation |
| Sorting.SortByIntSorted | backend/gamedata/fio/importers.py:241-243 | the result of sorting by period is ordered by period |
| Sorting.Take | backend/gamedata/fio/importers.py:241-243 | taking the first n elements gives at most n of them, in the same order |
| CxSchema.RemapExchanges | backend/planning/schemas/planning_cx_data.py:27-45 | the validator's loop over the legacy prefixes returns what `RemapExchange` gives: the period form, the first matching prefix's seven-day code, or the value unchanged |
| CxSchema.FirstPrefixFound | backend/planning/schemas/planning_cx_data.py:39-43 | the prefix search finds something iff some legacy prefix starts the value, and what it finds is such a prefix |
| CxSchema.FirstPrefixAt | backend/planning/schemas/planning_cx_data.py:40-41 | the search returns the first prefix in list order that matches, not a later one |
| CxSchema.FirstPrefixIsHead | backend/planning/schemas/planning_cx_data.py:39-43 | since all legacy prefixes have three letters, the matching prefix is the value's first three characters |
| CxSchema.SevenDayOf | backend/planning/schemas/planning_cx_data.py:42-43 | replacing '2' by '1' sends every legacy prefix to one of AI1, NC1, CI1, IC1 and its code to one of the four seven-day codes |
| CxSchema.PrefixedBecomesSevenDay | backend/planning/schemas/planning_cx_data.py:39-43 | a value that does not start with PP but starts with a legacy prefix becomes that prefix with '2'→'1' plus `_7D`, one of AI1_7D, NC1_7D, CI1_7D, IC1_7D |
| CxSchema.SevenDayCodeKept | backend/planning/schemas/planning_cx_data.py:39-43 | a seven-day code is remapped to itself |
| CxSchema.UnmatchedUnchanged | backend/planning/schemas/planning_cx_data.py:28-29 | a non-string value, or a string that matches neither PP nor any prefix, is returned unchanged |
| CxSchema.PeriodWithoutSymbolRaises | backend/planning/schemas/planning_cx_data.py:32-36 | a PP value without '_' has no second part and fails validation (the index error), and one with '_' always remaps |
| CxSchema.PeriodSymbolSwapped | backend/planning/schemas/planning_cx_data.py:32-37 | `PP<period>_<symbol>[_…]` becomes `<symbol with '2'→'1'>_<period>`; parts after the second are dropped |
| CxSchema.PeriodFormSplits | backend/planning/schemas/planning_cx_data.py:34 | splitting the period form on '_' gives back its parts, the first starting with PP |
| CxSchema.PeriodStripped | backend/planning/schemas/planning_cx_data.py:35 | removing every `PP` from `PP<period>` leaves the period when it holds no 'P' |
| CxSchema.RemapSettles | backend/planning/schemas/planning_cx_data.py:39-45 | for a value not starting with PP, remapping twice is the same as remapping once |
| CxSchema.UniverseCodesKept | backend/planning/schemas/planning_cx_data.py:39-45 | UNIVERSE_7D and UNIVERSE_30D pass through unchanged |
| CxSchema.ThirtyDayReadAsSevenDay | backend/planning/schemas/planning_cx_data.py:39-43 | AI1_30D is rewritten to AI1_7D, because the prefix test comes before any period check |
| CxSchema.KeepNonEmpty | backend/planning/schemas/planning_cx_data.py:96-97 | the filtered list is never longer than the original |
| CxSchema.KeepNonEmptyMembers | backend/planning/schemas/planning_cx_data.py:96-97 | an entry survives the filter iff it was in the list and its preferences are not empty |
| CxSchema.KeepNonEmptyAppend | backend/planning/schemas/planning_cx_data.py:96-97 | filtering a concatenation filters each part, so the order of kept entries is the original order |
| CxSchema.KeepAllNonEmpty | backend/planning/schemas/planning_cx_data.py:96-97 | a list without empty entries passes through unchanged |
| CxSchema.KeepNonEmptyFixed | backend/planning/schemas/planning_cx_data.py:96-97 | the filter changes nothing iff no entry is empty, and filtering twice equals filtering once |
| CxSchema.RemoveEmptyPlanetPreferencesMeaning | backend/planning/schemas/planning_cx_data.py:93-98 | the validator keeps both empire lists, keeps exactly the planet entries with preferences in both planet lists, and a second run changes nothing |
| CxJunctions.AssignAll | backend/planning/api/viewsets/cx_viewset.py:108-113 | the assignment loop only touches empires of the user; the set of empires stays the same |
| CxJunctions.AssignItemNone | backend/planning/api/viewsets/cx_viewset.py:112 | an item that names no empire changes nothing |
| CxJunctions.SyncCxJunctions | backend/planning/api/viewsets/cx_viewset.py:78-115 | the counting checks answer 403 exactly for an unowned CX, else 403 exactly for an unowned empire, else 400 exactly for an empire named twice, each writing nothing; otherwise 200 with every empire reset and the named ones assigned, as `CxSyncSpec` states |
| CxJunctions.CountCheckIsSubset | backend/planning/api/viewsets/cx_viewset.py:91-95 | comparing the count of owned requested uuids with the count of requested uuids is the same as asking that every requested uuid is owned |
| CxJunctions.UnnamedDetached | backend/planning/api/viewsets/cx_viewset.py:105 | an empire the payload does not name ends with no CX |
| CxJunctions.NamedAttached | backend/planning/api/viewsets/cx_viewset.py:108-113 | with no empire named twice, a named empire ends with the CX of the item naming it |
| CxJunctions.NamedAssigned | backend/planning/api/viewsets/cx_viewset.py:98-113 | once the checks pass, a named empire is one of the user's and ends with the CX of the item naming it |
| CxJunctions.AssignAllEffect | backend/planning/api/viewsets/cx_viewset.py:105-113 | after the reset and the loop, unnamed empires have no CX and each named one has its item's CX |
| CxJunctions.SuccessAssignment | backend/planning/api/viewsets/cx_viewset.py:103-113 | on success the user keeps the same empires, every unnamed empire has no CX and every named empire has the CX of the item listing it |
| DbRouter.DbForRead | backend/legacy_migration/db_router.py:12-15 | reads of legacy models go to `legacy`, every other read gets `None` |
| DbRouter.DbForWrite | backend/legacy_migration/db_router.py:17-21 | writes of legacy models get `None`, every other write goes to `default` |
| DbRouter.AllowRelation | backend/legacy_migration/db_router.py:23-27 | a relation is allowed (`True`) iff both objects live in `default` or `legacy`, otherwise the router has no opinion (`None`); it never forbids |
| DbRouter.LegacyNeverWritten | backend/legacy_migration/db_router.py:12-21 | `legacy` is never a write target; legacy models get no write target, the rest `default` |
| DbRouter.MigrateOnExactlyOne | backend/legacy_migration/db_router.py:29-35 | each app migrates on exactly one database: the legacy app on `legacy`, every other app on `default` |
| DbRouter.ReadsWhereMigrated | backend/legacy_migration/db_router.py:12-35 | every routed read or write goes to the database where that app is migrated |
| DbRouter.RelationSymmetric | backend/legacy_migration/db_router.py:23-27 | the relation decision does not depend on the order of the two objects |
| FioSchemas.BoundaryDescriptorRegions | backend/gamedata/fio/schemas/fio_planet.py:8-14 | the descriptor is LOW iff the value is below the lower bound, HIGH iff above the upper bound, NORMAL iff between them, both bounds included |
| FioSchemas.BoundaryDescriptorMonotone | backend/gamedata/fio/schemas/fio_planet.py:8-14 | a larger value never gets a lower descriptor (LOW < NORMAL < HIGH) |
| FioSchemas.Attributes | backend/gamedata/fio/schemas/fio_planet.py:116-137 | gravity, pressure and temperature are NORMAL exactly within 0.25–2.5, 0.25–2.0 and −25–75, and a planet is fertile iff its fertility exceeds −1.0 |
| FioSchemas.ValidPlanetExtractionNonNegative | backend/gamedata/fio/schemas/fio_planet.py:17-20 | a resource accepted by the schema (factor at least 0) has a non-negative daily extraction |
| FioSchemas.BuildingTypeOf | backend/gamedata/fio/schemas/fio_building.py:38-46 | PLANETARY iff the name contains `planetaryProject`; otherwise INFRASTRUCTURE iff there is no expertise, else PRODUCTION; so exactly one type is returned |
| FioSchemas.BuildingTypeIgnoresWhichExpertise | backend/gamedata/fio/schemas/fio_building.py:43-46 | which expertise a building has does not change its type, and any expertise rules out INFRASTRUCTURE |
| GamedataCache.MultipleAsWrittenCollidesWithGet | backend/gamedata/gamedata_cache_manager.py:38-44 | as written, the multiple-planet key for one id equals the single-planet key for that id |
| GamedataCache.KeyPlanetSearch | backend/gamedata/gamedata_cache_manager.py:61-75 | the key the loop over the sorted field names builds is `PlanetSearchKey` of the request |
| GamedataCache.NormalizePreservesNames | backend/gamedata/gamedata_cache_manager.py:64-73 | normalising the values keeps the field names, so distinct names still tell the fields apart |
| GamedataCache.PlanetSearchKeyOrderInvariant | backend/gamedata/gamedata_cache_manager.py:61-75 | two requests with the same fields in any insertion order give the same key |
| GamedataCache.PlanetSearchKeyListOrderInvariant | backend/gamedata/gamedata_cache_manager.py:67-68 | permuting the items of any list value does not change the key |
| GamedataCache.SingleFieldParts | backend/gamedata/gamedata_cache_manager.py:63-73 | a one-field request contributes only its value text, not its name |
| GamedataCache.PlanetSearchKeyIgnoresNames | backend/gamedata/gamedata_cache_manager.py:63-73 | the key holds values only: two one-field requests with the same value and different names share a key |
| GamedataCache.FertileSearchKey | backend/gamedata/gamedata_cache_manager.py:69-75 | a request holding only a true flag, under any field name, is keyed by the parts `planet`, `search`, `TRUE`, which `CacheManager.MakeKeyThree` spells `GAMEDATA:planet:search:TRUE` |
| GamedataCache.EndpointKeyHead | backend/gamedata/gamedata_cache_manager.py:18-75 | every key starts with `GAMEDATA:` followed by the endpoint's section |
| GamedataCache.KeysAreGamedata | backend/gamedata/gamedata_cache_manager.py:10 | every key built here starts with `GAMEDATA:` |
| GamedataCache.PlanetKeysMatchPlanetPurge | backend/gamedata/gamedata_cache_manager.py:34-48 | the planet get, popr, list, multiple and search keys all contain `planet`, so the `*planet*` purge reaches them |
| GamedataCache.PartsClean | backend/gamedata/gamedata_cache_manager.py:18-75 | when the ids, tickers and values hold no ':', no part of any key does either |
| GamedataCache.SameKeySameKind | backend/gamedata/gamedata_cache_manager.py:18-75 | with the corrected multiple-planet key, two endpoints that share a key are of the same kind: no two kinds of response share an entry |
| GamedataCache.PlanetMultipleKeyDeterminesIds | backend/gamedata/gamedata_cache_manager.py:42-44 | the multiple-planet key determines the id list, order included: the ids are not normalised |
| GamedataCache.CxpcKeySegments | backend/gamedata/gamedata_cache_manager.py:54-59 | the CXPC key is `GAMEDATA:exchange:cxpc:<ticker>`, with `:<code>` appended only when the code is non-empty |
| GamedataCache.CxpcWithCode | backend/gamedata/gamedata_cache_manager.py:56-57 | with a non-empty exchange code the key has five segments ending in the code |
| GamedataCache.CxpcWithoutCode | backend/gamedata/gamedata_cache_manager.py:58-59 | with no code or an empty one the key ends at the ticker |
| GamedataCache.TimeoutTable | backend/gamedata/gamedata_cache_manager.py:78-140 | material, recipe, building and planet lists, planet get and popr are cached a day; the exchange list 15 minutes; planet multiple and search 30 minutes; storage and CXPC 3 hours |
| GamedataCache.GetResponse | backend/gamedata/gamedata_cache_manager.py:38-140 | each `get_*_response` is the shared cached response, with that endpoint's timeout, under the key the cache manager builds (`ServedKey`): the multiple-planet endpoint under its as-written key |
| GamedataCache.ServedMultipleSharesGetEntry | backend/gamedata/gamedata_cache_manager.py:38-48 | as served, a one-planet multiple request and the single-planet request of that planet use one cache entry, although they are different kinds of endpoint |
| EmpireJunctions.SyncEmpireJunctions | backend/planning/api/viewsets/empire_viewset.py:88-143 | the response and the user's link table are those `SyncSpec` gives |
| EmpireJunctions.SyncEmpireJunctionsAndPurge | backend/planning/api/viewsets/empire_viewset.py:124-143 | the user's `PLANNING:<id>:` namespace is purged after the transaction iff the sync succeeded and created or deleted something; otherwise the cache is untouched |
| EmpireJunctions.PairsOfMembers | backend/planning/api/viewsets/empire_viewset.py:114-119 | the desired pairs are exactly the (empire, plan) pairs some payload item names |
| EmpireJunctions.ForbiddenIff | backend/planning/api/viewsets/empire_viewset.py:92-111 | the answer is 403 iff some named empire or plan is not the user's, and it lists exactly the unowned empires and the unowned plans requested |
| EmpireJunctions.StoredPairsAreDesired | backend/planning/api/viewsets/empire_viewset.py:124-140 | after success the stored pairs are exactly the desired ones; a pair stored before keeps its junction row, a new pair gets a fresh one |
| EmpireJunctions.EmptyPayloadDeletesAll | backend/planning/api/viewsets/empire_viewset.py:88-89 | an empty payload deletes every link of the user and purges iff there was one |
| EmpireJunctions.PurgeIffChanged | backend/planning/api/viewsets/empire_viewset.py:142-143 | the namespace is purged iff the link table changed |
| EmpireJunctions.RepeatIsNoop | backend/planning/api/viewsets/empire_viewset.py:131-143 | repeating a successful request changes no row and purges nothing |
| GamedataSerializer.MapStorageByTypeEntries | backend/gamedata/api/serializer.py:166-174 | a key is present iff some item of the requested type resolves to it (the site name, or `Unknown_Site_<id>`), and it holds the data of the last such item |
| GamedataSerializer.SitesDataEntries | backend/gamedata/api/serializer.py:194-201 | a key is present iff some site resolves to it through the site map or the fallback, and it holds the last such site's data |
| GamedataSerializer.UnknownSiteKeysDistinct | backend/gamedata/api/serializer.py:171 | two different ids missing from the site map get different fallback keys |
| GamedataSerializer.RecipeIdInjective | backend/gamedata/api/serializer.py:49-50 | `ticker#name` recipe ids are equal iff both parts are, when the ticker has no '#' |
| GamedataSerializer.TickerIdInjective | backend/gamedata/api/serializer.py:123-124 | `ticker.exchange` ids are equal iff both parts are, when the ticker has no '.' |
| GamedataSerializer.ValidatePlanetIds | backend/gamedata/api/serializer.py:112-113 | an accepted list keeps one id per input |
| GamedataSerializer.PlanetIdsAccepted | backend/gamedata/api/serializer.py:112-113 | the list is accepted iff every stripped id is exactly 7 characters long, and it then holds the stripped ids |
| GamedataSignals.HandleChange | backend/gamedata/signals.py:15-30 | a planet or player-data change registers exactly its purges with the transaction |
| GamedataSignals.MultipleServedUnderTarget | backend/gamedata/signals.py:15-30 | a multiple-planet request served under a purged key is the request for exactly the changed planet; no multiple request is served under a player-data change's storage key |
| GamedataSignals.TargetKeyUnique | backend/gamedata/signals.py:15-30 | as served, the one key a change purges is shared by exactly its target and, for a planet change, the multiple-planet request for that one planet (gamedata_cache_manager.py:42-44 gives it the same key) |
| GamedataSignals.AfterCommit | backend/gamedata/signals.py:15-30 | after commit, a planet change removes that planet's get entry and with it the one-planet multiple entry stored under the same key; a player-data change removes only that user's storage entry; list, search, popr, every other multiple entry and all other entries keep their values |
| GamedataSignals.HandleAndCommit | backend/gamedata/signals.py:15-30 | handling a change and committing removes exactly the target key from the cache |
| PlanSchema.ValidateCogc | backend/planning/schemas/planning_plan_data.py:64-80 | an accepted non-null COGC is one of the fourteen COGC types |
| PlanSchema.CanonicalIdempotent | backend/planning/schemas/planning_plan_data.py:74 | upper-casing and replacing spaces twice is the same as once |
| PlanSchema.DashesOnlyFromDashes | backend/planning/schemas/planning_plan_data.py:71-74 | only the exact text `---` is read as no COGC |
| PlanSchema.PluralsAreNotSingular | backend/planning/schemas/planning_plan_data.py:76-77 | a COGC type or a word ending in S never gets another S |
| PlanSchema.CogcSpellingsAccepted | backend/planning/schemas/planning_plan_data.py:64-80 | any spelling whose upper-cased, underscored form is a COGC type is accepted as that type |
| PlanSchema.SingularWorkforceMadePlural | backend/planning/schemas/planning_plan_data.py:76-77 | a singular workforce name is accepted as its plural, which is a COGC type |
| PlanSchema.CogcOutcomes | backend/planning/schemas/planning_plan_data.py:64-80 | `---`, null and a missing field give no COGC; another string is accepted iff its normal form is a COGC type or a singular workforce; any other value is rejected |
| PlanSchema.NormalizeCogcIdempotent | backend/planning/schemas/planning_plan_data.py:69-80 | normalising twice is the same as normalising once |
| PlanetBulkImport.FirstWinsKeys | backend/gamedata/fio/importers.py:223-225 | a bulk insert that ignores conflicts stores one row per distinct key of the input |
| PlanetBulkImport.FirstWinsValue | backend/gamedata/fio/importers.py:223-225 | the row stored for a key is built from the first input with that key; later duplicates are dropped |
| PlanetBulkImport.RecreatePlanets | backend/gamedata/fio/importers.py:177-225 | the loop that deletes and recreates the fetched planets with their children ends in the table `BulkSpec` gives, or in failure when it does; any feed is accepted |
| PlanetBulkImport.PrefixStep | backend/gamedata/fio/importers.py:182-221 | recreating one more planet adds exactly that planet, with its children numbered after those of the planets before it |
| PlanetBulkImport.ImportAllPlanets | backend/gamedata/fio/importers.py:170-229 | the table is `BulkSpec`'s; after a committed import every key containing `planet` is purged, after a failed one the cache is untouched |
| PlanetBulkImport.RecreatedKeys | backend/gamedata/fio/importers.py:182-191 | the recreated planets are exactly the fetched natural ids |
| PlanetBulkImport.RecreatedAt | backend/gamedata/fio/importers.py:182-221 | each fetched planet is recreated from its own fetched record |
| PlanetBulkImport.BulkScope | backend/gamedata/fio/importers.py:175-191 | only fetched planets are replaced: the table afterwards holds the old ids plus the fetched ones, unfetched planets are untouched, and each fetched planet has the fetched attributes and a fresh automation state |
| PlanetBulkImport.BulkChildren | backend/gamedata/fio/importers.py:196-225 | each planet of a committed import has one resource per fetched material, one program per window and one fee per (category, level), each carrying the first fetched record's values and the extraction rule; every resource's material is known and carries its ticker |
| PlanetBulkImport.BulkFailsIff | backend/gamedata/fio/importers.py:177-225 | the transaction fails iff two fetched planets share a planet id (the primary key), a planet that is not replaced already holds a fetched one, or a fetched resource names an unknown material (null ticker in a NOT NULL column) |
| PlanetBulkImport.BulkKeepsConsistent | backend/gamedata/fio/importers.py:177-225 | a successful bulk import keeps the table consistent: every planet is stored under its own natural id and no two share a planet id |
| PlanetBulkImport.UnknownMaterialOutcomes | backend/gamedata/fio/importers.py:82-223 | for a material missing from the ticker map the sync path stores the empty ticker (line 82), while the bulk import builds a null ticker (lines 203-205) and fails as a whole on inserting it |
| PlanetImport.ImportPlanet | backend/gamedata/fio/importers.py:27-65 | the returned flag and the new planet table are those `ImportPlanetSpec` gives |
| PlanetImport.NoDataNoWrites | backend/gamedata/fio/importers.py:31-32 | an empty fetch returns False and writes nothing |
| PlanetImport.ImportSucceedsIff | backend/gamedata/fio/importers.py:37-58 | the import succeeds iff no other stored planet holds the fetched planet id, no new material is fetched twice, and the program and fee syncs succeed; the planet-id condition is the source's only for a natural id not stored yet (see Left out) |
| PlanetImport.SuccessEffect | backend/gamedata/fio/importers.py:37-55 | on success the planet is created or updated with the fetched columns, its children are the three syncs' results, its automation shows a success at `now`, and every other planet is untouched |
| PlanetImport.FailureEffect | backend/gamedata/fio/importers.py:57-65 | on failure the transaction is rolled back: no planet, column or child row changes, and only the stored planet with the fetched planet id gets one more error, keeping its refresh time |
| PlanetImport.RecordFailureEffect | backend/gamedata/fio/importers.py:60-63 | recording the failure on the planet found by planet id changes only that planet's automation state, as a failure, and a planet left retrying is retried after the planet delay of 30 minutes (game_planet.py:196-197) rather than the default 15 |
| PlanetImport.ImportKeepsConsistent | backend/gamedata/fio/importers.py:27-65 | whatever the outcome, the table stays consistent: planets under their natural ids, planet ids unique |
| PlanetImport.WriteKeepsConsistent | backend/gamedata/fio/importers.py:40-43 | writing a planet whose planet id is not taken by another natural id keeps the table consistent |
| PlanetImport.ImportTwiceSameChildren | backend/gamedata/fio/importers.py:27-65 | importing the same fetched planet again succeeds and leaves its resources, programs and fees exactly as the first import left them |
| PlanetInfrastructure.MinPeriod | backend/gamedata/fio/importers.py:266-267 | the minimum is one of the periods and no report has a smaller one |
| PlanetInfrastructure.ImportReports | backend/gamedata/fio/importers.py:232-268 | the outcome of the create-then-clean-up steps is `InfraSpec`'s |
| PlanetInfrastructure.ImportPlanetInfrastructure | backend/gamedata/fio/importers.py:232-270 | after an import the popr key of that planet, and nothing else, is removed from the cache; early returns leave it untouched |
| PlanetInfrastructure.PeriodsEmpty | backend/gamedata/fio/importers.py:266 | the period set is empty iff there are no reports, so the clean-up is skipped only for an empty feed |
| PlanetInfrastructure.MissingMembers | backend/gamedata/fio/importers.py:256-260 | the reports created are exactly the kept ones whose period is not stored yet |
| PlanetInfrastructure.KeepFromMembers | backend/gamedata/fio/importers.py:265-268 | the clean-up keeps exactly the stored reports whose period is at least the minimum kept period |
| PlanetInfrastructure.KeepsMostRecent | backend/gamedata/fio/importers.py:239-243 | the kept reports are the first ten (or all) by period, newest first; together with the dropped ones they are the feed, and no dropped report is newer than a kept one |
| PlanetInfrastructure.RecencyOrder | backend/gamedata/fio/importers.py:241-243 | the kept reports are ordered by period, newest first, and every dropped report is no newer than any kept one |
| PlanetInfrastructure.EmptyFeedKeepsReports | backend/gamedata/fio/importers.py:262-268 | a planet with an empty report list keeps every stored report |
| PlanetInfrastructure.ImportEffect | backend/gamedata/fio/importers.py:251-268 | after an import the stored reports are the old ones at or above the minimum kept period plus the missing kept ones, every kept period is stored and nothing older remains |
| PlanetInfrastructure.ImportIdempotent | backend/gamedata/fio/importers.py:232-268 | importing the same feed again creates and deletes nothing |
| PlanetModels.SaveResource | backend/gamedata/models/game_planet.py:236-246 | saving fails iff the material is unknown (its null ticker breaks the NOT NULL column); otherwise it keeps the row, factor and type, recomputes the daily extraction from them and sets the ticker to the material's |
| PlanetModels.SaveResourceIdempotent | backend/gamedata/models/game_planet.py:236-246 | saving a saved row again changes nothing |
| PlanetModels.DailyExtractionMonotone | backend/gamedata/models/game_planet.py:241-242 | the daily extraction (factor×60 for gaseous, ×70 otherwise) is non-negative and grows with the factor |
| PlanetModels.ActiveProgramType | backend/gamedata/models/game_planet.py:18-32 | the annotation is the type of some program whose window contains `now` (bounds included), or nothing when no window does |
| PlanetSearch.TickersOfCard | backend/gamedata/services/planet_search.py:43-49 | with one resource per ticker, the matched resources have as many distinct tickers as there are of them |
| PlanetSearch.AsWrittenRejectsRepeatedTicker | backend/gamedata/services/planet_search.py:41-49 | as written, a planet holding FE is not found for the list [FE, FE], although it holds every listed ticker |
| PlanetSearch.AsWrittenAgreesOnDistinctLists | backend/gamedata/services/planet_search.py:41-49 | for lists without repeats (and one resource per ticker) counting distinct matched resources is the same as asking for every listed ticker |
| PlanetSearch.AllowedMeaning | backend/gamedata/services/planet_search.py:83-91 | a dimension allows a type iff it is NORMAL, or LOW with the low flag, or HIGH with the high flag |
| PlanetSearch.ColumnsMeaning | backend/gamedata/services/planet_search.py:60-103 | the column filters hold iff: fertile when asked; surface for rocky alone, none for gaseous alone; each environment allowed; each requested facility present; false flags impose nothing |
| PlanetSearch.SearchMembers | backend/gamedata/services/planet_search.py:32-112 | for a ticker list without repeats, over planets with one resource per ticker, a planet is found iff it is stored and meets every requested condition together |
| PlanetSearch.RepeatedTickerFindsNothing | backend/gamedata/services/planet_search.py:41-49 | a ticker listed twice makes the search find nothing among planets with one resource per ticker |
| PlanetSearch.IntendedSearchMembers | backend/gamedata/services/planet_search.py:32-112 | with the intended resource filter, a planet is found iff it is stored and meets every requested condition together |
| PlanetSearch.CogcMatchIsActiveNow | backend/gamedata/services/planet_search.py:54-58 | a planet found under a program filter has a program whose window contains now and whose type is listed |
| PlanetSearch.LooserFindsMore | backend/gamedata/services/planet_search.py:60-103 | with the same lists, allowing more environments and requiring fewer facilities never finds fewer planets |
| PlanetSearch.SameMaterials | backend/gamedata/services/planet_search.py:41-49 | the intended resource filter depends only on which tickers are listed |
| PlanetSearch.SamePrograms | backend/gamedata/services/planet_search.py:54-58 | the program filter depends only on which programs are listed |
| PlanetSearch.SameMaterialsAsWritten | backend/gamedata/services/planet_search.py:41-49 | the count test depends only on which tickers are listed and on the length of the list |
| PlanetSearch.SameListsSameMatch | backend/gamedata/services/planet_search.py:41-58 | two requests whose lists hold the same members, the ticker lists being equally long, match the same planets: order does not matter, and repeated programs do not either |
| PlanetSearch.ListsAsSets | backend/gamedata/services/planet_search.py:32-112 | such requests find the same planets |
| PlanetSearch.IntendedListsAsSets | backend/gamedata/services/planet_search.py:32-112 | with the intended resource filter, order and repeats in either list do not change the planets found |
| PlanetSearch.TermCaseIgnored | backend/gamedata/services/planet_search.py:122-132 | the term search does not depend on the case of the term |
| PlanetSearch.TermFindsNaturalId | backend/gamedata/services/planet_search.py:122-132 | a non-empty term equal to a natural id up to case finds that planet, and a found planet contains the term in its natural id or name, ignoring case |
| PlanetSync.ResourceOverwrites | backend/gamedata/fio/importers.py:84-90 | an update overwrites every synced column, so updating a row just created with the same record changes nothing |
| PlanetSync.SyncResources | backend/gamedata/fio/importers.py:68-111 | the loop filling the update and create lists, followed by the bulk writes and the delete, ends in `ResourcesSpec`'s table |
| PlanetSync.ResourcesKeys | backend/gamedata/fio/importers.py:68-111 | the sync fails iff a new material is fetched twice (the unique constraint); otherwise the planet's materials are exactly the fetched ones |
| PlanetSync.ResourcesStoredRow | backend/gamedata/fio/importers.py:80-90 | a fetched material that was stored keeps its row, and gets the fetched factor and type, the extraction factor×60 for gaseous or ×70 otherwise, and the mapped ticker or '' |
| PlanetSync.ResourcesIdempotent | backend/gamedata/fio/importers.py:68-111 | syncing the same feed again creates, deletes and changes nothing |
| PlanetSync.SyncCogcPrograms | backend/gamedata/fio/importers.py:114-135 | the loop collecting the rows to keep and create, followed by the create and delete, ends in `ProgramsSpec`'s table |
| PlanetSync.ProgramsReconciled | backend/gamedata/fio/importers.py:114-135 | the windows kept are exactly the fetched (type, start, end) keys; an empty feed deletes every program; matched rows are kept untouched; new rows get fresh, distinct ids |
| PlanetSync.ProgramsIdempotent | backend/gamedata/fio/importers.py:114-135 | syncing the same programs again changes nothing |
| PlanetSync.SyncProductionFees | backend/gamedata/fio/importers.py:138-167 | the loop and bulk writes end in `FeesSpec`'s table |
| PlanetSync.FeesReconciled | backend/gamedata/fio/importers.py:138-167 | the fees kept are exactly the fetched (category, level) keys; an empty feed deletes every fee; a matched fee keeps its row and gets the last fetched amount and currency |
| PlanetSync.FeesIdempotent | backend/gamedata/fio/importers.py:138-167 | syncing the same fees again changes nothing |
| PlanningCache.KeySegments | backend/planning/planning_cache_manager.py:15-43 | every planning key is `PLANNING:<user id>:` followed by its kind's segments |
| PlanningCache.PartsClean | backend/planning/planning_cache_manager.py:15-43 | with uuids as ids, no segment of a planning key holds ':' |
| PlanningCache.KeyTextInjective | backend/planning/planning_cache_manager.py:15-43 | two planning keys are equal only for the same kind, user and id: lists and retrieves, plans, empires and CX never share an entry |
| PlanningCache.KeyInUserNamespace | backend/planning/planning_cache_manager.py:9-43 | every key of a user starts with `PLANNING:<id>:` and so is matched by `*PLANNING:<id>:*` |
| PlanningCache.EmpireRetrieveKeysMatch | backend/planning/planning_cache_manager.py:28-34 | the empire retrieve and retrieve-plans keys share the prefix `<id>:empire:retrieve` and so match the empire pattern |
| PlanningCache.PlanAndCxKeysMissEmpirePattern | backend/planning/planning_cache_manager.py:15-43 | plan and CX keys of any user never match an empire-retrieve pattern |
| PlanningCache.EmpireListMissesEmpirePattern | backend/planning/planning_cache_manager.py:25-26 | the empire list key never matches an empire-retrieve pattern |
| PlanningCache.EmpirePatternOwnUser | backend/planning/planning_cache_manager.py:28-34 | among a user's own keys, the user's empire pattern matches exactly the empire retrieve and retrieve-plans keys |
| PlanningCache.NamespaceExact | backend/planning/planning_cache_manager.py:9-43 | a key is in user u's namespace iff it belongs to u, so a namespace purge never reaches another user |
| PlanningCache.EmpirePatternReachesOtherUsers | backend/planning/signals.py:21 | the empire pattern of user a also matches the empire keys of every user b whose id ends in a's digits |
| PlanningCache.GetResponse | backend/planning/planning_cache_manager.py:47-82 | each planning response is the shared cached response under its key with a one-hour timeout |
| PlanningSignals.HandleChange | backend/planning/signals.py:11-68 | each plan, empire, empire-plan or CX change registers exactly its purges with the transaction |
| PlanningSignals.DeleteKeyRemoves | backend/planning/signals.py:19-24 | deleting one planning key removes that key and no other planning key |
| PlanningSignals.ListAndDetailPurges | backend/planning/signals.py:11-44 | for the changing user's own keys, a plan change purges exactly the plan and empire lists, every empire detail and that plan's retrieve key; an empire change the same lists and empire details; CX keys are never purged by either |
| PlanningSignals.OwnKeysAfterCommit | backend/planning/signals.py:11-68 | after commit a key of the changing user survives iff it was stored and the change does not invalidate it, with its value unchanged; empire-plan and CX changes invalidate the whole namespace |
| PlanningSignals.OtherUsersKeepNamespace | backend/planning/signals.py:47-68 | an empire-plan or CX change of one user leaves every key of every other user in place |
| PlanningSignals.OtherUsersKeepLists | backend/planning/signals.py:11-44 | a plan or empire change never removes another user's list, plan or CX keys |
| PlanningSignals.PlanChangeDropsOtherUsersEmpire | backend/planning/signals.py:21 | a plan change of user a drops the empire keys of any user b whose id ends in a's digits |
| PlanningSignals.HandleAndCommit | backend/planning/signals.py:11-68 | handling a change and committing applies exactly its purges, in order, to the cache |
| Reconcile.NewItems | backend/gamedata/fio/importers.py:91-101 | the rows to create come from the feed, never more of them than fetched records |
| Reconcile.NewItemsKeys | backend/gamedata/fio/importers.py:84-101 | a key is among the rows to create iff it is fetched and not stored |
| Reconcile.NewItemsAllKnown | backend/gamedata/fio/importers.py:84-101 | when every fetched key is stored, nothing is created |
| Reconcile.NewItemsDuplicates | backend/gamedata/fio/importers.py:91-109 | the rows to create have distinct keys iff no unstored key is fetched twice |
| Reconcile.NewItemsLast | backend/gamedata/fio/importers.py:91-109 | for a new key, the last row to create with it is built from its last fetched record |
| Reconcile.UpdatedValue | backend/gamedata/fio/importers.py:84-90 | the update pass keeps the stored keys; a stored row whose key is fetched gets the last fetched record's values, the others are unchanged |
| Reconcile.CreateAllKeys | backend/gamedata/fio/importers.py:108-109 | the bulk create adds exactly the keys of the rows to create |
| Reconcile.CreateAllBase | backend/gamedata/fio/importers.py:108-109 | the bulk create leaves rows whose key it does not create untouched |
| Reconcile.CreateAllNew | backend/gamedata/fio/importers.py:108-109 | each created key holds the last row with that key, numbered by its position |
| Reconcile.FinalStored | backend/gamedata/fio/importers.py:84-90 | after both passes a fetched stored key holds its old row updated with its last fetched record |
| Reconcile.FinalNew | backend/gamedata/fio/importers.py:91-109 | after both passes a fetched new key holds a row created from its last fetched record, with the id of its place among the new rows |
| Reconcile.FinalAt | backend/gamedata/fio/importers.py:84-109 | after both passes every fetched key holds the row the reconciliation specification gives |
| Reconcile.FinalTable | backend/gamedata/fio/importers.py:84-111 | keeping only the fetched keys of the table after both passes gives exactly the reconciled table |
| Reconcile.Synchronize | backend/gamedata/fio/importers.py:68-111 | the loop, the bulk update, the bulk create and the delete of unfetched keys end in `ReconcileSpec`'s table, or in failure when it does |
| Reconcile.ReconcileKeys | backend/gamedata/fio/importers.py:68-111 | the reconciliation fails iff an unstored key is fetched twice (the unique constraint); otherwise the table's keys are exactly the fetched keys |
| Reconcile.ReconcileKeySet | backend/gamedata/fio/importers.py:70-111 | after success the set of stored keys equals the set of fetched keys |
| Reconcile.ReconcileKeepsStoredRows | backend/gamedata/fio/importers.py:84-90 | a fetched key that was stored keeps its row, updated with the last fetched record |
| Reconcile.NewIndexFresh | backend/gamedata/fio/importers.py:128-130 | two different new keys get different row ids, inside the block of new ids |
| Reconcile.ReconcileIdempotent | backend/gamedata/fio/importers.py:68-167 | after a successful sync the same feed creates nothing and leaves the table as it is |
| RefreshTasks.OldestCandidate | backend/gamedata/tasks.py:56-67 | over a scan of the whole table, no planet is chosen iff no planet of the table is a candidate (retry time passed or unset, not pending, not failed, fewer than 10 errors); a chosen planet is a candidate with the oldest last refresh in the table |
| RefreshTasks.RefreshPlanet | backend/gamedata/tasks.py:45-84 | the corrected task's result and planet table are `RefreshPlanetSpec`'s |
| RefreshTasks.ImportKeepsPlanets | backend/gamedata/fio/importers.py:27-65 | an import never removes a planet |
| RefreshTasks.AsWrittenIgnoresImportResult | backend/gamedata/tasks.py:75-84 | as written, when the import returns False without raising (for example an empty fetch) the refresh still reports success and overwrites the planet's automation state with a success |
| RefreshTasks.RefreshPlanetOutcome | backend/gamedata/tasks.py:45-84 | with no candidate in the table the refresh returns False and writes nothing; otherwise the table's stalest candidate is marked pending, imported, and ends in a settled state, the refresh succeeding iff the fetch and the import do |
| RefreshTasks.EligibleRows | backend/gamedata/tasks.py:108-126 | a user is eligible iff the username and API key are set and not both empty, the retry time has passed or is unset, there are fewer than 10 errors, the status is not pending, and the timing rule holds |
| RefreshTasks.DispatchFioUpdates | backend/gamedata/tasks.py:135-146 | the dispatched refreshes are the selected users' arguments, in order, and the count returned equals the number dispatched |
| RefreshTasks.DispatchSelectsStalest | backend/gamedata/tasks.py:129-146 | the number dispatched is the number of eligible users capped at 100; every dispatched user is eligible, they are ordered by last refresh, oldest first, and together with the rest they are exactly the eligible users; no user left out is staler than a dispatched one |
| RefreshTasks.RefreshUserFioData | backend/gamedata/tasks.py:160-214 | the result and the player-data table are `RefreshUserSpec`'s |
| RefreshTasks.RefreshUserOutcome | backend/gamedata/tasks.py:160-214 | an unknown user returns False and writes nothing; otherwise only that user's row changes, it ends settled, and on success the four data blobs are replaced by the fetched ones |
| UserSerializer.DeepMerge | backend/user/api/serializer.py:124-131 | the keys of the merge are the keys of the base and of the overrides |
| UserSerializer.Restrict | backend/user/api/serializer.py:126 | the part of the overrides handled so far keeps exactly the handled keys |
| UserSerializer.DeepMergeCopy | backend/user/api/serializer.py:124-131 | copying the base and looping over the overrides gives `DeepMerge`, without changing the base |
| UserSerializer.MergeStep | backend/user/api/serializer.py:126-130 | one loop step sets the current key to its merged value and leaves the rest of the partial result as the merge of the keys handled so far |
| UserSerializer.MergeNothing | backend/user/api/serializer.py:124-131 | merging no overrides gives the base back |
| UserSerializer.MergeEntries | backend/user/api/serializer.py:126-130 | a key only in the base keeps its value; an override wins unless both values are dicts, which are merged recursively |
| UserSerializer.MergeSelf | backend/user/api/serializer.py:124-131 | merging a dict into itself gives it back |
| UserSerializer.MergeIntoEmpty | backend/user/api/serializer.py:124-131 | merging into an empty base gives the overrides |
| UserSerializer.MergeTwiceIsOnce | backend/user/api/serializer.py:124-131 | merging the same overrides twice is the same as once |
| UserSerializer.OverridesWin | backend/user/api/serializer.py:126-130 | every override key is present; a non-dict override is taken as is, and a dict override keeps all its own keys |
| UserSerializer.PreferencesMeaning | backend/user/api/serializer.py:134-172 | the preferences always hold every default key; a stored non-dict gives the defaults; a stored non-dict value wins; a default not overridden is kept |
| UserSerializer.PlanOverridesKept | backend/user/api/serializer.py:134-172 | stored plan overrides are shown as stored, since the default is the empty dict |
| UserSerializer.CaptchaMeaning | backend/user/api/serializer.py:94-114 | an unknown planet id always fails; a known one passes iff the stripped, lower-cased input equals its planet name |
| UserSerializer.ValidateUsername | backend/user/api/serializer.py:81-84 | a username is accepted iff no user has it |
| UserSerializer.EmailMeaning | backend/user/api/serializer.py:86-92 | a missing or empty email is accepted; another is refused iff some user's email equals it ignoring case |
| UserSerializer.CreateUserFields | backend/user/api/serializer.py:116-121 | creation goes ahead iff both captcha fields are present, since popping a missing one raises |
| UserSerializer.CreateUserFieldsMeaning | backend/user/api/serializer.py:116-121 | the user is created from the validated fields minus the two captcha fields, all other values unchanged |
| UserSignals.FioTaskAfterDelete | backend/user/signals.py:21-25 | deleting a user always dispatches a clean for that user |
| UserSignals.FioTaskMeaning | backend/user/signals.py:11-18 | after a save a refresh is dispatched, with the user's username and API key, iff both are non-empty; otherwise a clean is dispatched |
| UserSignals.UserInstance.CheckEmailChangeHook | backend/user/signals.py:29-46 | the pre-save hook leaves the instance as `CheckEmailChange` says |
| UserSignals.UserInstance.HandleEmailVerificationTrigger | backend/user/signals.py:49-61 | the post-save hook sends a code iff the instance is flagged, or was just created with an email and is unverified; sending replaces the user's email-verification codes with one new code and mails it; the flag is cleared; users are untouched |
| UserSignals.MigrationSkipsEmailHooks | backend/user/signals.py:31-32 | with the migration flag set neither hook changes anything or sends a code |
| UserSignals.ExistingUserEmailChange | backend/user/signals.py:34-42 | an existing user whose email changed to a non-empty value is flagged and marked unverified; otherwise, and when the stored row is missing, nothing changes |
| UserSignals.NewUserFlag | backend/user/signals.py:43-46 | a new user is flagged iff it has an email and is not verified, and its verified state is kept |
| UserSignals.EmailChangeSendsOneCode | backend/user/signals.py:34-61 | an email change on an existing user leads to one code being sent and the user staying unverified and unflagged; saving with the same email sends nothing and changes nothing |
| UserSignals.NewUserSentCode | backend/user/signals.py:43-61 | a new unverified user with an email gets a code, and the flag is cleared |
| VerificationCodes.NewCode | backend/user/models/verification_codes.py:15-20 | a new code is unused, stamped with the creation time, and not expired at that time |
| VerificationCodes.ExpiryBoundary | backend/user/models/verification_codes.py:35-37 | a code exactly at creation time plus the expiry is not expired; one second later it is |
| VerificationCodes.ExpiredStaysExpired | backend/user/models/verification_codes.py:35-37 | once expired, a code stays expired |
| VerificationService.AlphabetSpelledOut | backend/user/services/verification_service.py:21 | the code alphabet is the 26 upper-case letters followed by the 10 digits |
| VerificationService.GenerateCode | backend/user/services/verification_service.py:19-22 | a generated code has 8 characters, each from A–Z or 0–9 |
| VerificationService.GeneratedCodeFits | backend/user/services/verification_service.py:17-22 | a generated code fits the 8-character column and is already upper-case |
| VerificationService.CodesWithout | backend/user/services/verification_service.py:29 | the delete removes exactly the codes of that user and purpose |
| VerificationService.FirstActive | backend/user/services/verification_service.py:57 | the code found is the first unused one of that user and purpose, and none is found iff there is none |
| VerificationService.FirstVerifiedByEmail | backend/user/services/verification_service.py:86 | the user found is the first with that email who is verified, and none is found iff there is none |
| VerificationService.VerificationDb.CreateAndSendCode | backend/user/services/verification_service.py:24-35 | the user's codes of that purpose are replaced by the new code, users are untouched, and the mail carries that code |
| VerificationService.VerificationDb.VerifyCode | backend/user/services/verification_service.py:54-82 | the result and the new tables are `VerifySpec`'s |
| VerificationService.VerificationDb.ExecutePasswordReset | backend/user/services/verification_service.py:100-106 | the new password is set and the code marked used, together |
| VerificationService.CreateLeavesOneCode | backend/user/services/verification_service.py:28-30 | afterwards the only code of that user and purpose is the new, unused one, it is the one found as active, and other codes are untouched |
| VerificationService.ValidateCodeMeaning | backend/user/services/verification_service.py:43-52 | an expired code never validates; an unexpired one validates its own text in any case; validation ignores the case of the input |
| VerificationService.VerifyEffects | backend/user/services/verification_service.py:54-82 | verification succeeds iff an active code exists and validates; failures and password-reset checks change nothing; a successful email verification marks that user verified and that code used, and nothing else |
| VerificationService.ValidResetCodeMeaning | backend/user/services/verification_service.py:84-98 | a reset code is found only for a verified user with that email and an unused, valid reset code of that user; with no such user nothing is found |
| VerificationService.ResetCodeSingleUse | backend/user/services/verification_service.py:24-106 | a freshly sent reset code validates within the expiry, the reset sets the password, and afterwards the same code no longer validates |

## Left out

- Network I/O to the game-data API (the HTTP client). Every fetch is a parameter of the operation that uses it: a parsed record, or nothing when the fetch fails or returns nothing.
- Celery fan-out and the chord of planet refreshes, and the refresh of the materialised view. These are concurrency and raw SQL. Each task is modelled as one sequential run.
- Races between workers on the `pending` guard: the read and the save are not atomic in the source, and the model runs them in sequence.
- Floating-point arithmetic. Planet attributes, extraction factors and fees are `real`, so rounding is not modelled. Free-population arithmetic, exchange prices and VWAP are not part of this model.
- Email delivery, password hashing and the randomness of `secrets.choice`:
  - A new code's characters come from a `draw` parameter.
  - The password is stored as given.
  - Sending a code is modelled as the mail task the operation returns (`MailTask`); delivery is not modelled.
- API-key hashing and lookup inside the key library. The key store is a map from key to record with a revoked flag. The request is given as its header and its query parameter.
- Whether the key library already filters revoked keys is not visible in the source. The model checks the flag as `authenticate` does.
- Timestamps are integer seconds. COGC windows are in epoch milliseconds, as stored.
- The database router's `_state.db` is an optional database name. Hints and model names are ignored, as in the source.
- Redis glob matching. Every purge pattern in the source has the form `*X*`, so a pattern purge is modelled as deleting every key that contains `X`.
- COGC rows whose program type is NULL. PostgreSQL treats NULLs as distinct, so such rows are never duplicates, but the model keys COGC programs by type and window like the other rows.
- ORM cascades. Deleting a planet deletes its child tables because the planet record holds them.
- PlanetImport.ImportPlanet, PlanetImport.ImportSucceedsIff, PlanetImport.SuccessEffect, PlanetImport.ImportKeepsConsistent, PlanetImport.WriteKeepsConsistent: the model assumes a stored planet is fetched with its stored planet id. `update_or_create` (backend/gamedata/fio/importers.py:40-43) sets the primary key `planet_id` from the feed and then falls back to a plain `save()`, which updates the row holding the new planet id, or inserts one when no row holds it. So when natural id N is stored under planet id A and the feed returns B:
  - if no row holds B, the source inserts a second row for N, with the fetched columns and the automation values read from row A, and syncs the children against that new, childless row; row A keeps N's old children;
  - if the row of natural id M holds B, the source overwrites that row, renaming it to N, syncs M's old children, and reports success.
  - The model instead rewrites N's row in place in the first case, syncing against row A's children, and reports a failure in the second. Its planet table, keyed by natural id, cannot hold the two rows for N that either case leaves.
  - For a natural id not stored yet, the create inserts the fetched planet id, and a clash with another planet's id raises, as the model says.
- PlanetBulkImport.RecreatePlanets, PlanetBulkImport.ImportAllPlanets: a feed that repeats a natural id is accepted, as in the source, but the planet table is a map keyed by natural id, so the model keeps only the last such record's planet. The source stores one planet row per record (the column is only indexed, backend/gamedata/models/game_planet.py:111) and attaches all their children to whichever of them its lookup map keeps. `BulkScope`, `BulkChildren`, `RecreatedAt`, `BulkKeepsConsistent` and `BulkRowSource` are stated for feeds whose natural ids are distinct.
- PlanetSearch.SearchMembers, PlanetSearch.SameListsSameMatch, PlanetSearch.ListsAsSets: the search's count test changes meaning with repeated tickers, so `SearchMembers` is stated for lists without repeats over planets with one resource per ticker, and the list lemmas for ticker lists of equal length. Material tickers are not unique in the material table (backend/gamedata/models/game_material.py), so a planet with two resources of one ticker is outside `SearchMembers`. `RepeatedTickerFindsNothing` covers repeated tickers.
- PlanetBulkImport.ImportAllPlanets: the failure on a null ticker is PostgreSQL's, the production database. With SQLite's `INSERT OR IGNORE`, used by the test settings, the row would be skipped instead. That is not modelled.
- VerificationService.ValidateCode, UserSerializer.CaptchaPasses, UserSerializer.ValidateEmail, PlanSchema.Canonical, PlanSchema.NormalizeCogc, PlanetSearch.ContainsIgnoringCase, ApiKeyAuth.ExtractKey, GamedataSerializer.ValidatePlanetId: case mapping and whitespace stripping (`Upper`, `Lower`, `Strip`) cover ASCII only. Python's `str.upper`, `str.lower` and `str.strip` are Unicode-aware: `"ı".upper()` is `"I"`, `"ſ".upper()` is `"S"`, the Kelvin sign lowercases to `k`, and `strip` removes non-breaking spaces. For text outside ASCII these members can differ from the source.
- Search by natural id (`search_by_planet_natural_id`) is a single lookup with no rule of its own and is not modelled.
- Print statements and logging, including the line printed when a verification is triggered.
- DRF field validators beyond those modelled: the bounds of the schemas and serializers are predicates on records, and the framework's own checks are not part of this model.
- The DRF viewsets other than the two junction endpoints, admin modules, settings, URL configuration, the legacy-migration commands, the analytics tasks and the schema files that only declare fields.

## Findings

| source | as written | input that shows it | evidently intended | confidence | as-written member | corrected member |
|---|---|---|---|---|---|---|
| backend/gamedata/gamedata_cache_manager.py:42-44 | the multiple-planet key is `GAMEDATA:planet:` followed by the ids, with no segment of its own | the ids `[X]`: the key is `GAMEDATA:planet:X`, the single-planet key of X, so a list response and a single-planet response share one entry | a key of its own for multiple-planet requests, distinct from every other kind of key, from which the ids can be recovered | not executed | GamedataCache.MultipleAsWrittenCollidesWithGet | GamedataCache.KeyPlanetMultiple (GamedataCache.SameKeySameKind, GamedataCache.PlanetMultipleKeyDeterminesIds) |
| backend/gamedata/tasks.py:75-84 | the refresh task ignores `import_planet`'s boolean result and records success after it returns | an empty fetch: `import_planet` returns False without raising, yet the planet is marked `ok` with error count 0; for a rolled-back import the recorded failure is overwritten | record success only when the import reports success, and otherwise keep the failure the import recorded | not executed | RefreshTasks.AsWrittenIgnoresImportResult (RefreshTasks.RefreshPlanetAsWritten) | RefreshTasks.RefreshPlanet (RefreshTasks.RefreshPlanetOutcome) |
| backend/gamedata/services/planet_search.py:41-49 | a planet matches when the number of its distinct resources whose ticker is listed equals the length of the list | materials `["FE", "FE"]` and a planet with an FE resource: one match against a length of 2, so no planet matches | every listed material is a resource of the planet; the two agree on lists without repeats and planets with one row per ticker | not executed | PlanetSearch.AsWrittenRejectsRepeatedTicker (PlanetSearch.Search, PlanetSearch.RepeatedTickerFindsNothing) | PlanetSearch.IntendedSearch (PlanetSearch.IntendedSearchMembers, PlanetSearch.IntendedListsAsSets, PlanetSearch.AsWrittenAgreesOnDistinctLists) |
