/** Import of one planet from the game-data feed: the planet row is
    updated or created by natural id, its three child tables are
    synchronised, and the refresh outcome is recorded, all in one
    transaction. */
module PlanetImport {
  import opened Common
  import opened PlanetModels
  import opened FioSchemas
  import opened PlanetSync
  import Automation

  /** The next free row id of each child table. */
  datatype RowIds = RowIds(resource: nat, program: nat, fee: nat)

  /** A planet stored under a natural id carries that natural id, and no
      two stored planets share a planet id (the primary key). */
  predicate Consistent(db: PlanetTable)
  {
    && (forall nid :: nid in db ==> db[nid].attrs.naturalId == nid)
    && (forall n1, n2 :: n1 in db && n2 in db && db[n1].attrs.planetId == db[n2].attrs.planetId ==> n1 == n2)
  }

  /** Another stored planet already holds the fetched planet id. For a
      natural id not stored yet the create inserts that id and violates the
      primary key; for a stored natural id the model reports the same
      failure, where the source's save overwrites the other planet's row
      (see the README's "Left out"). */
  predicate PlanetIdTaken(db: PlanetTable, p: PlanetSchema)
  {
    exists nid :: nid in db && nid != p.naturalId && db[nid].attrs.planetId == p.planetId
  }

  /** The row the update-or-create leaves before the children are synced:
      a stored planet keeps its automation columns and child rows, a new
      one starts from the column defaults with no children. The stored
      planet is assumed to be fetched with its stored planet id. */
  function Base(db: PlanetTable, p: PlanetSchema, now: int): Planet
  {
    if p.naturalId in db then db[p.naturalId].(attrs := Attributes(p))
    else Planet(Attributes(p), Automation.Initial(now), map[], map[], map[])
  }

  /** The planet after a transaction that succeeds, or `None` when some
      write inside it raises. */
  function Synced(db: PlanetTable, p: PlanetSchema, materials: MaterialMap, ids: RowIds, now: int): Option<Planet>
  {
    var base := Base(db, p, now);
    var res := ResourcesSpec(base.resources, p.resources, materials, ids.resource);
    var progs := ProgramsSpec(base.programs, p.cogcPrograms, ids.program);
    var fees := FeesSpec(base.fees, p.productionFees, ids.fee);
    if PlanetIdTaken(db, p) || res.None? || progs.None? || fees.None? then None
    else Some(base.(automation := Automation.RecordSuccess(base.automation, now),
                    resources := res.value, programs := progs.value, fees := fees.value))
  }

  /** After the rollback, the failure is recorded on the stored planet with
      the fetched planet id, when there is one. */
  function RecordFailureFor(db: PlanetTable, planetId: string, message: string, now: int): PlanetTable
  {
    map nid | nid in db ::
      if db[nid].attrs.planetId == planetId
      then db[nid].(automation := Automation.RecordFailure(db[nid].automation, message, now, PLANET_RETRY_DELAY_MINUTES))
      else db[nid]
  }

  datatype ImportResult = ImportResult(ok: bool, db: PlanetTable)

  /** The whole import: `fetched` is the feed's answer (absent when it has
      no data), `message` the text of the exception a failing write
      raises. */
  function ImportPlanetSpec(db: PlanetTable, fetched: Option<PlanetSchema>, materials: MaterialMap,
                            ids: RowIds, message: string, now: int): ImportResult
  {
    if fetched.None? then ImportResult(false, db)
    else
      var p := fetched.value;
      match Synced(db, p, materials, ids, now)
      case Some(planet) => ImportResult(true, db[p.naturalId := planet])
      case None => ImportResult(false, RecordFailureFor(db, p.planetId, message, now))
  }

  method ImportPlanet(db: PlanetTable, fetched: Option<PlanetSchema>, materials: MaterialMap,
                      ids: RowIds, message: string, now: int)
    returns (ok: bool, after: PlanetTable)
    ensures ImportResult(ok, after) == ImportPlanetSpec(db, fetched, materials, ids, message, now)
  {
    if fetched.None? {
      return false, db;
    }
    var p := fetched.value;
    var base := Base(db, p, now);
    var failed := PlanetIdTaken(db, p);
    var resources: Option<ResourceTable> := None;
    var programs: Option<CogcTable> := None;
    var fees: Option<FeeTable> := None;
    if !failed {
      resources := SyncResources(base.resources, p.resources, materials, ids.resource);
      failed := resources.None?;
    }
    if !failed {
      programs := SyncCogcPrograms(base.programs, p.cogcPrograms, ids.program);
      failed := programs.None?;
    }
    if !failed {
      fees := SyncProductionFees(base.fees, p.productionFees, ids.fee);
      failed := fees.None?;
    }
    if failed {
      // the transaction rolled back; only the failure is written
      ok, after := false, RecordFailureFor(db, p.planetId, message, now);
    } else {
      var planet := base.(automation := Automation.RecordSuccess(base.automation, now),
                          resources := resources.value, programs := programs.value, fees := fees.value);
      ok, after := true, db[p.naturalId := planet];
    }
  }

  // ---------------------------------------------------------------------
  // Outcomes

  /** No data from the feed: nothing is written and the import reports
      failure. */
  lemma NoDataNoWrites(db: PlanetTable, materials: MaterialMap, ids: RowIds, message: string, now: int)
    ensures ImportPlanetSpec(db, None, materials, ids, message, now) == ImportResult(false, db)
  {
  }

  /** The import succeeds exactly when no write raises: the planet id is
      free and none of the three child lists repeats a key that is not
      stored yet. */
  lemma ImportSucceedsIff(db: PlanetTable, p: PlanetSchema, materials: MaterialMap, ids: RowIds, message: string, now: int)
    ensures var base := Base(db, p, now);
      ImportPlanetSpec(db, Some(p), materials, ids, message, now).ok
      <==> && !PlanetIdTaken(db, p)
           && !(exists i, j :: 0 <= i < j < |p.resources| && p.resources[i].materialId == p.resources[j].materialId
                              && p.resources[i].materialId !in base.resources)
           && ProgramsSpec(base.programs, p.cogcPrograms, ids.program).Some?
           && FeesSpec(base.fees, p.productionFees, ids.fee).Some?
  {
    var base := Base(db, p, now);
    ResourcesKeys(base.resources, p.resources, materials, ids.resource);
  }

  /** On success the planet holds the fetched columns and synced children,
      its refresh is recorded as `ok` at `now` with no error, and every
      other planet is unchanged. */
  lemma SuccessEffect(db: PlanetTable, p: PlanetSchema, materials: MaterialMap, ids: RowIds, message: string, now: int)
    requires ImportPlanetSpec(db, Some(p), materials, ids, message, now).ok
    ensures var after := ImportPlanetSpec(db, Some(p), materials, ids, message, now).db;
      var base := Base(db, p, now);
      && after.Keys == db.Keys + {p.naturalId}
      && after[p.naturalId].attrs == Attributes(p)
      && after[p.naturalId].automation.status == Automation.Ok
      && after[p.naturalId].automation.errorCount == 0
      && after[p.naturalId].automation.error == None
      && after[p.naturalId].automation.lastRefreshedAt == now
      && Some(after[p.naturalId].resources) == ResourcesSpec(base.resources, p.resources, materials, ids.resource)
      && Some(after[p.naturalId].programs) == ProgramsSpec(base.programs, p.cogcPrograms, ids.program)
      && Some(after[p.naturalId].fees) == FeesSpec(base.fees, p.productionFees, ids.fee)
      && (forall nid :: nid in db && nid != p.naturalId ==> after[nid] == db[nid])
  {
  }

  /** On failure nothing of the import survives the rollback: no planet is
      created, no column or child row changes, and only the stored planet
      with the fetched planet id has the failure recorded (one more error,
      `retrying` or `failed`, its last successful refresh time kept). */
  lemma FailureEffect(db: PlanetTable, p: PlanetSchema, materials: MaterialMap, ids: RowIds, message: string, now: int)
    requires !ImportPlanetSpec(db, Some(p), materials, ids, message, now).ok
    ensures var after := ImportPlanetSpec(db, Some(p), materials, ids, message, now).db;
      && after.Keys == db.Keys
      && (forall nid :: nid in db ==>
            && after[nid].attrs == db[nid].attrs
            && after[nid].resources == db[nid].resources
            && after[nid].programs == db[nid].programs
            && after[nid].fees == db[nid].fees)
      && (forall nid :: nid in db && db[nid].attrs.planetId != p.planetId ==> after[nid] == db[nid])
      && (forall nid :: nid in db && db[nid].attrs.planetId == p.planetId ==>
            && after[nid].automation.errorCount == db[nid].automation.errorCount + 1
            && after[nid].automation.lastRefreshedAt == db[nid].automation.lastRefreshedAt
            && after[nid].automation.status in {Automation.Retrying, Automation.Failed})
  {
    assert ImportPlanetSpec(db, Some(p), materials, ids, message, now).db == RecordFailureFor(db, p.planetId, message, now);
    RecordFailureEffect(db, p.planetId, message, now);
  }

  lemma RecordFailureEffect(db: PlanetTable, planetId: string, message: string, now: int)
    ensures var after := RecordFailureFor(db, planetId, message, now);
      && after.Keys == db.Keys
      && (forall nid :: nid in db ==>
            && after[nid].attrs == db[nid].attrs
            && after[nid].resources == db[nid].resources
            && after[nid].programs == db[nid].programs
            && after[nid].fees == db[nid].fees)
      && (forall nid :: nid in db && db[nid].attrs.planetId != planetId ==> after[nid] == db[nid])
      && (forall nid :: nid in db && db[nid].attrs.planetId == planetId ==>
            && after[nid].automation.errorCount == db[nid].automation.errorCount + 1
            && after[nid].automation.lastRefreshedAt == db[nid].automation.lastRefreshedAt
            && after[nid].automation.status in {Automation.Retrying, Automation.Failed}
            && (after[nid].automation.status == Automation.Retrying ==>
                  after[nid].automation.nextRetryAt == Some(now + PLANET_RETRY_DELAY_MINUTES * 60)))
  {
  }

  /** The import keeps the stored planets consistent. */
  lemma ImportKeepsConsistent(db: PlanetTable, fetched: Option<PlanetSchema>, materials: MaterialMap,
                              ids: RowIds, message: string, now: int)
    requires Consistent(db)
    ensures Consistent(ImportPlanetSpec(db, fetched, materials, ids, message, now).db)
  {
    if fetched.Some? {
      var p := fetched.value;
      var synced := Synced(db, p, materials, ids, now);
      if synced.Some? {
        assert !PlanetIdTaken(db, p) && synced.value.attrs == Attributes(p);
        WriteKeepsConsistent(db, p, synced.value);
      } else {
        RecordFailureEffect(db, p.planetId, message, now);
      }
    }
  }

  /** Writing a planet whose id no other stored planet holds, under its own
      natural id, keeps the table consistent. */
  lemma WriteKeepsConsistent(db: PlanetTable, p: PlanetSchema, planet: Planet)
    requires Consistent(db) && !PlanetIdTaken(db, p) && planet.attrs == Attributes(p)
    ensures Consistent(db[p.naturalId := planet])
  {
  }

  /** Importing the same data twice in a row leaves the child tables as the
      first import left them. */
  lemma ImportTwiceSameChildren(db: PlanetTable, p: PlanetSchema, materials: MaterialMap, ids: RowIds, ids2: RowIds,
                                message: string, now: int, later: int)
    requires ImportPlanetSpec(db, Some(p), materials, ids, message, now).ok
    ensures var once := ImportPlanetSpec(db, Some(p), materials, ids, message, now).db;
      var twice := ImportPlanetSpec(once, Some(p), materials, ids2, message, later);
      && twice.ok
      && twice.db[p.naturalId].resources == once[p.naturalId].resources
      && twice.db[p.naturalId].programs == once[p.naturalId].programs
      && twice.db[p.naturalId].fees == once[p.naturalId].fees
  {
    var base := Base(db, p, now);
    ResourcesIdempotent(base.resources, p.resources, materials, ids.resource, ids2.resource);
    ProgramsIdempotent(base.programs, p.cogcPrograms, ids.program, ids2.program);
    FeesIdempotent(base.fees, p.productionFees, ids.fee, ids2.fee);
    var once := ImportPlanetSpec(db, Some(p), materials, ids, message, now).db;
    assert !PlanetIdTaken(db, p);
    assert !PlanetIdTaken(once, p) by {
      forall nid | nid in once && nid != p.naturalId
        ensures once[nid].attrs.planetId != p.planetId
      {
        assert once[nid] == db[nid];
      }
    }
  }
}
