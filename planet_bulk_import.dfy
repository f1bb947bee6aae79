/** The full planet import: every planet of the feed is deleted (with its
    child rows) and created again from the feed, in one transaction; the
    child rows are inserted with conflicts ignored, so the first record of
    a key wins. A resource of an unknown material gets a null ticker, which
    its NOT NULL column refuses, so such a resource makes the whole
    transaction fail. Afterwards every cached planet response is purged. */
module PlanetBulkImport {
  import opened Common
  import opened PlanetModels
  import opened FioSchemas
  import opened PlanetSync
  import opened PlanetImport
  import opened CacheManager
  import Automation

  // ---------------------------------------------------------------------
  // Insertion with conflicts ignored

  /** Rows inserted in order where a row whose key is already present is
      skipped; the record at position `i` would get row id `nextId + i`. */
  function FirstWins<T, K, V>(items: seq<T>, key: T -> K, make: (T, nat) -> V, nextId: nat): map<K, V>
  {
    if |items| == 0 then map[]
    else
      var n := |items| - 1;
      var m := FirstWins(items[..n], key, make, nextId);
      if key(items[n]) in m then m else m[key(items[n]) := make(items[n], nextId + n)]
  }

  lemma {:induction false} FirstWinsKeys<T, K, V>(items: seq<T>, key: T -> K, make: (T, nat) -> V, nextId: nat)
    ensures FirstWins(items, key, make, nextId).Keys == set t | t in items :: key(t)
  {
    if |items| > 0 {
      var n := |items| - 1;
      FirstWinsKeys(items[..n], key, make, nextId);
      assert items == items[..n] + [items[n]];
    }
  }

  /** A record no earlier record shares a key with is the one stored. */
  lemma {:induction false} FirstWinsValue<T, K, V>(items: seq<T>, key: T -> K, make: (T, nat) -> V, nextId: nat, i: nat)
    requires i < |items|
    requires forall j :: 0 <= j < i ==> key(items[j]) != key(items[i])
    ensures key(items[i]) in FirstWins(items, key, make, nextId)
    ensures FirstWins(items, key, make, nextId)[key(items[i])] == make(items[i], nextId + i)
  {
    var n := |items| - 1;
    if i < n {
      FirstWinsValue(items[..n], key, make, nextId, i);
    } else {
      FirstWinsKeys(items[..n], key, make, nextId);
      forall t | t in items[..n]
        ensures key(t) != key(items[i])
      {
        var j :| 0 <= j < n && items[..n][j] == t;
        assert items[j] == t;
      }
    }
  }

  // ---------------------------------------------------------------------
  // The recreated planets

  /** A new resource row as the bulk path builds it: the ticker is null
      when the material is unknown. */
  function BulkResource(materials: MaterialMap): (ResourceSchema, nat) -> Resource
  {
    (t: ResourceSchema, id: nat) =>
      Resource(id, t.resourceType, t.factor, DailyExtraction(t.factor, t.resourceType),
               MaterialTicker(materials, t.materialId))
  }

  /** A planet created from its record with the column defaults (its
      refresh history starts over) and its child rows. */
  function FreshPlanet(p: PlanetSchema, materials: MaterialMap, ids: RowIds, now: int): Planet
  {
    Planet(Attributes(p), Automation.Initial(now),
           FirstWins(p.resources, ResourceKey, BulkResource(materials), ids.resource),
           FirstWins(p.cogcPrograms, WindowOf, NewRow(), ids.program),
           FirstWins(p.productionFees, FeeKeyOf, FeeCreator(), ids.fee))
  }

  /** The next free row ids after the child rows of `planets`. */
  function Advance(ids: RowIds, planets: seq<PlanetSchema>): RowIds
  {
    if |planets| == 0 then ids
    else
      Skip(Advance(ids, planets[..|planets| - 1]), planets[|planets| - 1])
  }

  /** The next free row ids once the rows of `p` are created. */
  function Skip(ids: RowIds, p: PlanetSchema): RowIds
  {
    RowIds(ids.resource + |p.resources|, ids.program + |p.cogcPrograms|, ids.fee + |p.productionFees|)
  }

  function Recreated(planets: seq<PlanetSchema>, materials: MaterialMap, ids: RowIds, now: int): PlanetTable
  {
    if |planets| == 0 then map[]
    else
      var n := |planets| - 1;
      Recreated(planets[..n], materials, ids, now)[planets[n].naturalId := FreshPlanet(planets[n], materials, Advance(ids, planets[..n]), now)]
  }

  function FetchedIds(planets: seq<PlanetSchema>): set<string>
  {
    set p | p in planets :: p.naturalId
  }

  predicate DistinctNaturalIds(planets: seq<PlanetSchema>)
  {
    forall i, j :: 0 <= i < j < |planets| ==> planets[i].naturalId != planets[j].naturalId
  }

  /** Creating the planets violates the primary key: two records share a
      planet id, or a planet that is not deleted holds one. */
  predicate PrimaryKeyClash(db: PlanetTable, planets: seq<PlanetSchema>)
  {
    || (exists i, j :: 0 <= i < j < |planets| && planets[i].planetId == planets[j].planetId)
    || (exists nid, i :: nid in db && nid !in FetchedIds(planets) && 0 <= i < |planets|
                         && db[nid].attrs.planetId == planets[i].planetId)
  }

  /** Some fetched resource names a material the material table does not
      know; its row would be inserted with a null ticker. */
  predicate NullTicker(planets: seq<PlanetSchema>, materials: MaterialMap)
  {
    exists i, k :: 0 <= i < |planets| && 0 <= k < |planets[i].resources|
                   && planets[i].resources[k].materialId !in materials
  }

  /** The planet table after the transaction, or `None` when it raises. */
  function BulkSpec(db: PlanetTable, planets: seq<PlanetSchema>, materials: MaterialMap, ids: RowIds, now: int): Option<PlanetTable>
  {
    if PrimaryKeyClash(db, planets) || NullTicker(planets, materials) then None
    else Some((map nid | nid in db && nid !in FetchedIds(planets) :: db[nid]) + Recreated(planets, materials, ids, now))
  }

  method RecreatePlanets(db: PlanetTable, planets: seq<PlanetSchema>, materials: MaterialMap, ids: RowIds, now: int)
    returns (r: Option<PlanetTable>)
    ensures r == BulkSpec(db, planets, materials, ids, now)
  {
    if PrimaryKeyClash(db, planets) {
      return None;
    }
    var created: PlanetTable := map[];
    var next := ids;
    var j := 0;
    while j < |planets|
      invariant 0 <= j <= |planets|
      invariant created == Recreated(planets[..j], materials, ids, now)
      invariant next == Advance(ids, planets[..j])
    {
      var p := planets[j];
      PrefixStep(planets, materials, ids, now, j);
      created := created[p.naturalId := FreshPlanet(p, materials, next, now)];
      next := Skip(next, p);
      j := j + 1;
    }
    if NullTicker(planets, materials) {
      return None;
    }
    assert planets[..|planets|] == planets;
    var fetched := set p | p in planets :: p.naturalId;
    var kept := map nid | nid in db && nid !in fetched :: db[nid];
    return Some(kept + created);
  }

  lemma PrefixStep(planets: seq<PlanetSchema>, materials: MaterialMap, ids: RowIds, now: int, j: nat)
    requires j < |planets|
    ensures var p := planets[j];
      && Recreated(planets[..j + 1], materials, ids, now)
         == Recreated(planets[..j], materials, ids, now)[p.naturalId := FreshPlanet(p, materials, Advance(ids, planets[..j]), now)]
      && Advance(ids, planets[..j + 1]) == Skip(Advance(ids, planets[..j]), p)
  {
    assert planets[..j + 1][..j] == planets[..j];
  }

  /** The task: the transaction, then the purge of every key containing
      `planet`, which runs only when the transaction commits. */
  method ImportAllPlanets(store: CacheStore, db: PlanetTable, planets: seq<PlanetSchema>, materials: MaterialMap,
                          ids: RowIds, now: int)
    returns (r: Option<PlanetTable>)
    modifies store
    ensures r == BulkSpec(db, planets, materials, ids, now)
    ensures store.entries == if r.Some? then RemoveMatching(old(store.entries), Infix("planet")) else old(store.entries)
  {
    r := RecreatePlanets(db, planets, materials, ids, now);
    if r.Some? {
      store.DeletePattern(Infix("planet"));
    }
  }

  // ---------------------------------------------------------------------
  // Properties

  lemma {:induction false} RecreatedKeys(planets: seq<PlanetSchema>, materials: MaterialMap, ids: RowIds, now: int)
    ensures Recreated(planets, materials, ids, now).Keys == FetchedIds(planets)
  {
    if |planets| > 0 {
      var n := |planets| - 1;
      RecreatedKeys(planets[..n], materials, ids, now);
      assert planets == planets[..n] + [planets[n]];
    }
  }

  /** Each fetched planet is created from its own record, with the row ids
      following those of the records before it. */
  lemma {:induction false} RecreatedAt(planets: seq<PlanetSchema>, materials: MaterialMap, ids: RowIds, now: int, i: nat)
    requires DistinctNaturalIds(planets) && i < |planets|
    ensures planets[i].naturalId in Recreated(planets, materials, ids, now)
    ensures Recreated(planets, materials, ids, now)[planets[i].naturalId]
         == FreshPlanet(planets[i], materials, Advance(ids, planets[..i]), now)
  {
    var n := |planets| - 1;
    if i < n {
      assert DistinctNaturalIds(planets[..n]);
      RecreatedAt(planets[..n], materials, ids, now, i);
      assert planets[..n][..i] == planets[..i];
    }
  }

  /** Only the fetched planets are replaced: the others keep their rows
      unchanged, and each fetched planet holds its record's columns with its
      refresh history reset to the defaults. */
  lemma BulkScope(db: PlanetTable, planets: seq<PlanetSchema>, materials: MaterialMap, ids: RowIds, now: int)
    requires DistinctNaturalIds(planets)
    requires BulkSpec(db, planets, materials, ids, now).Some?
    ensures var after := BulkSpec(db, planets, materials, ids, now).value;
      && after.Keys == db.Keys + FetchedIds(planets)
      && (forall nid :: nid in db && nid !in FetchedIds(planets) ==> after[nid] == db[nid])
      && (forall i :: 0 <= i < |planets| ==>
            && after[planets[i].naturalId].attrs == Attributes(planets[i])
            && after[planets[i].naturalId].automation == Automation.Initial(now))
  {
    RecreatedKeys(planets, materials, ids, now);
    forall i | 0 <= i < |planets|
      ensures BulkSpec(db, planets, materials, ids, now).value[planets[i].naturalId].attrs == Attributes(planets[i])
      ensures BulkSpec(db, planets, materials, ids, now).value[planets[i].naturalId].automation == Automation.Initial(now)
    {
      RecreatedAt(planets, materials, ids, now, i);
    }
  }

  /** The child rows of a recreated planet: one resource per fetched
      material id, of a material the table knows, the first record of each
      id giving factor, type, daily extraction and the material's ticker; one
      program per fetched window; one fee per fetched (category, level), from
      the first record. */
  lemma BulkChildren(db: PlanetTable, planets: seq<PlanetSchema>, materials: MaterialMap, ids: RowIds, now: int,
                     i: nat, k: nat, f: nat)
    requires DistinctNaturalIds(planets)
    requires BulkSpec(db, planets, materials, ids, now).Some?
    requires i < |planets|
    ensures var p := planets[i];
      var after := BulkSpec(db, planets, materials, ids, now).value;
      p.naturalId in after &&
      var planet := after[p.naturalId];
      && planet.resources.Keys == (set r | r in p.resources :: r.materialId)
      && planet.programs.Keys == (set c | c in p.cogcPrograms :: WindowOf(c))
      && planet.fees.Keys == (set e | e in p.productionFees :: FeeKeyOf(e))
      && (k < |p.resources| && (forall j :: 0 <= j < k ==> p.resources[j].materialId != p.resources[k].materialId) ==>
            var r := planet.resources[p.resources[k].materialId];
            && r.factor == p.resources[k].factor
            && r.resourceType == p.resources[k].resourceType
            && r.dailyExtraction == DailyExtraction(r.factor, r.resourceType)
            && p.resources[k].materialId in materials
            && r.materialTicker == Some(materials[p.resources[k].materialId]))
      && (f < |p.productionFees| && (forall j :: 0 <= j < f ==> FeeKeyOf(p.productionFees[j]) != FeeKeyOf(p.productionFees[f])) ==>
            var e := planet.fees[FeeKeyOf(p.productionFees[f])];
            e.feeAmount == p.productionFees[f].feeAmount && e.feeCurrency == p.productionFees[f].feeCurrency)
  {
    var p := planets[i];
    var next := Advance(ids, planets[..i]);
    RecreatedAt(planets, materials, ids, now, i);
    FirstWinsKeys(p.resources, ResourceKey, BulkResource(materials), next.resource);
    FirstWinsKeys(p.cogcPrograms, WindowOf, NewRow(), next.program);
    FirstWinsKeys(p.productionFees, FeeKeyOf, FeeCreator(), next.fee);
    if k < |p.resources| && (forall j :: 0 <= j < k ==> p.resources[j].materialId != p.resources[k].materialId) {
      FirstWinsValue(p.resources, ResourceKey, BulkResource(materials), next.resource, k);
    }
    if f < |p.productionFees| && (forall j :: 0 <= j < f ==> FeeKeyOf(p.productionFees[j]) != FeeKeyOf(p.productionFees[f])) {
      FirstWinsValue(p.productionFees, FeeKeyOf, FeeCreator(), next.fee, f);
    }
  }

  /** The transaction raises exactly when two records share a planet id, a
      planet that is not deleted holds a fetched planet id, or a fetched
      resource names an unknown material. */
  lemma BulkFailsIff(db: PlanetTable, planets: seq<PlanetSchema>, materials: MaterialMap, ids: RowIds, now: int)
    ensures BulkSpec(db, planets, materials, ids, now).None? <==>
      || (exists i, j :: 0 <= i < j < |planets| && planets[i].planetId == planets[j].planetId)
      || (exists nid, i :: nid in db && nid !in FetchedIds(planets) && 0 <= i < |planets|
                           && db[nid].attrs.planetId == planets[i].planetId)
      || (exists i, k :: 0 <= i < |planets| && 0 <= k < |planets[i].resources|
                         && planets[i].resources[k].materialId !in materials)
  {
  }

  /** A committed import keeps the planet table consistent: each planet
      under its own natural id, planet ids unique. */
  lemma BulkKeepsConsistent(db: PlanetTable, planets: seq<PlanetSchema>, materials: MaterialMap, ids: RowIds, now: int)
    requires Consistent(db) && DistinctNaturalIds(planets)
    requires BulkSpec(db, planets, materials, ids, now).Some?
    ensures Consistent(BulkSpec(db, planets, materials, ids, now).value)
  {
    var after := BulkSpec(db, planets, materials, ids, now).value;
    var fetched := FetchedIds(planets);
    forall nid | nid in after
      ensures after[nid].attrs.naturalId == nid
    {
      if nid in fetched {
        var i := BulkRowSource(db, planets, materials, ids, now, nid);
      } else {
        BulkRowKept(db, planets, materials, ids, now, nid);
      }
    }
    forall n1, n2 | n1 in after && n2 in after && n1 != n2
      ensures after[n1].attrs.planetId != after[n2].attrs.planetId
    {
      if n1 in fetched && n2 in fetched {
        var i1 := BulkRowSource(db, planets, materials, ids, now, n1);
        var i2 := BulkRowSource(db, planets, materials, ids, now, n2);
        assert !(0 <= i1 < i2 < |planets| && planets[i1].planetId == planets[i2].planetId);
        assert !(0 <= i2 < i1 < |planets| && planets[i2].planetId == planets[i1].planetId);
      } else if n1 in fetched {
        var i1 := BulkRowSource(db, planets, materials, ids, now, n1);
        BulkRowKept(db, planets, materials, ids, now, n2);
        assert !(n2 in db && n2 !in fetched && 0 <= i1 < |planets| && db[n2].attrs.planetId == planets[i1].planetId);
      } else if n2 in fetched {
        var i2 := BulkRowSource(db, planets, materials, ids, now, n2);
        BulkRowKept(db, planets, materials, ids, now, n1);
        assert !(n1 in db && n1 !in fetched && 0 <= i2 < |planets| && db[n1].attrs.planetId == planets[i2].planetId);
      } else {
        BulkRowKept(db, planets, materials, ids, now, n1);
        BulkRowKept(db, planets, materials, ids, now, n2);
      }
    }
  }

  /** A fetched planet's row after the import is recreated from its record. */
  lemma BulkRowSource(db: PlanetTable, planets: seq<PlanetSchema>, materials: MaterialMap, ids: RowIds, now: int, nid: string)
    returns (i: nat)
    requires DistinctNaturalIds(planets) && BulkSpec(db, planets, materials, ids, now).Some?
    requires nid in FetchedIds(planets)
    ensures i < |planets| && planets[i].naturalId == nid
    ensures nid in BulkSpec(db, planets, materials, ids, now).value
    ensures BulkSpec(db, planets, materials, ids, now).value[nid].attrs.naturalId == nid
    ensures BulkSpec(db, planets, materials, ids, now).value[nid].attrs.planetId == planets[i].planetId
  {
    var p :| p in planets && p.naturalId == nid;
    i :| 0 <= i < |planets| && planets[i] == p;
    RecreatedAt(planets, materials, ids, now, i);
  }

  /** A stored planet the import did not fetch keeps its row. */
  lemma BulkRowKept(db: PlanetTable, planets: seq<PlanetSchema>, materials: MaterialMap, ids: RowIds, now: int, nid: string)
    requires BulkSpec(db, planets, materials, ids, now).Some?
    requires nid in BulkSpec(db, planets, materials, ids, now).value && nid !in FetchedIds(planets)
    ensures nid in db && BulkSpec(db, planets, materials, ids, now).value[nid] == db[nid]
  {
    RecreatedKeys(planets, materials, ids, now);
  }

  /** The two import paths treat a material the material table does not
      know differently: the per-planet sync stores an empty ticker, while
      the full import fails as a whole and replaces no planet. */
  lemma UnknownMaterialOutcomes(db: PlanetTable, planets: seq<PlanetSchema>, materials: MaterialMap, ids: RowIds,
                                now: int, i: nat, k: nat, id: nat)
    requires i < |planets| && k < |planets[i].resources|
    requires planets[i].resources[k].materialId !in materials
    ensures ResourceCreator(materials)(planets[i].resources[k], id).materialTicker == Some("")
    ensures BulkSpec(db, planets, materials, ids, now).None?
  {
    assert NullTicker(planets, materials);
  }
}
