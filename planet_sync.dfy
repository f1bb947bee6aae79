/** Synchronisation of a planet's three child tables with a fetched planet
    record: resources by material id, COGC programs by window and
    production fees by (category, workforce level). Each is the generic
    reconciliation of `Reconcile` with its own key, update and creation. */
module PlanetSync {
  import opened Common
  import opened Sorting
  import opened KeyedSeq
  import opened Reconcile
  import opened PlanetModels
  import opened FioSchemas

  // ---------------------------------------------------------------------
  // Resources

  /** The ticker the sync stores: the material's ticker, or the empty text
      when the material table does not know the id. */
  function SyncTicker(materials: MaterialMap, materialId: string): string
  {
    if materialId in materials then materials[materialId] else ""
  }

  function ResourceKey(r: ResourceSchema): string
  {
    r.materialId
  }

  /** The columns a fetched record writes into a resource row: factor,
      type, daily extraction and ticker. */
  function ResourceUpdater(materials: MaterialMap): (Resource, ResourceSchema) -> Resource
  {
    (v: Resource, t: ResourceSchema) =>
      Resource(v.rowId, t.resourceType, t.factor, DailyExtraction(t.factor, t.resourceType),
               Some(SyncTicker(materials, t.materialId)))
  }

  function ResourceCreator(materials: MaterialMap): (ResourceSchema, nat) -> Resource
  {
    (t: ResourceSchema, id: nat) =>
      Resource(id, t.resourceType, t.factor, DailyExtraction(t.factor, t.resourceType),
               Some(SyncTicker(materials, t.materialId)))
  }

  function ResourcesSpec(table: ResourceTable, feed: seq<ResourceSchema>, materials: MaterialMap, nextId: nat): Option<ResourceTable>
  {
    ReconcileSpec(table, feed, ResourceKey, ResourceUpdater(materials), ResourceCreator(materials), nextId)
  }

  /** Overwrites every column a record sets, so a later record wins. */
  lemma ResourceOverwrites(materials: MaterialMap)
    ensures Overwrites(ResourceUpdater(materials))
    ensures forall t, id :: ResourceUpdater(materials)(ResourceCreator(materials)(t, id), t) == ResourceCreator(materials)(t, id)
  {
  }

  /** Updates the stored resources of one planet from the fetched list. */
  method SyncResources(table: ResourceTable, feed: seq<ResourceSchema>, materials: MaterialMap, nextId: nat)
    returns (r: Option<ResourceTable>)
    ensures r == ResourcesSpec(table, feed, materials, nextId)
  {
    ResourceOverwrites(materials);
    r := Synchronize(table, feed, ResourceKey, ResourceUpdater(materials), ResourceCreator(materials), nextId);
  }

  /** Afterwards the planet's material ids are exactly the fetched ones; the
      bulk creation fails only when a material id that is not stored is
      fetched twice. */
  lemma ResourcesKeys(table: ResourceTable, feed: seq<ResourceSchema>, materials: MaterialMap, nextId: nat)
    ensures var r := ResourcesSpec(table, feed, materials, nextId);
      && (r.None? <==> exists i, j :: 0 <= i < j < |feed| && feed[i].materialId == feed[j].materialId && feed[i].materialId !in table)
      && (r.Some? ==> r.value.Keys == set t | t in feed :: t.materialId)
  {
    ReconcileKeys(table, feed, ResourceKey, ResourceUpdater(materials), ResourceCreator(materials), nextId);
    var r := ResourcesSpec(table, feed, materials, nextId);
    if r.Some? {
      ReconcileKeySet(table, feed, ResourceKey, ResourceUpdater(materials), ResourceCreator(materials), nextId);
      assert (set t | t in feed :: ResourceKey(t)) == set t | t in feed :: t.materialId;
    }
  }

  /** A stored resource that is fetched keeps its row id and takes factor,
      type, daily extraction (60 per unit of factor for gaseous deposits, 70
      otherwise) and ticker ('' for an unknown material) from its last
      record. */
  lemma ResourcesStoredRow(table: ResourceTable, feed: seq<ResourceSchema>, materials: MaterialMap, nextId: nat, i: nat)
    requires i < |feed| && feed[i].materialId in table
    requires forall j :: i < j < |feed| ==> feed[j].materialId != feed[i].materialId
    requires ResourcesSpec(table, feed, materials, nextId).Some?
    ensures var r := ResourcesSpec(table, feed, materials, nextId).value;
      var t := feed[i];
      && t.materialId in r
      && r[t.materialId].rowId == table[t.materialId].rowId
      && r[t.materialId].factor == t.factor
      && r[t.materialId].resourceType == t.resourceType
      && r[t.materialId].dailyExtraction == (if t.resourceType == Gaseous then t.factor * 60.0 else t.factor * 70.0)
      && r[t.materialId].materialTicker == Some(if t.materialId in materials then materials[t.materialId] else "")
  {
    ReconcileKeepsStoredRows(table, feed, ResourceKey, ResourceUpdater(materials), ResourceCreator(materials), nextId, i);
  }

  /** A second sync with the same list creates, deletes and changes
      nothing. */
  lemma ResourcesIdempotent(table: ResourceTable, feed: seq<ResourceSchema>, materials: MaterialMap, nextId: nat, nextId2: nat)
    requires ResourcesSpec(table, feed, materials, nextId).Some?
    ensures var r := ResourcesSpec(table, feed, materials, nextId).value;
      ResourcesSpec(r, feed, materials, nextId2) == Some(r)
  {
    ResourceOverwrites(materials);
    ReconcileIdempotent(table, feed, ResourceKey, ResourceUpdater(materials), ResourceCreator(materials), nextId, nextId2);
  }

  // ---------------------------------------------------------------------
  // COGC programs

  function WindowOf(p: CogcProgramSchema): CogcKey
  {
    CogcKey(p.programType, p.startEpochMs, p.endEpochMs)
  }

  /** A matched program row is kept as it is. */
  function KeepRow(): (nat, CogcProgramSchema) -> nat
  {
    (v: nat, t: CogcProgramSchema) => v
  }

  function NewRow(): (CogcProgramSchema, nat) -> nat
  {
    (t: CogcProgramSchema, id: nat) => id
  }

  function ProgramsSpec(table: CogcTable, feed: seq<CogcProgramSchema>, nextId: nat): Option<CogcTable>
  {
    ReconcileSpec(table, feed, WindowOf, KeepRow(), NewRow(), nextId)
  }

  method SyncCogcPrograms(table: CogcTable, feed: seq<CogcProgramSchema>, nextId: nat)
    returns (r: Option<CogcTable>)
    ensures r == ProgramsSpec(table, feed, nextId)
  {
    r := Synchronize(table, feed, WindowOf, KeepRow(), NewRow(), nextId);
  }

  /** The stored windows afterwards are exactly the fetched ones, so an
      empty list deletes every program; matched rows keep their id, and
      new rows get distinct ids from `nextId` on. */
  lemma ProgramsReconciled(table: CogcTable, feed: seq<CogcProgramSchema>, nextId: nat)
    requires ProgramsSpec(table, feed, nextId).Some?
    ensures var r := ProgramsSpec(table, feed, nextId).value;
      && r.Keys == (set p | p in feed :: WindowOf(p))
      && (feed == [] ==> r == map[])
      && (forall k :: k in table && k in r ==> r[k] == table[k])
      && (forall k :: k in r && k !in table ==> r[k] >= nextId)
      && (forall k1, k2 :: k1 in r && k2 in r && k1 != k2 && k1 !in table && k2 !in table ==> r[k1] != r[k2])
  {
    var r := ProgramsSpec(table, feed, nextId).value;
    var ks := MapSeq(feed, WindowOf);
    ReconcileKeySet(table, feed, WindowOf, KeepRow(), NewRow(), nextId);
    forall k | k in r
      ensures k in table ==> r[k] == table[k]
      ensures k !in table ==> r[k] == nextId + NewIndex(feed, WindowOf, table.Keys, k)
    {
      ProgramRow(table, feed, nextId, k);
    }
    forall k1, k2 | k1 in r && k2 in r && k1 != k2 && k1 !in table && k2 !in table
      ensures r[k1] != r[k2]
    {
      NewIndexFresh(feed, WindowOf, table.Keys, k1, k2);
    }
  }

  /** A stored window keeps its row id; a new one gets the id of its place
      among the new windows. */
  lemma ProgramRow(table: CogcTable, feed: seq<CogcProgramSchema>, nextId: nat, k: CogcKey)
    requires ProgramsSpec(table, feed, nextId).Some?
    requires k in ProgramsSpec(table, feed, nextId).value
    ensures k in table ==> ProgramsSpec(table, feed, nextId).value[k] == table[k]
    ensures k !in table ==> ProgramsSpec(table, feed, nextId).value[k] == nextId + NewIndex(feed, WindowOf, table.Keys, k)
  {
  }

  lemma ProgramsIdempotent(table: CogcTable, feed: seq<CogcProgramSchema>, nextId: nat, nextId2: nat)
    requires ProgramsSpec(table, feed, nextId).Some?
    ensures var r := ProgramsSpec(table, feed, nextId).value;
      ProgramsSpec(r, feed, nextId2) == Some(r)
  {
    ReconcileIdempotent(table, feed, WindowOf, KeepRow(), NewRow(), nextId, nextId2);
  }

  // ---------------------------------------------------------------------
  // Production fees

  function FeeKeyOf(f: FeeSchema): FeeKey
  {
    FeeKey(f.category, f.workforceLevel)
  }

  /** A matched fee row takes the fetched amount and currency. */
  function FeeUpdater(): (Fee, FeeSchema) -> Fee
  {
    (v: Fee, t: FeeSchema) => Fee(v.rowId, t.feeAmount, t.feeCurrency)
  }

  function FeeCreator(): (FeeSchema, nat) -> Fee
  {
    (t: FeeSchema, id: nat) => Fee(id, t.feeAmount, t.feeCurrency)
  }

  function FeesSpec(table: FeeTable, feed: seq<FeeSchema>, nextId: nat): Option<FeeTable>
  {
    ReconcileSpec(table, feed, FeeKeyOf, FeeUpdater(), FeeCreator(), nextId)
  }

  method SyncProductionFees(table: FeeTable, feed: seq<FeeSchema>, nextId: nat)
    returns (r: Option<FeeTable>)
    ensures r == FeesSpec(table, feed, nextId)
  {
    r := Synchronize(table, feed, FeeKeyOf, FeeUpdater(), FeeCreator(), nextId);
  }

  /** The stored fee keys afterwards are exactly the fetched ones, so an
      empty list deletes every fee; a matched fee keeps its row id and
      takes the amount and currency of its last record. */
  lemma FeesReconciled(table: FeeTable, feed: seq<FeeSchema>, nextId: nat)
    requires FeesSpec(table, feed, nextId).Some?
    ensures var r := FeesSpec(table, feed, nextId).value;
      && r.Keys == (set f | f in feed :: FeeKeyOf(f))
      && (feed == [] ==> r == map[])
      && (forall i :: (0 <= i < |feed| && FeeKeyOf(feed[i]) in table
                       && forall j :: i < j < |feed| ==> FeeKeyOf(feed[j]) != FeeKeyOf(feed[i])) ==>
            r[FeeKeyOf(feed[i])] == Fee(table[FeeKeyOf(feed[i])].rowId, feed[i].feeAmount, feed[i].feeCurrency))
  {
    var r := FeesSpec(table, feed, nextId).value;
    ReconcileKeySet(table, feed, FeeKeyOf, FeeUpdater(), FeeCreator(), nextId);
    forall i | 0 <= i < |feed| && FeeKeyOf(feed[i]) in table
      && (forall j :: i < j < |feed| ==> FeeKeyOf(feed[j]) != FeeKeyOf(feed[i]))
      ensures r[FeeKeyOf(feed[i])] == Fee(table[FeeKeyOf(feed[i])].rowId, feed[i].feeAmount, feed[i].feeCurrency)
    {
      ReconcileKeepsStoredRows(table, feed, FeeKeyOf, FeeUpdater(), FeeCreator(), nextId, i);
    }
  }

  lemma FeesIdempotent(table: FeeTable, feed: seq<FeeSchema>, nextId: nat, nextId2: nat)
    requires FeesSpec(table, feed, nextId).Some?
    ensures var r := FeesSpec(table, feed, nextId).value;
      FeesSpec(r, feed, nextId2) == Some(r)
  {
    ReconcileIdempotent(table, feed, FeeKeyOf, FeeUpdater(), FeeCreator(), nextId, nextId2);
  }
}
