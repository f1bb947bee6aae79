/** The empire-plan junction endpoint: the user posts, for each of their
    empires, the plans it should hold; the stored links of the user are
    brought to exactly that pair set by deleting the surplus links and
    creating the missing ones, and the user's cache namespace is purged
    when something changed. */
module EmpireJunctions {
  import opened CacheManager
  import opened PlanningCache

  type Uuid = string

  /** One link row: at most one per (empire, plan). */
  datatype Pair = Pair(empire: Uuid, plan: Uuid)

  /** One item of the payload: an empire and the plans it should hold. */
  datatype JunctionItem = JunctionItem(empireUuid: Uuid, plans: seq<Uuid>)

  /** The user's stored links: pair -> junction row uuid. */
  type Links = map<Pair, Uuid>

  datatype EmpireSyncResult =
    | Forbidden(invalidEmpires: set<Uuid>, invalidPlans: set<Uuid>)  // 403, nothing written
    | Updated(links: Links, purged: bool)                            // 200

  function RequestedEmpires(payload: seq<JunctionItem>): set<Uuid>
  {
    set item | item in payload :: item.empireUuid
  }

  function RequestedPlans(payload: seq<JunctionItem>): set<Uuid>
  {
    set item, p | item in payload && p in item.plans :: p
  }

  /** The pairs of one empire with a list of plans. */
  function PlanPairs(empire: Uuid, plans: seq<Uuid>): set<Pair>
  {
    set p | p in plans :: Pair(empire, p)
  }

  /** The desired pair set, item by item. */
  function PairsOf(payload: seq<JunctionItem>): set<Pair>
  {
    if |payload| == 0 then {}
    else
      var item := payload[|payload| - 1];
      PairsOf(payload[..|payload| - 1]) + PlanPairs(item.empireUuid, item.plans)
  }

  /** The endpoint's effect on the user's links. `newUuid` names the uuid a
      created junction row receives. */
  function SyncSpec(links: Links, ownedEmpires: set<Uuid>, ownedPlans: set<Uuid>,
                    payload: seq<JunctionItem>, newUuid: Pair -> Uuid): EmpireSyncResult
  {
    var badEmpires := RequestedEmpires(payload) - ownedEmpires;
    var badPlans := RequestedPlans(payload) - ownedPlans;
    if badEmpires != {} || badPlans != {} then Forbidden(badEmpires, badPlans)
    else
      var desired := PairsOf(payload);
      var toDelete := links.Keys - desired;
      var toCreate := desired - links.Keys;
      Updated(Apply(links, toDelete, toCreate, newUuid), toDelete != {} || toCreate != {})
  }

  /** Deletes the links of `toDelete` and creates one row per pair of
      `toCreate`. */
  function Apply(links: Links, toDelete: set<Pair>, toCreate: set<Pair>, newUuid: Pair -> Uuid): Links
  {
    (map p | p in links && p !in toDelete :: links[p]) + (map p | p in toCreate :: newUuid(p))
  }

  method SyncEmpireJunctions(links: Links, ownedEmpires: set<Uuid>, ownedPlans: set<Uuid>,
                             payload: seq<JunctionItem>, newUuid: Pair -> Uuid)
    returns (result: EmpireSyncResult)
    ensures result == SyncSpec(links, ownedEmpires, ownedPlans, payload, newUuid)
  {
    var badEmpires := RequestedEmpires(payload) - ownedEmpires;
    var badPlans := RequestedPlans(payload) - ownedPlans;
    if badEmpires != {} || badPlans != {} {
      return Forbidden(badEmpires, badPlans);
    }
    var desired: set<Pair> := {};
    for i := 0 to |payload|
      invariant desired == PairsOf(payload[..i])
    {
      var item := payload[i];
      assert payload[..i + 1][..i] == payload[..i];
      for j := 0 to |item.plans|
        invariant desired == PairsOf(payload[..i]) + PlanPairs(item.empireUuid, item.plans[..j])
      {
        assert item.plans[..j + 1] == item.plans[..j] + [item.plans[j]];
        desired := desired + {Pair(item.empireUuid, item.plans[j])};
      }
      assert item.plans[..|item.plans|] == item.plans;
    }
    assert payload[..|payload|] == payload;
    var toDelete := links.Keys - desired;
    var toCreate := desired - links.Keys;
    result := Updated(Apply(links, toDelete, toCreate, newUuid), toDelete != {} || toCreate != {});
  }

  /** The endpoint with its cache side: the namespace `*PLANNING:{user}:*`
      is purged after the transaction exactly when links changed. */
  method SyncEmpireJunctionsAndPurge(store: CacheStore, userId: nat, links: Links, ownedEmpires: set<Uuid>,
                                     ownedPlans: set<Uuid>, payload: seq<JunctionItem>, newUuid: Pair -> Uuid)
    returns (result: EmpireSyncResult)
    modifies store
    ensures result == SyncSpec(links, ownedEmpires, ownedPlans, payload, newUuid)
    ensures store.entries == if result.Updated? && result.purged
                             then RemoveMatching(old(store.entries), UserNamespace(userId))
                             else old(store.entries)
  {
    result := SyncEmpireJunctions(links, ownedEmpires, ownedPlans, payload, newUuid);
    if result.Updated? && result.purged {
      store.DeletePattern(UserNamespace(userId));
    }
  }

  // ---------------------------------------------------------------------
  // Properties

  /** The desired pairs are exactly the (empire, plan) combinations some
      item of the payload names. */
  lemma {:induction false} PairsOfMembers(payload: seq<JunctionItem>, e: Uuid, p: Uuid)
    ensures Pair(e, p) in PairsOf(payload)
            <==> exists i :: 0 <= i < |payload| && payload[i].empireUuid == e && p in payload[i].plans
  {
    if |payload| > 0 {
      var n := |payload| - 1;
      PairsOfMembers(payload[..n], e, p);
      if Pair(e, p) in PairsOf(payload[..n]) {
        var i :| 0 <= i < n && payload[..n][i].empireUuid == e && p in payload[..n][i].plans;
        assert payload[i] == payload[..n][i];
      }
      if i :| 0 <= i < |payload| && payload[i].empireUuid == e && p in payload[i].plans {
        if i < n {
          assert payload[..n][i] == payload[i];
        }
      }
    }
  }

  /** The request is refused exactly when it names an empire or a plan the
      user does not own, and the refusal lists each such uuid and no other. */
  lemma ForbiddenIff(links: Links, ownedEmpires: set<Uuid>, ownedPlans: set<Uuid>,
                     payload: seq<JunctionItem>, newUuid: Pair -> Uuid)
    ensures var r := SyncSpec(links, ownedEmpires, ownedPlans, payload, newUuid);
      && (r.Forbidden? <==> exists item :: item in payload && (item.empireUuid !in ownedEmpires
                                                                || exists p :: p in item.plans && p !in ownedPlans))
      && (r.Forbidden? ==> forall e :: e in r.invalidEmpires <==> e !in ownedEmpires && exists item :: item in payload && item.empireUuid == e)
      && (r.Forbidden? ==> forall p :: p in r.invalidPlans <==> p !in ownedPlans && exists item :: item in payload && p in item.plans)
  {
    var r := SyncSpec(links, ownedEmpires, ownedPlans, payload, newUuid);
    if exists item :: item in payload && (item.empireUuid !in ownedEmpires || exists p :: p in item.plans && p !in ownedPlans) {
      var item :| item in payload && (item.empireUuid !in ownedEmpires || exists p :: p in item.plans && p !in ownedPlans);
      if item.empireUuid !in ownedEmpires {
        assert item.empireUuid in RequestedEmpires(payload) - ownedEmpires;
      } else {
        var p :| p in item.plans && p !in ownedPlans;
        assert p in RequestedPlans(payload) - ownedPlans;
      }
    }
  }

  /** After a successful sync the user's links are exactly the desired
      pairs; a pair linked before and after keeps its junction row, and each
      new pair gets a newly created row. */
  lemma StoredPairsAreDesired(links: Links, ownedEmpires: set<Uuid>, ownedPlans: set<Uuid>,
                              payload: seq<JunctionItem>, newUuid: Pair -> Uuid)
    requires SyncSpec(links, ownedEmpires, ownedPlans, payload, newUuid).Updated?
    ensures var after := SyncSpec(links, ownedEmpires, ownedPlans, payload, newUuid).links;
      && (forall e, p :: Pair(e, p) in after
            <==> exists i :: 0 <= i < |payload| && payload[i].empireUuid == e && p in payload[i].plans)
      && (forall pair :: pair in after && pair in links ==> after[pair] == links[pair])
      && (forall pair :: pair in after && pair !in links ==> after[pair] == newUuid(pair))
  {
    var after := SyncSpec(links, ownedEmpires, ownedPlans, payload, newUuid).links;
    assert after.Keys == PairsOf(payload);
    forall e, p
      ensures Pair(e, p) in after
              <==> exists i :: 0 <= i < |payload| && payload[i].empireUuid == e && p in payload[i].plans
    {
      PairsOfMembers(payload, e, p);
    }
  }

  /** An empty payload deletes every link of the user, and purges exactly
      when the user had links. */
  lemma EmptyPayloadDeletesAll(links: Links, ownedEmpires: set<Uuid>, ownedPlans: set<Uuid>, newUuid: Pair -> Uuid)
    ensures SyncSpec(links, ownedEmpires, ownedPlans, [], newUuid) == Updated(map[], links != map[])
  {
    var r := SyncSpec(links, ownedEmpires, ownedPlans, [], newUuid);
    assert r.links.Keys == {};
    if links != map[] {
      var p :| p in links;
      assert p in links.Keys - PairsOf([]);
    }
  }

  /** The namespace is purged exactly when the links changed. */
  lemma PurgeIffChanged(links: Links, ownedEmpires: set<Uuid>, ownedPlans: set<Uuid>,
                        payload: seq<JunctionItem>, newUuid: Pair -> Uuid)
    requires SyncSpec(links, ownedEmpires, ownedPlans, payload, newUuid).Updated?
    ensures var r := SyncSpec(links, ownedEmpires, ownedPlans, payload, newUuid);
      r.purged <==> r.links != links
  {
    var r := SyncSpec(links, ownedEmpires, ownedPlans, payload, newUuid);
    var desired := PairsOf(payload);
    assert r.links.Keys == desired;
    if r.purged {
      if links.Keys - desired != {} {
        var p :| p in links.Keys - desired;
        assert p !in r.links;
      } else {
        var p :| p in desired - links.Keys;
        assert p in r.links;
      }
    } else {
      assert desired == links.Keys;
      forall p | p in links
        ensures r.links[p] == links[p]
      {
      }
    }
  }

  /** Repeating the same request changes nothing and purges nothing, whatever
      uuids new rows would receive. */
  lemma RepeatIsNoop(links: Links, ownedEmpires: set<Uuid>, ownedPlans: set<Uuid>,
                     payload: seq<JunctionItem>, newUuid: Pair -> Uuid, newUuid2: Pair -> Uuid)
    requires SyncSpec(links, ownedEmpires, ownedPlans, payload, newUuid).Updated?
    ensures var once := SyncSpec(links, ownedEmpires, ownedPlans, payload, newUuid).links;
      SyncSpec(once, ownedEmpires, ownedPlans, payload, newUuid2) == Updated(once, false)
  {
    var once := SyncSpec(links, ownedEmpires, ownedPlans, payload, newUuid).links;
    assert once.Keys == PairsOf(payload);
    PurgeIffChanged(once, ownedEmpires, ownedPlans, payload, newUuid2);
  }
}
