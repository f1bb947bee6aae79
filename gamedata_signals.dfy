/** Cache invalidation after a game-data row is saved or deleted: a planet
    change drops that planet's detail response (and with it the one-planet
    multiple response stored under the same key), a change to a user's FIO
    player data drops that user's storage response. Both wait for the
    commit. */
module GamedataSignals {
  import opened Common
  import opened CacheManager
  import opened GamedataCache
  import opened Sorting

  datatype Change =
    | PlanetChanged(naturalId: string)
    | PlayerDataChanged(userId: nat)

  predicate WellFormedChange(c: Change)
  {
    c.PlanetChanged? ==> |c.naturalId| == 7 && ':' !in c.naturalId
  }

  /** The endpoint whose cached response each handler drops. */
  function Target(c: Change): Endpoint
  {
    match c
    case PlanetChanged(id) => PlanetGet(id)
    case PlayerDataChanged(u) => Storage(u)
  }

  function Purges(c: Change): seq<Purge>
  {
    match c
    case PlanetChanged(id) => [DeleteKey(KeyPlanetGet(id))]
    case PlayerDataChanged(u) => [DeleteKey(KeyUserStorage(u))]
  }

  method HandleChange(tx: Transaction, c: Change)
    modifies tx
    ensures tx.callbacks == old(tx.callbacks) + Purges(c)
  {
    match c
    case PlanetChanged(id) => tx.OnCommit([DeleteKey(KeyPlanetGet(id))]);
    case PlayerDataChanged(u) => tx.OnCommit([DeleteKey(KeyUserStorage(u))]);
  }

  /** A multiple-planet request served under the key a change purges is
      the one-planet request for the changed planet. */
  lemma MultipleServedUnderTarget(c: Change, e: Endpoint)
    requires WellFormedChange(c) && WellFormed(e) && e.PlanetMultiple?
    requires ServedKey(e) == ServedKey(Target(c))
    ensures c.PlanetChanged? && e.naturalIds == [c.naturalId]
  {
    var t := Target(c);
    var tail := MapSeq(e.naturalIds, TextPart);
    var p := [Text("planet")] + tail;
    TextPartsClean(e.naturalIds);
    PartsTextCons(Text("planet"), tail);
    assert AllClean(p) by {
      forall k | 0 <= k < |p| ensures Clean(p[k]) {
        if k > 0 {
          assert p[k] == tail[k - 1];
        }
      }
    }
    PartsClean(t);
    MakeKeyInjective(BASE_KEY, p, Parts(t));
    PartsHead(t);
    if c.PlanetChanged? {
      PartsTextCons(Text(c.naturalId), []);
      PartsTextCons(Text("planet"), [Text(c.naturalId)]);
      assert [Text("planet")] + [Text(c.naturalId)] == Parts(t);
      assert e.naturalIds == (["planet"] + e.naturalIds)[1..];
    }
  }

  /** As served, the key a change purges is shared by exactly the target
      and, for a planet change, the multiple-planet request for that one
      planet. */
  lemma TargetKeyUnique(c: Change, e: Endpoint)
    requires WellFormedChange(c) && WellFormed(e)
    ensures ServedKey(e) == ServedKey(Target(c)) <==>
      e == Target(c) || (c.PlanetChanged? && e == PlanetMultiple([c.naturalId]))
  {
    var t := Target(c);
    if c.PlanetChanged? && e == PlanetMultiple([c.naturalId]) {
      ServedMultipleSharesGetEntry(c.naturalId);
    } else if ServedKey(e) == ServedKey(t) {
      if e.PlanetMultiple? {
        MultipleServedUnderTarget(c, e);
      } else {
        SameKeySameKind(e, t);
        PartsClean(e);
        PartsClean(t);
        MakeKeyInjective(BASE_KEY, Parts(e), Parts(t));
        PartsHead(e);
        PartsHead(t);
        if c.PlayerDataChanged? {
          NatToStringInjective(e.userId, c.userId);
        }
      }
    }
  }

  /** After the commit the target's response is gone, and for a planet
      change so is the multiple-planet response for that one planet, which
      is cached under the same key. Every other cached game-data response,
      including the planet's list, search, popr and other multiple entries,
      stays cached unchanged until it expires. */
  lemma AfterCommit(entries: map<string, CacheEntry>, c: Change, e: Endpoint)
    requires WellFormedChange(c) && WellFormed(e)
    ensures ServedKey(e) in ApplyPurges(entries, Purges(c)) <==>
      && ServedKey(e) in entries
      && e != Target(c)
      && !(c.PlanetChanged? && e == PlanetMultiple([c.naturalId]))
    ensures ServedKey(e) in ApplyPurges(entries, Purges(c)) ==>
      ApplyPurges(entries, Purges(c))[ServedKey(e)] == entries[ServedKey(e)]
  {
    ApplyPurgesEffect(entries, Purges(c), ServedKey(e));
    assert Purges(c)[0] == DeleteKey(ServedKey(Target(c)));
    TargetKeyUnique(c, e);
  }

  /** The one purge a change registers removes the target's key. */
  lemma PurgesRemoveTarget(entries: map<string, CacheEntry>, c: Change)
    ensures ApplyPurges(entries, Purges(c)) == entries - {EndpointKey(Target(c))}
  {
    assert Purges(c)[..0] == [];
  }

  /** Handling a change in a fresh transaction and then committing removes
      exactly the target's key from the store. */
  method HandleAndCommit(tx: Transaction, store: CacheStore, c: Change)
    requires tx.callbacks == []
    modifies tx, store
    ensures store.entries == old(store.entries) - {EndpointKey(Target(c))}
    ensures tx.callbacks == []
  {
    PurgesRemoveTarget(store.entries, c);
    HandleChange(tx, c);
    tx.Commit(store);
  }
}
