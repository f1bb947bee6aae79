/** Cache invalidation after a planning row is saved or deleted. Each
    handler registers its purges to run when the transaction commits; the
    purges then remove the cached responses that may show the changed row. */
module PlanningSignals {
  import opened Common
  import opened CacheManager
  import opened PlanningCache

  /** A saved or deleted planning row, with the ids its handler reads. */
  datatype Change =
    | PlanChanged(userId: nat, planId: string)
    | EmpireChanged(userId: nat, empireId: string)
    | EmpirePlanChanged(userId: nat)
    | CxChanged(userId: nat)

  predicate WellFormedChange(c: Change)
  {
    match c
    case PlanChanged(_, id) => IsUuidText(id)
    case EmpireChanged(_, id) => IsUuidText(id)
    case _ => true
  }

  /** The purges each handler defers to the commit, in order. */
  function Purges(c: Change): seq<Purge>
  {
    match c
    case PlanChanged(u, id) =>
      [DeleteKey(KeyText(PlanList(u))), DeleteKey(KeyText(EmpireList(u))),
       DeleteMatching(EmpireRetrievePattern(u)), DeleteKey(KeyText(PlanRetrieve(u, id)))]
    case EmpireChanged(u, id) =>
      [DeleteKey(KeyText(PlanList(u))), DeleteKey(KeyText(EmpireList(u))),
       DeleteMatching(EmpireRetrievePattern(u)), DeleteKey(KeyText(EmpireRetrieve(u, id)))]
    case EmpirePlanChanged(u) => [DeleteMatching(UserNamespace(u))]
    case CxChanged(u) => [DeleteMatching(UserNamespace(u))]
  }

  /** The post-save / post-delete handler: nothing is purged yet, the
      purges wait for the commit. */
  method HandleChange(tx: Transaction, c: Change)
    modifies tx
    ensures tx.callbacks == old(tx.callbacks) + Purges(c)
  {
    match c
    case PlanChanged(u, id) =>
      tx.OnCommit([DeleteKey(KeyText(PlanList(u))), DeleteKey(KeyText(EmpireList(u))),
                   DeleteMatching(EmpireRetrievePattern(u)), DeleteKey(KeyText(PlanRetrieve(u, id)))]);
    case EmpireChanged(u, id) =>
      tx.OnCommit([DeleteKey(KeyText(PlanList(u))), DeleteKey(KeyText(EmpireList(u))),
                   DeleteMatching(EmpireRetrievePattern(u)), DeleteKey(KeyText(EmpireRetrieve(u, id)))]);
    case EmpirePlanChanged(u) =>
      tx.OnCommit([DeleteMatching(UserNamespace(u))]);
    case CxChanged(u) =>
      tx.OnCommit([DeleteMatching(UserNamespace(u))]);
  }

  /** The cached responses of the changed row's owner that may show it:
      a plan change reaches the plan and empire lists, that plan's detail
      and every empire detail (an empire lists its plans); an empire change
      the same lists and empire details; an empire-plan or CX change every
      planning response of the user. */
  predicate Invalidates(c: Change, k: PlanningKey)
  {
    && k.userId == c.userId
    && match c
       case PlanChanged(_, id) =>
         k.PlanList? || k.EmpireList? || k == PlanRetrieve(c.userId, id)
         || k.EmpireRetrieve? || k.EmpireRetrievePlans?
       case EmpireChanged(_, _) =>
         k.PlanList? || k.EmpireList? || k.EmpireRetrieve? || k.EmpireRetrievePlans?
       case _ => true
  }

  lemma DeleteKeyRemoves(k: PlanningKey, target: PlanningKey)
    requires WellFormed(k) && WellFormed(target)
    ensures Removes(DeleteKey(KeyText(target)), KeyText(k)) <==> k == target
  {
    if KeyText(target) == KeyText(k) {
      KeyTextInjective(k, target);
    }
  }

  lemma ListAndDetailPurges(c: Change, k: PlanningKey, key: string)
    requires WellFormedChange(c) && WellFormed(k) && k.userId == c.userId
    requires c.PlanChanged? || c.EmpireChanged?
    requires key == KeyText(k)
    ensures (forall i :: 0 <= i < |Purges(c)| ==> !Removes(Purges(c)[i], key)) <==> !Invalidates(c, k)
  {
    var u := c.userId;
    var ps := Purges(c);
    DeleteKeyRemoves(k, PlanList(u));
    DeleteKeyRemoves(k, EmpireList(u));
    EmpirePatternOwnUser(k);
    if c.PlanChanged? {
      DeleteKeyRemoves(k, PlanRetrieve(u, c.planId));
    } else {
      DeleteKeyRemoves(k, EmpireRetrieve(u, c.empireId));
    }
    assert Removes(ps[2], key) <==> k.EmpireRetrieve? || k.EmpireRetrievePlans?;
    NoneOfFour(ps, key);
  }

  lemma NoneOfFour(ps: seq<Purge>, key: string)
    requires |ps| == 4
    ensures (forall i :: 0 <= i < |ps| ==> !Removes(ps[i], key))
        <==> !Removes(ps[0], key) && !Removes(ps[1], key) && !Removes(ps[2], key) && !Removes(ps[3], key)
  {
  }

  /** After the commit, a cached response of the changed row's owner is
      gone exactly when the change may show in it; the owner's other
      responses stay cached unchanged. */
  lemma OwnKeysAfterCommit(entries: map<string, CacheEntry>, c: Change, k: PlanningKey)
    requires WellFormedChange(c) && WellFormed(k) && k.userId == c.userId
    ensures KeyText(k) in ApplyPurges(entries, Purges(c)) <==> KeyText(k) in entries && !Invalidates(c, k)
    ensures KeyText(k) in ApplyPurges(entries, Purges(c)) ==> ApplyPurges(entries, Purges(c))[KeyText(k)] == entries[KeyText(k)]
  {
    var key := KeyText(k);
    ApplyPurgesEffect(entries, Purges(c), key);
    if c.PlanChanged? || c.EmpireChanged? {
      ListAndDetailPurges(c, k, key);
    } else {
      KeyInUserNamespace(k);
      assert Removes(Purges(c)[0], key);
    }
  }

  /** The namespace purge of an empire-plan or CX change leaves every other
      user's responses cached unchanged. */
  lemma OtherUsersKeepNamespace(entries: map<string, CacheEntry>, c: Change, k: PlanningKey)
    requires c.EmpirePlanChanged? || c.CxChanged?
    requires WellFormed(k) && k.userId != c.userId
    ensures KeyText(k) in ApplyPurges(entries, Purges(c)) <==> KeyText(k) in entries
    ensures KeyText(k) in entries ==> ApplyPurges(entries, Purges(c))[KeyText(k)] == entries[KeyText(k)]
  {
    ApplyPurgesEffect(entries, Purges(c), KeyText(k));
    NamespaceExact(k, c.userId);
  }

  /** A plan or empire change leaves another user's lists, plan details and
      CX responses cached unchanged. */
  lemma OtherUsersKeepLists(entries: map<string, CacheEntry>, c: Change, k: PlanningKey)
    requires c.PlanChanged? || c.EmpireChanged?
    requires WellFormedChange(c) && WellFormed(k) && k.userId != c.userId
    requires !k.EmpireRetrieve? && !k.EmpireRetrievePlans?
    ensures KeyText(k) in ApplyPurges(entries, Purges(c)) <==> KeyText(k) in entries
    ensures KeyText(k) in entries ==> ApplyPurges(entries, Purges(c))[KeyText(k)] == entries[KeyText(k)]
  {
    var u := c.userId;
    var key := KeyText(k);
    ApplyPurgesEffect(entries, Purges(c), key);
    DeleteKeyRemoves(k, PlanList(u));
    DeleteKeyRemoves(k, EmpireList(u));
    if c.PlanChanged? {
      DeleteKeyRemoves(k, PlanRetrieve(u, c.planId));
    } else {
      DeleteKeyRemoves(k, EmpireRetrieve(u, c.empireId));
    }
    if k.EmpireList? {
      EmpireListMissesEmpirePattern(k.userId, u);
    } else {
      PlanAndCxKeysMissEmpirePattern(k, u);
    }
    NoneOfFour(Purges(c), key);
  }

  /** The empire glob is not anchored to the base, so a plan change of
      user `a` also drops the cached empire details of every user whose id
      ends in the digits of `a` (user 11 for user 1). */
  lemma PlanChangeDropsOtherUsersEmpire(entries: map<string, CacheEntry>, a: nat, b: nat,
                                        planId: string, empireId: string)
    requires DigitsEndWith(b, a)
    ensures KeyText(EmpireRetrieve(b, empireId)) !in ApplyPurges(entries, Purges(PlanChanged(a, planId)))
  {
    var key := KeyText(EmpireRetrieve(b, empireId));
    ApplyPurgesEffect(entries, Purges(PlanChanged(a, planId)), key);
    EmpirePatternReachesOtherUsers(a, b, empireId);
    assert Removes(Purges(PlanChanged(a, planId))[2], key);
  }

  /** Handling a change in a fresh transaction and then committing applies
      exactly the change's purges to the store. */
  method HandleAndCommit(tx: Transaction, store: CacheStore, c: Change)
    requires tx.callbacks == []
    modifies tx, store
    ensures store.entries == ApplyPurges(old(store.entries), Purges(c))
    ensures tx.callbacks == []
  {
    HandleChange(tx, c);
    assert tx.callbacks == Purges(c);
    tx.Commit(store);
  }
}
