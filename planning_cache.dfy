/** Cache keys of the planning endpoints. Every key lives in the namespace
    `PLANNING:{user id}:` of the user who owns the cached data, and every
    planning response is kept for one hour. */
module PlanningCache {
  import opened Common
  import opened CacheManager

  const BASE_KEY: string := "PLANNING"
  const CACHE_TIMEOUT_1HOUR: nat := 60 * 60

  /** The text of a UUID: lower-case hexadecimal digits and dashes. */
  predicate IsUuidText(s: string)
  {
    forall k :: 0 <= k < |s| ==> s[k] in "0123456789abcdef-"
  }

  datatype PlanningKey =
    | PlanList(userId: nat)
    | PlanRetrieve(userId: nat, planId: string)
    | EmpireList(userId: nat)
    | EmpireRetrieve(userId: nat, empireId: string)
    | EmpireRetrievePlans(userId: nat, empireId: string)
    | CxList(userId: nat)
    | CxRetrieve(userId: nat, cxId: string)

  predicate WellFormed(k: PlanningKey)
  {
    match k
    case PlanRetrieve(_, id) => IsUuidText(id)
    case EmpireRetrieve(_, id) => IsUuidText(id)
    case EmpireRetrievePlans(_, id) => IsUuidText(id)
    case CxRetrieve(_, id) => IsUuidText(id)
    case _ => true
  }

  function Parts(k: PlanningKey): seq<Part>
  {
    match k
    case PlanList(u) => [Num(u), Text("plan"), Text("list")]
    case PlanRetrieve(u, id) => [Num(u), Text("plan"), Text("retrieve"), Text(id)]
    case EmpireList(u) => [Num(u), Text("empire"), Text("list")]
    case EmpireRetrieve(u, id) => [Num(u), Text("empire"), Text("retrieve"), Text(id)]
    case EmpireRetrievePlans(u, id) => [Num(u), Text("empire"), Text("retrieve"), Text("plans"), Text(id)]
    case CxList(u) => [Num(u), Text("cx"), Text("list")]
    case CxRetrieve(u, id) => [Num(u), Text("cx"), Text("retrieve"), Text(id)]
  }

  function KeyText(k: PlanningKey): string
  {
    MakeKey(BASE_KEY, Parts(k))
  }

  /** The parts after the user id. */
  function Tail(k: PlanningKey): seq<string>
  {
    match k
    case PlanList(_) => ["plan", "list"]
    case PlanRetrieve(_, id) => ["plan", "retrieve", id]
    case EmpireList(_) => ["empire", "list"]
    case EmpireRetrieve(_, id) => ["empire", "retrieve", id]
    case EmpireRetrievePlans(_, id) => ["empire", "retrieve", "plans", id]
    case CxList(_) => ["cx", "list"]
    case CxRetrieve(_, id) => ["cx", "retrieve", id]
  }

  lemma {:induction false} TextsPartsText(ss: seq<string>, parts: seq<Part>)
    requires |ss| == |parts|
    requires forall i :: 0 <= i < |parts| ==> parts[i] == Text(ss[i])
    ensures PartsText(parts) == ss
  {
    if |parts| > 0 {
      TextsPartsText(ss[1..], parts[1..]);
    }
  }

  /** Parts made of a user id and texts give the user id's digits and the
      texts as segments. */
  lemma UserTailSegments(base: string, u: nat, t: seq<string>, p: seq<Part>)
    requires |p| == |t| + 1 && p[0] == Num(u)
    requires forall i :: 0 <= i < |t| ==> p[1..][i] == Text(t[i])
    ensures PartsText(p) == [NatToString(u)] + t
    ensures MakeKey(base, p) == Join([base, NatToString(u)] + t, ':')
  {
    assert p == [Num(u)] + p[1..];
    PartsTextCons(Num(u), p[1..]);
    TextsPartsText(t, p[1..]);
    assert [base] + ([NatToString(u)] + t) == [base, NatToString(u)] + t;
  }

  /** The parts are the user id followed by the tail, each as text. */
  lemma PartsAreUserAndTail(k: PlanningKey)
    ensures |Parts(k)| == |Tail(k)| + 1 && Parts(k)[0] == Num(k.userId)
    ensures forall i :: 0 <= i < |Tail(k)| ==> Parts(k)[1..][i] == Text(Tail(k)[i])
  {
  }

  /** The key is the base, the user id and the tail, joined with ':'. */
  lemma KeySegments(k: PlanningKey)
    ensures PartsText(Parts(k)) == [NatToString(k.userId)] + Tail(k)
    ensures KeyText(k) == Join([BASE_KEY, NatToString(k.userId)] + Tail(k), ':')
  {
    PartsAreUserAndTail(k);
    UserTailSegments(BASE_KEY, k.userId, Tail(k), Parts(k));
  }

  lemma PartsClean(k: PlanningKey)
    requires WellFormed(k)
    ensures AllClean(Parts(k))
  {
    match k
    case PlanList(u) => UserTextsClean2(u, "plan", "list");
    case PlanRetrieve(u, id) => UuidLacks(id, ':'); UserTextsClean3(u, "plan", "retrieve", id);
    case EmpireList(u) => UserTextsClean2(u, "empire", "list");
    case EmpireRetrieve(u, id) => UuidLacks(id, ':'); UserTextsClean3(u, "empire", "retrieve", id);
    case EmpireRetrievePlans(u, id) => UuidLacks(id, ':'); UserTextsClean4(u, "empire", "retrieve", "plans", id);
    case CxList(u) => UserTextsClean2(u, "cx", "list");
    case CxRetrieve(u, id) => UuidLacks(id, ':'); UserTextsClean3(u, "cx", "retrieve", id);
  }

  lemma UserTextsClean2(u: nat, a: string, b: string)
    requires ':' !in a && ':' !in b
    ensures AllClean([Num(u), Text(a), Text(b)])
  {
  }

  lemma UserTextsClean3(u: nat, a: string, b: string, c: string)
    requires ':' !in a && ':' !in b && ':' !in c
    ensures AllClean([Num(u), Text(a), Text(b), Text(c)])
  {
  }

  lemma UserTextsClean4(u: nat, a: string, b: string, c: string, d: string)
    requires ':' !in a && ':' !in b && ':' !in c && ':' !in d
    ensures AllClean([Num(u), Text(a), Text(b), Text(c), Text(d)])
  {
  }

  /** Two well-formed keys are equal only when they name the same entry:
      keys of different users differ, and list and retrieve keys of the
      same kind differ. */
  lemma KeyTextInjective(k1: PlanningKey, k2: PlanningKey)
    requires WellFormed(k1) && WellFormed(k2)
    requires KeyText(k1) == KeyText(k2)
    ensures k1 == k2
  {
    PartsClean(k1);
    PartsClean(k2);
    MakeKeyInjective(BASE_KEY, Parts(k1), Parts(k2));
    KeySegments(k1);
    KeySegments(k2);
    var s1, s2 := [NatToString(k1.userId)] + Tail(k1), [NatToString(k2.userId)] + Tail(k2);
    assert s1[0] == s2[0];
    NatToStringInjective(k1.userId, k2.userId);
    assert s1[1..] == Tail(k1) && s2[1..] == Tail(k2);
  }

  /** The namespace glob of one user. */
  function UserNamespace(userId: nat): Pattern
  {
    Infix(BASE_KEY + ":" + NatToString(userId) + ":")
  }

  /** Every key starts with `PLANNING:{user id}:`, so its user's namespace
      glob matches it. */
  lemma KeyInUserNamespace(k: PlanningKey)
    ensures StartsWith(KeyText(k), BASE_KEY + ":" + NatToString(k.userId) + ":")
    ensures Matches(KeyText(k), UserNamespace(k.userId))
  {
    KeyJoinedTail(k);
    var a := BASE_KEY + ":";
    var d := NatToString(k.userId);
    var rest := Join(Tail(k), ':');
    ConcatAssoc(a, d + ":", rest);
    ConcatAssoc(a, d, ":");
    StartsWithConcat(a + d + ":", rest);
  }

  /** The glob the plan and empire handlers use for a user's empire details. */
  function EmpireRetrievePattern(userId: nat): Pattern
  {
    Infix(EmpireRetrieveText(userId))
  }

  /** `{user id}:empire:retrieve` */
  function EmpireRetrieveText(userId: nat): string
  {
    NatToString(userId) + ":" + "empire" + ":" + "retrieve"
  }

  /** The empire detail and empire plans keys share the prefix
      `PLANNING:{user id}:empire:retrieve`, so the empire glob reaches both. */
  lemma EmpireRetrieveKeysMatch(k: PlanningKey)
    requires k.EmpireRetrieve? || k.EmpireRetrievePlans?
    ensures StartsWith(KeyText(k), BASE_KEY + ":" + EmpireRetrieveText(k.userId))
    ensures Matches(KeyText(k), EmpireRetrievePattern(k.userId))
  {
    var rest := EmpireKeyShape(k);
    var sub := EmpireRetrieveText(k.userId);
    var pre := BASE_KEY + ":" + sub;
    assert KeyText(k)[..|pre|] == pre;
    assert KeyText(k)[9..9 + |sub|] == sub;
    ContainsAt(KeyText(k), sub, 9);
  }

  /** An empire detail key is `PLANNING:{user id}:empire:retrieve` followed by
      the remaining segments. */
  lemma EmpireKeyShape(k: PlanningKey) returns (rest: string)
    requires k.EmpireRetrieve? || k.EmpireRetrievePlans?
    ensures KeyText(k) == BASE_KEY + ":" + EmpireRetrieveText(k.userId) + rest
  {
    var last := if k.EmpireRetrieve? then [k.empireId] else ["plans", k.empireId];
    var d := NatToString(k.userId);
    KeySegments(k);
    assert [BASE_KEY, d] + Tail(k) == [BASE_KEY, d, "empire", "retrieve"] + last;
    rest := ":" + Join(last, ':');
    EmpireJoinShape(BASE_KEY, d, last);
  }

  lemma EmpireJoinShape(base: string, d: string, last: seq<string>)
    requires |last| >= 1
    ensures Join([base, d, "empire", "retrieve"] + last, ':')
         == base + ":" + (d + ":" + "empire" + ":" + "retrieve") + (":" + Join(last, ':'))
  {
    JoinFourGrouped(base, d, "empire", "retrieve", last, ':');
  }

  lemma DigitsLack(n: nat, c: char)
    requires !IsDigit(c)
    ensures c !in NatToString(n)
  {
    var d := NatToString(n);
    forall k | 0 <= k < |d| ensures d[k] != c {
      assert IsDigit(d[k]);
    }
  }

  lemma UuidLacks(s: string, c: char)
    requires IsUuidText(s) && c !in "0123456789abcdef-"
    ensures c !in s
  {
    forall k | 0 <= k < |s| ensures s[k] != c {
      assert s[k] in "0123456789abcdef-";
    }
  }

  /** Plan and CX keys never match the empire glob of any user: the glob
      contains an 'm', which those keys do not. */
  lemma PlanAndCxKeysMissEmpirePattern(k: PlanningKey, userId: nat)
    requires WellFormed(k)
    requires k.PlanList? || k.PlanRetrieve? || k.CxList? || k.CxRetrieve?
    ensures !Matches(KeyText(k), EmpireRetrievePattern(userId))
  {
    KeyJoinedTail(k);
    DigitsLack(k.userId, 'm');
    assert 'm' !in Join(Tail(k), ':') by { TailLacksSmallM(k); }
    assert 'm' !in KeyText(k);
    var sub := EmpireRetrieveText(userId);
    assert sub[|NatToString(userId)| + 2] == 'm';
    MissingCharNotContained(KeyText(k), sub, 'm');
  }

  /** No segment of a plan or CX key after the user id has an `m`. */
  lemma TailLacksSmallM(k: PlanningKey)
    requires WellFormed(k)
    requires k.PlanList? || k.PlanRetrieve? || k.CxList? || k.CxRetrieve?
    ensures 'm' !in Join(Tail(k), ':')
  {
    var t := Tail(k);
    if k.PlanRetrieve? {
      UuidLacks(k.planId, 'm');
    } else if k.CxRetrieve? {
      UuidLacks(k.cxId, 'm');
    }
    assert forall i :: 0 <= i < |t| ==> 'm' !in t[i];
    JoinNoChar(t, ':', 'm');
  }

  /** The empire list key has no 'v', which the empire glob has. */
  lemma EmpireListMissesEmpirePattern(userId: nat, other: nat)
    ensures !Matches(KeyText(EmpireList(userId)), EmpireRetrievePattern(other))
  {
    var k := EmpireList(userId);
    KeySegments(k);
    DigitsLack(userId, 'v');
    var all := [BASE_KEY, NatToString(userId)] + Tail(k);
    forall i | 0 <= i < |all| ensures 'v' !in all[i] {
    }
    JoinNoChar(all, ':', 'v');
    var sub := EmpireRetrieveText(other);
    assert sub[|NatToString(other)| + 14] == 'v';
    MissingCharNotContained(KeyText(k), sub, 'v');
  }

  /** Among one user's keys, the empire glob reaches exactly the empire
      detail and empire plans keys. */
  lemma EmpirePatternOwnUser(k: PlanningKey)
    requires WellFormed(k)
    ensures Matches(KeyText(k), EmpireRetrievePattern(k.userId)) <==> k.EmpireRetrieve? || k.EmpireRetrievePlans?
  {
    if k.EmpireRetrieve? || k.EmpireRetrievePlans? {
      EmpireRetrieveKeysMatch(k);
    } else if k.EmpireList? {
      EmpireListMissesEmpirePattern(k.userId, k.userId);
    } else {
      PlanAndCxKeysMissEmpirePattern(k, k.userId);
    }
  }

  /** Characters after the leading `P` of a key: none of them is a `P`. */
  lemma KeyAfterBase(k: PlanningKey) returns (rest: string)
    requires WellFormed(k)
    ensures KeyText(k) == BASE_KEY + ":" + (NatToString(k.userId) + ":" + rest)
    ensures 'P' !in NatToString(k.userId) + ":" + rest
  {
    rest := Join(Tail(k), ':');
    KeyJoinedTail(k);
    DigitsLack(k.userId, 'P');
    assert 'P' !in rest by { TailLacksCapitalP(k); }
  }

  /** No segment after the user id has a capital `P`. */
  lemma TailLacksCapitalP(k: PlanningKey)
    requires WellFormed(k)
    ensures 'P' !in Join(Tail(k), ':')
  {
    var t := Tail(k);
    match k {
      case PlanRetrieve(_, id) => UuidLacks(id, 'P');
      case EmpireRetrieve(_, id) => UuidLacks(id, 'P');
      case EmpireRetrievePlans(_, id) => UuidLacks(id, 'P');
      case CxRetrieve(_, id) => UuidLacks(id, 'P');
      case PlanList(_) =>
      case EmpireList(_) =>
      case CxList(_) =>
    }
    assert forall i :: 0 <= i < |t| ==> 'P' !in t[i];
    JoinNoChar(t, ':', 'P');
  }

  lemma KeyJoinedTail(k: PlanningKey)
    ensures KeyText(k) == BASE_KEY + ":" + (NatToString(k.userId) + ":" + Join(Tail(k), ':'))
  {
    KeySegments(k);
    var d := NatToString(k.userId);
    var t := Tail(k);
    assert [BASE_KEY, d] + t == [BASE_KEY] + ([d] + t);
    JoinCons(BASE_KEY, [d] + t, ':');
    JoinCons(d, t, ':');
  }

  /** The namespace glob of a user reaches the keys of that user and of
      no other user. */
  lemma NamespaceExact(k: PlanningKey, userId: nat)
    requires WellFormed(k)
    ensures Matches(KeyText(k), UserNamespace(userId)) <==> k.userId == userId
  {
    KeyInUserNamespace(k);
    if Matches(KeyText(k), UserNamespace(userId)) {
      NamespaceMatchSameUser(k, userId);
    }
  }

  lemma NamespaceMatchSameUser(k: PlanningKey, userId: nat)
    requires WellFormed(k) && Matches(KeyText(k), UserNamespace(userId))
    ensures k.userId == userId
  {
    var key := KeyText(k);
    var rest := KeyAfterBase(k);
    var tail := NatToString(k.userId) + ":" + rest;
    var du := NatToString(userId);
    var pat := BASE_KEY + ":" + du + ":";
    var i :| 0 <= i <= |key| - |pat| && OccursAt(key, pat, i);
    OnlyLeadingP(tail, pat, i);
    assert pat == (BASE_KEY + ":") + (du + ":");
    StartAfterBase(BASE_KEY + ":", tail, du + ":");
    DigitsColonPrefix(NatToString(k.userId), du, rest);
    NatToStringInjective(k.userId, userId);
  }

  /** A pattern `b + p` at the start of `b + tail` means `tail` starts with `p`. */
  lemma StartAfterBase(b: string, tail: string, p: string)
    requires OccursAt(b + tail, b + p, 0)
    ensures |p| <= |tail| && tail[..|p|] == p
  {
    var key := b + tail;
    assert key[|b|..|b| + |p|] == (b + p)[|b|..] == p;
    assert key[|b|..|b| + |p|] == tail[..|p|];
  }

  /** A pattern starting with `P` occurs in `PLANNING:{tail}` only at the
      start when the tail has no `P`. */
  lemma OnlyLeadingP(tail: string, pat: string, i: nat)
    requires 'P' !in tail && |pat| > 0 && pat[0] == 'P'
    requires OccursAt(BASE_KEY + ":" + tail, pat, i)
    ensures i == 0
  {
    var key := BASE_KEY + ":" + tail;
    assert key[i] == 'P';
    assert forall j :: 1 <= j < 9 ==> key[j] != 'P';
    assert forall j :: 9 <= j < |key| ==> key[j] == tail[j - 9];
  }

  /** The decimal spelling of `b` ends with that of `a`. */
  predicate DigitsEndWith(b: nat, a: nat)
  {
    var db, da := NatToString(b), NatToString(a);
    |da| <= |db| && db[|db| - |da|..] == da
  }

  /** The empire glob has no base prefix: the glob for user `a` also
      reaches the empire details of every user whose id ends in the digits
      of `a` (user 1's glob reaches user 11's keys). */
  lemma EmpirePatternReachesOtherUsers(a: nat, b: nat, empireId: string)
    requires DigitsEndWith(b, a)
    ensures Matches(KeyText(EmpireRetrieve(b, empireId)), EmpireRetrievePattern(a))
  {
    var k := EmpireRetrieve(b, empireId);
    var rest := EmpireKeyShape(k);
    var x := EmpireTextSuffix(a, b);
    var sub := EmpireRetrieveText(a);
    assert KeyText(k) == (BASE_KEY + ":" + x) + sub + rest;
    ContainsMiddle(BASE_KEY + ":" + x, sub, rest);
  }

  lemma EmpireTextSuffix(a: nat, b: nat) returns (x: string)
    requires DigitsEndWith(b, a)
    ensures EmpireRetrieveText(b) == x + EmpireRetrieveText(a)
  {
    var db, da := NatToString(b), NatToString(a);
    x := db[..|db| - |da|];
    assert db == x + da;
  }

  /** User 11's id ends in the digits of user 1. */
  lemma ElevenEndsWithOne()
    ensures DigitsEndWith(11, 1)
  {
    assert NatToString(11) == "11" && NatToString(1) == "1";
  }

  /** Serves one planning endpoint through the shared cache for an hour. */
  method GetResponse(store: CacheStore, k: PlanningKey, payload: Bytes, now: int) returns (r: Response)
    modifies store
    ensures (store.entries, r) == CachedResponse(old(store.entries), KeyText(k), payload, CACHE_TIMEOUT_1HOUR, now)
  {
    r := store.GetOrSetResponse(KeyText(k), payload, CACHE_TIMEOUT_1HOUR, now);
  }
}
