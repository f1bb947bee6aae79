/** The shared response cache: hierarchical keys `BASE:part:part…`, the
    key/value store with per-entry expiry, and the cached-response helper.
    Patterns are the `*text*` globs the application uses, which match a key
    exactly when `text` occurs in it. */
module CacheManager {
  import opened Common

  /** One argument of a key: a string, an integer id, or `None`. */
  datatype Part = Text(s: string) | Num(n: nat) | Absent

  /** The text a part contributes to a key: none for `None`. */
  function PartText(p: Part): seq<string>
  {
    match p
    case Text(s) => [s]
    case Num(n) => [NatToString(n)]
    case Absent => []
  }

  function PartsText(parts: seq<Part>): (r: seq<string>)
    ensures |r| <= |parts|
  {
    if |parts| == 0 then [] else PartText(parts[0]) + PartsText(parts[1..])
  }

  /** The base name followed by the text of every present part, joined with ':'. */
  function MakeKey(base: string, parts: seq<Part>): string
  {
    Join([base] + PartsText(parts), ':')
  }

  /** A part that can be recovered from a key: no ':' inside. */
  predicate Clean(p: Part)
  {
    p.Text? ==> ':' !in p.s
  }

  predicate AllClean(parts: seq<Part>)
  {
    forall k :: 0 <= k < |parts| ==> Clean(parts[k])
  }

  lemma {:induction false} PartsTextClean(parts: seq<Part>)
    requires AllClean(parts)
    ensures forall k :: 0 <= k < |PartsText(parts)| ==> ':' !in PartsText(parts)[k]
  {
    if |parts| > 0 {
      assert AllClean(parts[1..]) by {
        forall k | 0 <= k < |parts[1..]| ensures Clean(parts[1..][k]) {
          assert parts[1..][k] == parts[k + 1];
        }
      }
      PartsTextClean(parts[1..]);
      assert Clean(parts[0]);
      if parts[0].Num? {
        var d := NatToString(parts[0].n);
        forall k | 0 <= k < |d| ensures d[k] != ':' {
          assert IsDigit(d[k]);
        }
      }
    }
  }

  /** Splitting a key on ':' gives back the base and the present parts, in
      order: keys built from clean parts never collide by accident. */
  lemma MakeKeyDecodes(base: string, parts: seq<Part>)
    requires ':' !in base && AllClean(parts)
    ensures Split(MakeKey(base, parts), ':') == [base] + PartsText(parts)
  {
    PartsTextClean(parts);
    var all := [base] + PartsText(parts);
    forall k | 0 <= k < |all| ensures ':' !in all[k] {
      if k > 0 { assert all[k] == PartsText(parts)[k - 1]; }
    }
    SplitJoin(all, ':');
  }

  lemma MakeKeyInjective(base: string, p1: seq<Part>, p2: seq<Part>)
    requires ':' !in base && AllClean(p1) && AllClean(p2)
    requires MakeKey(base, p1) == MakeKey(base, p2)
    ensures PartsText(p1) == PartsText(p2)
  {
    MakeKeyDecodes(base, p1);
    MakeKeyDecodes(base, p2);
    assert PartsText(p1) == Split(MakeKey(base, p1), ':')[1..];
  }

  /** Every key starts with its base name, followed by ':' when any part is present. */
  lemma {:induction false} MakeKeyPrefix(base: string, parts: seq<Part>)
    ensures StartsWith(MakeKey(base, parts), base)
    ensures |PartsText(parts)| > 0 ==> StartsWith(MakeKey(base, parts), base + ":")
  {
    var all := [base] + PartsText(parts);
    if |all| > 1 {
      assert MakeKey(base, parts) == base + [':'] + Join(all[1..], ':');
      assert (base + [':'] + Join(all[1..], ':'))[..|base| + 1] == base + ":";
    }
  }

  /** A key whose first part is the text `s` starts with `base:s`. */
  lemma MakeKeyHead(base: string, s: string, rest: seq<Part>)
    ensures StartsWith(MakeKey(base, [Text(s)] + rest), base + ":" + s)
  {
    assert ([Text(s)] + rest)[1..] == rest;
    var all := [base] + PartsText([Text(s)] + rest);
    assert all[0] == base && all[1] == s;
    JoinStartsWithFirstTwo(all, ':');
  }

  lemma PartsTextCons(p: Part, rest: seq<Part>)
    ensures PartsText([p] + rest) == PartText(p) + PartsText(rest)
  {
    assert ([p] + rest)[1..] == rest;
  }

  lemma PartsTextThree(a: string, b: string, c: string)
    ensures PartsText([Text(a), Text(b), Text(c)]) == [a, b, c]
  {
    PartsTextCons(Text(c), []);
    PartsTextCons(Text(b), [Text(c)]);
    assert [Text(b)] + [Text(c)] == [Text(b), Text(c)];
    PartsTextCons(Text(a), [Text(b), Text(c)]);
    assert [Text(a)] + [Text(b), Text(c)] == [Text(a), Text(b), Text(c)];
  }

  lemma PartsTextFour(a: string, b: string, c: string, d: string)
    ensures PartsText([Text(a), Text(b), Text(c), Text(d)]) == [a, b, c, d]
  {
    PartsTextThree(b, c, d);
    PartsTextCons(Text(a), [Text(b), Text(c), Text(d)]);
    assert [Text(a)] + [Text(b), Text(c), Text(d)] == [Text(a), Text(b), Text(c), Text(d)];
  }

  lemma {:induction false} PartsTextAppend(a: seq<Part>, b: seq<Part>)
    ensures PartsText(a + b) == PartsText(a) + PartsText(b)
  {
    if |a| > 0 {
      assert (a + b)[1..] == a[1..] + b;
      PartsTextAppend(a[1..], b);
    } else {
      assert a + b == b;
    }
  }

  /** The key of three text parts, spelled out segment by segment. */
  lemma MakeKeyThree(base: string, a: string, b: string, c: string)
    ensures MakeKey(base, [Text(a), Text(b), Text(c)]) == base + ([':'] + (a + ([':'] + (b + ([':'] + c)))))
  {
    PartsTextCons(Text(c), []);
    PartsTextCons(Text(b), [Text(c)]);
    assert [Text(b)] + [Text(c)] == [Text(b), Text(c)];
    PartsTextCons(Text(a), [Text(b), Text(c)]);
    assert [Text(a)] + [Text(b), Text(c)] == [Text(a), Text(b), Text(c)];
    assert [base] + PartsText([Text(a), Text(b), Text(c)]) == [base, a, b, c];
    JoinCons(b, [c], ':');
    JoinCons(a, [b, c], ':');
    JoinCons(base, [a, b, c], ':');
    assert [b] + [c] == [b, c];
    assert [a] + [b, c] == [a, b, c];
    assert [base] + [a, b, c] == [base, a, b, c];
    ConcatAssoc(b, [':'], c);
    ConcatAssoc(a, [':'], b + [':'] + c);
    ConcatAssoc(base, [':'], a + [':'] + (b + [':'] + c));
  }

  /** A `*text*` glob. */
  datatype Pattern = Infix(text: string)

  predicate Matches(key: string, p: Pattern)
  {
    Contains(key, p.text)
  }

  type Bytes = seq<bv8>

  datatype CacheEntry = CacheEntry(value: Bytes, expiresAt: int)

  /** The stored value while it has not expired. */
  function Lookup(entries: map<string, CacheEntry>, key: string, now: int): Option<Bytes>
  {
    if key in entries && now < entries[key].expiresAt then Some(entries[key].value) else None
  }

  /** A value that counts as a hit: present and not empty. */
  predicate Truthy(v: Option<Bytes>)
  {
    v.Some? && |v.value| > 0
  }

  function RemoveMatching(entries: map<string, CacheEntry>, p: Pattern): map<string, CacheEntry>
  {
    map k | k in entries && !Matches(k, p) :: entries[k]
  }

  datatype CacheControl = CacheControl(isPublic: bool, maxAge: nat)

  /** The body, the X-Cache-Hit header ("1" or "0"), the Cache-Control
      header, and whether the producing function was called. */
  datatype Response = Response(body: Bytes, cacheHit: string, cacheControl: CacheControl, computed: bool)

  /** The response and the new entries of one cached-response request;
      `payload` is what serialising the function's result yields. */
  function CachedResponse(entries: map<string, CacheEntry>, key: string, payload: Bytes, timeout: nat, now: int)
    : (map<string, CacheEntry>, Response)
  {
    var cached := Lookup(entries, key, now);
    if Truthy(cached) then
      (entries, Response(cached.value, "1", CacheControl(true, timeout), false))
    else
      (entries[key := CacheEntry(payload, now + timeout)], Response(payload, "0", CacheControl(true, timeout), true))
  }

  /** A hit returns the stored bytes without calling the function; a miss
      calls it once, stores its bytes and returns them; both are public for
      `timeout` seconds. */
  lemma CachedResponseCases(entries: map<string, CacheEntry>, key: string, payload: Bytes, timeout: nat, now: int)
    ensures var (after, r) := CachedResponse(entries, key, payload, timeout, now);
      && r.cacheControl == CacheControl(true, timeout)
      && (Truthy(Lookup(entries, key, now)) ==>
            r.body == Lookup(entries, key, now).value && r.cacheHit == "1" && !r.computed && after == entries)
      && (!Truthy(Lookup(entries, key, now)) ==>
            r.body == payload && r.cacheHit == "0" && r.computed
            && after == entries[key := CacheEntry(payload, now + timeout)])
  {
  }

  /** After a miss that produced a non-empty body, a repeat of the request
      before the timeout is a hit with the same body, whatever the function
      would now produce. */
  lemma RepeatIsHit(entries: map<string, CacheEntry>, key: string, p1: Bytes, p2: Bytes, timeout: nat, now: int, later: int)
    requires !Truthy(Lookup(entries, key, now)) && |p1| > 0
    requires now <= later < now + timeout
    ensures var (after, r1) := CachedResponse(entries, key, p1, timeout, now);
      var (again, r2) := CachedResponse(after, key, p2, timeout, later);
      r2.body == r1.body && r2.cacheHit == "1" && !r2.computed && again == after
  {
  }

  /** One invalidation step: a single key, or every key a glob matches. */
  datatype Purge = DeleteKey(key: string) | DeleteMatching(pattern: Pattern)

  predicate Removes(p: Purge, key: string)
  {
    match p
    case DeleteKey(k) => k == key
    case DeleteMatching(pattern) => Matches(key, pattern)
  }

  function ApplyPurge(entries: map<string, CacheEntry>, p: Purge): map<string, CacheEntry>
  {
    match p
    case DeleteKey(k) => entries - {k}
    case DeleteMatching(pattern) => RemoveMatching(entries, pattern)
  }

  /** The entries left after the purges, applied in order. */
  function ApplyPurges(entries: map<string, CacheEntry>, ps: seq<Purge>): map<string, CacheEntry>
  {
    if |ps| == 0 then entries else ApplyPurge(ApplyPurges(entries, ps[..|ps| - 1]), ps[|ps| - 1])
  }

  /** A key survives a series of purges exactly when it was present and no
      purge names or matches it; a survivor keeps its entry. */
  lemma {:induction false} ApplyPurgesEffect(entries: map<string, CacheEntry>, ps: seq<Purge>, key: string)
    ensures key in ApplyPurges(entries, ps) <==>
      key in entries && forall i :: 0 <= i < |ps| ==> !Removes(ps[i], key)
    ensures key in ApplyPurges(entries, ps) ==> ApplyPurges(entries, ps)[key] == entries[key]
  {
    if |ps| > 0 {
      var init := ps[..|ps| - 1];
      ApplyPurgesEffect(entries, init, key);
      assert forall i :: 0 <= i < |init| ==> init[i] == ps[i];
    }
  }

  /** The callbacks registered with `on_commit` in the current transaction. */
  class Transaction {
    var callbacks: seq<Purge>

    constructor ()
      ensures callbacks == []
    {
      callbacks := [];
    }

    method OnCommit(ps: seq<Purge>)
      modifies this
      ensures callbacks == old(callbacks) + ps
    {
      callbacks := callbacks + ps;
    }

    /** The transaction commits: the registered purges run, in order. */
    method Commit(store: CacheStore)
      modifies this, store
      ensures store.entries == ApplyPurges(old(store.entries), old(callbacks))
      ensures callbacks == []
    {
      var pending := callbacks;
      for i := 0 to |pending|
        invariant store.entries == ApplyPurges(old(store.entries), pending[..i])
      {
        assert pending[..i + 1][..i] == pending[..i];
        match pending[i]
        case DeleteKey(k) => store.Delete(k);
        case DeleteMatching(pattern) => store.DeletePattern(pattern);
      }
      assert pending[..|pending|] == pending;
      callbacks := [];
    }

    /** The transaction rolls back: the registered purges are dropped and
        the cache is not touched. */
    method Rollback()
      modifies this
      ensures callbacks == []
    {
      callbacks := [];
    }
  }

  /** The cache store shared by all requests. */
  class CacheStore {
    var entries: map<string, CacheEntry>

    constructor ()
      ensures entries == map[]
    {
      entries := map[];
    }

    method Get(key: string, now: int) returns (v: Option<Bytes>)
      ensures v == Lookup(entries, key, now)
      ensures v.Some? ==> key in entries
    {
      v := Lookup(entries, key, now);
    }

    method Set(key: string, value: Bytes, timeout: nat, now: int)
      modifies this
      ensures entries == old(entries)[key := CacheEntry(value, now + timeout)]
      ensures Lookup(entries, key, now) == if timeout > 0 then Some(value) else None
    {
      entries := entries[key := CacheEntry(value, now + timeout)];
    }

    /** Removes exactly one key. */
    method Delete(key: string)
      modifies this
      ensures entries == old(entries) - {key}
      ensures forall k :: k in old(entries) && k != key ==> k in entries && entries[k] == old(entries)[k]
    {
      entries := entries - {key};
    }

    /** Removes every key the glob matches and only those. */
    method DeletePattern(p: Pattern)
      modifies this
      ensures entries == RemoveMatching(old(entries), p)
      ensures forall k :: k in entries <==> k in old(entries) && !Matches(k, p)
    {
      entries := RemoveMatching(entries, p);
    }

    method GetOrSetResponse(key: string, payload: Bytes, timeout: nat, now: int) returns (r: Response)
      modifies this
      ensures (entries, r) == CachedResponse(old(entries), key, payload, timeout, now)
    {
      var cached := Get(key, now);
      if cached.Some? && |cached.value| > 0 {
        r := Response(cached.value, "1", CacheControl(false, 0), false);
      } else {
        Set(key, payload, timeout, now);
        r := Response(payload, "0", CacheControl(false, 0), true);
      }
      r := r.(cacheControl := CacheControl(true, timeout));
    }
  }
}
