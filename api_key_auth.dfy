/** API-key authentication: the key is taken from the `Authorization`
    header or from the `api_key` query parameter; a revoked or unknown key
    is refused; on success the user's last login and the key's last use
    are refreshed, at most once an hour each. Times are in seconds. */
module ApiKeyAuth {
  import opened Common

  const API_KEY_MARKER: string := "Api-Key "

  /** Writes of the two timestamps are at least this far apart. */
  const TOUCH_INTERVAL: int := 3600

  // ---------------------------------------------------------------------
  // Key extraction

  /** The first index from `from` on where `sub` occurs, `|s|` when none. */
  function FindFrom(s: string, sub: string, from: nat): (r: nat)
    requires from <= |s| && |sub| > 0
    ensures from <= r <= |s|
    ensures r < |s| ==> OccursAt(s, sub, r)
    ensures forall j :: from <= j < r ==> !OccursAt(s, sub, j)
    decreases |s| - from
  {
    if from == |s| then |s|
    else if OccursAt(s, sub, from) then from
    else FindFrom(s, sub, from + 1)
  }

  /** `s.split(sub)[1]`: the text between the first occurrence of `sub` and
      the next one, or the end. */
  function SecondPart(s: string, sub: string): string
    requires |sub| > 0
  {
    var i := FindFrom(s, sub, 0);
    if i + |sub| > |s| then ""
    else s[i + |sub|..FindFrom(s, sub, i + |sub|)]
  }

  /** The key the request carries, if any: from the header when it holds
      the marker and yields a non-empty key, else from the query parameter;
      an empty key counts as none. */
  function ExtractKey(header: Option<string>, queryKey: Option<string>): Option<string>
  {
    var fromHeader :=
      if header.Some? && header.value != "" && Contains(header.value, API_KEY_MARKER)
      then Strip(SecondPart(header.value, API_KEY_MARKER)) else "";
    if fromHeader != "" then Some(fromHeader)
    else if queryKey.Some? && queryKey.value != "" then queryKey
    else None
  }

  /** A marker at the start of the header, followed by text without a
      second marker, yields that text trimmed. */
  lemma HeaderKey(rest: string, queryKey: Option<string>)
    requires !Contains(rest, API_KEY_MARKER) && Strip(rest) != ""
    ensures ExtractKey(Some(API_KEY_MARKER + rest), queryKey) == Some(Strip(rest))
  {
    var h := API_KEY_MARKER + rest;
    var m := |API_KEY_MARKER|;
    assert h[..m] == API_KEY_MARKER;
    assert OccursAt(h, API_KEY_MARKER, 0);
    ContainsAt(h, API_KEY_MARKER, 0);
    assert FindFrom(h, API_KEY_MARKER, 0) == 0;
    forall j | m <= j < |h|
      ensures !OccursAt(h, API_KEY_MARKER, j)
    {
      assert OccursAt(h, API_KEY_MARKER, j) ==> h[j..j + m] == rest[j - m..j - m + m];
      assert !OccursAt(rest, API_KEY_MARKER, j - m);
    }
    assert FindFrom(h, API_KEY_MARKER, m) == |h|;
    assert h[m..|h|] == rest;
    assert SecondPart(h, API_KEY_MARKER) == rest;
    assert h != "" && Contains(h, API_KEY_MARKER);
  }

  /** Without the marker in the header the query parameter decides; with
      neither there is no key. */
  lemma QueryKeyFallback(header: Option<string>, queryKey: Option<string>)
    requires header.None? || !Contains(header.value, API_KEY_MARKER)
    ensures ExtractKey(header, queryKey) == if queryKey.Some? && queryKey.value != "" then queryKey else None
  {
  }

  /** Whatever the inputs, an extracted key is never empty. */
  lemma ExtractedKeyNotEmpty(header: Option<string>, queryKey: Option<string>)
    ensures ExtractKey(header, queryKey).Some? ==> ExtractKey(header, queryKey).value != ""
    ensures ExtractKey(header, queryKey).None? ==> (queryKey.None? || queryKey.value == "")
  {
  }

  // ---------------------------------------------------------------------
  // Timestamps

  /** The stored time is missing or more than an hour old. */
  predicate Stale(t: Option<int>, now: int)
  {
    t.None? || t.value < now - TOUCH_INTERVAL
  }

  /** The timestamp after a successful request at `now`. */
  function Touch(t: Option<int>, now: int): (r: Option<int>)
    ensures r.Some? && now - TOUCH_INTERVAL <= r.value
    ensures !Stale(t, now) ==> r == t
  {
    if Stale(t, now) then Some(now) else t
  }

  /** Within an hour of a write there is no second write. */
  lemma TouchOncePerHour(t: Option<int>, now: int, later: int)
    requires Stale(t, now) && now <= later <= now + TOUCH_INTERVAL
    ensures Touch(t, now) == Some(now)
    ensures Touch(Touch(t, now), later) == Some(now)
  {
  }

  /** More than an hour after a request, the next one writes again. */
  lemma TouchAfterHour(t: Option<int>, now: int, later: int)
    requires (t.None? || t.value <= now) && later > now + TOUCH_INTERVAL
    ensures Touch(Touch(t, now), later) == Some(later)
  {
  }

  /** A second request at the same instant writes nothing. */
  lemma TouchIdempotent(t: Option<int>, now: int)
    ensures Touch(Touch(t, now), now) == Touch(t, now)
  {
  }

  // ---------------------------------------------------------------------
  // Authentication

  datatype ApiKey = ApiKey(userId: nat, revoked: bool, lastUsed: Option<int>)

  datatype AuthOutcome =
    | NoCredentials                // None: other authenticators may run
    | AuthFailed(message: string)  // AuthenticationFailed
    | Authenticated(userId: nat)   // (api_key.user, None)

  /** The stored keys, by key text, and the users' last logins. */
  datatype AuthTables = AuthTables(keys: map<string, ApiKey>, lastLogin: map<nat, Option<int>>)

  predicate ValidTables(t: AuthTables)
  {
    forall k :: k in t.keys ==> t.keys[k].userId in t.lastLogin
  }

  /** `authenticate`, with the tables before and after. */
  function AuthenticateSpec(t: AuthTables, header: Option<string>, queryKey: Option<string>, now: int)
    : (AuthOutcome, AuthTables)
    requires ValidTables(t)
  {
    match ExtractKey(header, queryKey)
    case None => (NoCredentials, t)
    case Some(key) =>
      if key !in t.keys then (AuthFailed("Invalid API Key"), t)
      else
        var apiKey := t.keys[key];
        if apiKey.revoked then (AuthFailed("This API key has been revoked"), t)
        else
          var u := apiKey.userId;
          (Authenticated(u),
           AuthTables(t.keys[key := apiKey.(lastUsed := Touch(apiKey.lastUsed, now))],
                      t.lastLogin[u := Touch(t.lastLogin[u], now)]))
  }

  class ApiKeyAuthentication {
    var keys: map<string, ApiKey>
    var lastLogin: map<nat, Option<int>>

    constructor(t: AuthTables)
      ensures Tables() == t
    {
      keys, lastLogin := t.keys, t.lastLogin;
    }

    function Tables(): AuthTables
      reads this
    {
      AuthTables(keys, lastLogin)
    }

    method Authenticate(header: Option<string>, queryKey: Option<string>, now: int) returns (outcome: AuthOutcome)
      requires ValidTables(Tables())
      modifies this
      ensures (outcome, Tables()) == AuthenticateSpec(old(Tables()), header, queryKey, now)
    {
      var key: Option<string> := None;
      if header.Some? && header.value != "" && Contains(header.value, API_KEY_MARKER) {
        var k := Strip(SecondPart(header.value, API_KEY_MARKER));
        key := Some(k);
      }
      if key.None? || key.value == "" {
        key := queryKey;
      }
      if key.None? || key.value == "" {
        return NoCredentials;
      }
      if key.value !in keys {
        return AuthFailed("Invalid API Key");
      }
      var apiKey := keys[key.value];
      if apiKey.revoked {
        return AuthFailed("This API key has been revoked");
      }
      var u := apiKey.userId;
      if Stale(lastLogin[u], now) {
        lastLogin := lastLogin[u := Some(now)];
      } else {
        assert lastLogin[u := lastLogin[u]] == lastLogin;
      }
      if Stale(apiKey.lastUsed, now) {
        keys := keys[key.value := apiKey.(lastUsed := Some(now))];
      } else {
        assert keys[key.value := apiKey] == keys;
      }
      return Authenticated(u);
    }
  }

  /** Without a key nothing is decided and nothing written; an unknown or
      revoked key is refused and nothing is written; a usable key signs in
      its owner and refreshes only the owner's last login and the key's
      last use. */
  lemma AuthenticateMeaning(t: AuthTables, header: Option<string>, queryKey: Option<string>, now: int)
    requires ValidTables(t)
    ensures var (outcome, after) := AuthenticateSpec(t, header, queryKey, now);
      var key := ExtractKey(header, queryKey);
      && (outcome == NoCredentials <==> key.None?)
      && (outcome.AuthFailed? <==> key.Some? && (key.value !in t.keys || t.keys[key.value].revoked))
      && (!outcome.Authenticated? ==> after == t)
      && (outcome.Authenticated? ==>
            && key.Some? && key.value in t.keys && outcome.userId == t.keys[key.value].userId
            && after.keys.Keys == t.keys.Keys && after.lastLogin.Keys == t.lastLogin.Keys
            && (forall k :: k in t.keys && k != key.value ==> after.keys[k] == t.keys[k])
            && (forall v :: v in t.lastLogin && v != outcome.userId ==> after.lastLogin[v] == t.lastLogin[v])
            && after.keys[key.value].lastUsed == Touch(t.keys[key.value].lastUsed, now)
            && after.lastLogin[outcome.userId] == Touch(t.lastLogin[outcome.userId], now)
            && ValidTables(after))
  {
  }

  /** After a request that wrote both times, a second request with the same
      key within the hour succeeds the same way and writes nothing. */
  lemma RepeatWithinHourWritesNothing(t: AuthTables, header: Option<string>, queryKey: Option<string>,
                                      now: int, later: int)
    requires ValidTables(t) && now <= later <= now + TOUCH_INTERVAL
    requires AuthenticateSpec(t, header, queryKey, now).0.Authenticated?
    requires var key := ExtractKey(header, queryKey).value;
      Stale(t.keys[key].lastUsed, now) && Stale(t.lastLogin[t.keys[key].userId], now)
    ensures var after := AuthenticateSpec(t, header, queryKey, now).1;
      ValidTables(after) && AuthenticateSpec(after, header, queryKey, later) == (AuthenticateSpec(t, header, queryKey, now).0, after)
  {
    var key := ExtractKey(header, queryKey).value;
    var after := AuthenticateSpec(t, header, queryKey, now).1;
    var u := t.keys[key].userId;
    TouchOncePerHour(t.keys[key].lastUsed, now, later);
    TouchOncePerHour(t.lastLogin[u], now, later);
    assert after.keys[key := after.keys[key].(lastUsed := Touch(after.keys[key].lastUsed, later))] == after.keys;
    assert after.lastLogin[u := Touch(after.lastLogin[u], later)] == after.lastLogin;
  }
}
