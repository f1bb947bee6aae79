/** The scheduled refresh tasks: the planet refresh that picks the stalest
    eligible planet and imports it, the dispatcher that selects up to 100
    users whose FIO data is due, and the per-user FIO data refresh. Times
    are whole seconds. */
module RefreshTasks {
  import opened Common
  import opened Sorting
  import opened PlanetModels
  import opened FioSchemas
  import opened PlanetImport
  import opened Automation

  // ---------------------------------------------------------------------
  // Planet refresh

  /** A planet the refresh may pick: its retry time (if any) has come, it is
      neither pending nor failed, and it has failures left. */
  predicate IsRefreshCandidate(a: AutomationState, now: int)
  {
    && (a.nextRetryAt.None? || a.nextRetryAt.value <= now)
    && a.status != Pending && a.status != Failed
    && a.errorCount < MAX_RETRIES
  }

  /** The first candidate, in the order `scan` lists the planets, with the
      smallest last-refresh time. When `scan` lists the whole table, as the
      task's query does, that is the stalest candidate of the table. */
  function OldestCandidate(db: PlanetTable, scan: seq<string>, now: int): (r: Option<string>)
    requires forall i :: 0 <= i < |scan| ==> scan[i] in db
    ensures r.None? <==> forall i :: 0 <= i < |scan| ==> !IsRefreshCandidate(db[scan[i]].automation, now)
    ensures r.Some? ==> r.value in scan && r.value in db && IsRefreshCandidate(db[r.value].automation, now)
    ensures r.Some? ==> forall i :: 0 <= i < |scan| && IsRefreshCandidate(db[scan[i]].automation, now) ==>
      db[r.value].automation.lastRefreshedAt <= db[scan[i]].automation.lastRefreshedAt
    ensures (forall nid :: nid in db ==> nid in scan) ==>
      && (r.None? <==> forall nid :: nid in db ==> !IsRefreshCandidate(db[nid].automation, now))
      && (r.Some? ==> forall nid :: nid in db && IsRefreshCandidate(db[nid].automation, now) ==>
            db[r.value].automation.lastRefreshedAt <= db[nid].automation.lastRefreshedAt)
  {
    if |scan| == 0 then None
    else
      var n := |scan| - 1;
      var rest := OldestCandidate(db, scan[..n], now);
      assert forall i :: 0 <= i < n ==> scan[..n][i] == scan[i];
      var k := scan[n];
      if !IsRefreshCandidate(db[k].automation, now) then rest
      else if rest.Some? && db[rest.value].automation.lastRefreshedAt <= db[k].automation.lastRefreshedAt then rest
      else Some(k)
  }

  /** What the import task gets from the feed: an exception, or an answer
      that may hold no data. */
  datatype PlanetFetch = FetchRaised(message: string) | Fetched(data: Option<PlanetSchema>)

  /** The task's result, the planet table afterwards, and the planet whose
      infrastructure refresh was queued. */
  datatype PlanetTaskOutcome = PlanetTaskOutcome(ok: bool, db: PlanetTable, infrastructureFor: Option<string>)

  /** Writes the automation columns of one planet. */
  function SetAutomation(db: PlanetTable, nid: string, a: AutomationState): PlanetTable
  {
    if nid in db then db[nid := db[nid].(automation := a)] else db
  }

  /** The task as written: after `import_planet` returns, success is
      recorded on the picked planet whatever the import reported. */
  function RefreshPlanetAsWritten(db: PlanetTable, scan: seq<string>, fetch: PlanetFetch, materials: MaterialMap,
                                  ids: RowIds, message: string, now: int): PlanetTaskOutcome
    requires forall i :: 0 <= i < |scan| ==> scan[i] in db
  {
    match OldestCandidate(db, scan, now)
    case None => PlanetTaskOutcome(false, db, None)
    case Some(nid) =>
      var pending := db[nid].automation.(status := Pending);
      var marked := SetAutomation(db, nid, pending);
      match fetch
      case FetchRaised(err) =>
        PlanetTaskOutcome(false, SetAutomation(marked, nid, RecordFailure(pending, err, now, PLANET_RETRY_DELAY_MINUTES)), Some(nid))
      case Fetched(data) =>
        var imported := ImportPlanetSpec(marked, data, materials, ids, message, now).db;
        PlanetTaskOutcome(true, SetAutomation(imported, nid, RecordSuccess(pending, now)), Some(nid))
  }

  /** The task with the import's result honoured: a failed import, with or
      without data, is recorded as one failure and reported. */
  function RefreshPlanetSpec(db: PlanetTable, scan: seq<string>, fetch: PlanetFetch, materials: MaterialMap,
                             ids: RowIds, message: string, now: int): PlanetTaskOutcome
    requires forall i :: 0 <= i < |scan| ==> scan[i] in db
  {
    match OldestCandidate(db, scan, now)
    case None => PlanetTaskOutcome(false, db, None)
    case Some(nid) =>
      var pending := db[nid].automation.(status := Pending);
      var marked := SetAutomation(db, nid, pending);
      match fetch
      case FetchRaised(err) =>
        PlanetTaskOutcome(false, SetAutomation(marked, nid, RecordFailure(pending, err, now, PLANET_RETRY_DELAY_MINUTES)), Some(nid))
      case Fetched(data) =>
        var result := ImportPlanetSpec(marked, data, materials, ids, message, now);
        if result.ok then PlanetTaskOutcome(true, SetAutomation(result.db, nid, RecordSuccess(pending, now)), Some(nid))
        else PlanetTaskOutcome(false, SetAutomation(result.db, nid, RecordFailure(pending, message, now, PLANET_RETRY_DELAY_MINUTES)), Some(nid))
  }

  method RefreshPlanet(db: PlanetTable, scan: seq<string>, fetch: PlanetFetch, materials: MaterialMap,
                       ids: RowIds, message: string, now: int)
    returns (ok: bool, after: PlanetTable, infrastructureFor: Option<string>)
    requires forall i :: 0 <= i < |scan| ==> scan[i] in db
    ensures PlanetTaskOutcome(ok, after, infrastructureFor) == RefreshPlanetSpec(db, scan, fetch, materials, ids, message, now)
  {
    var picked := OldestCandidate(db, scan, now);
    if picked.None? {
      return false, db, None;
    }
    var nid := picked.value;
    infrastructureFor := Some(nid);
    // mark pending and save before importing
    var pending := db[nid].automation.(status := Pending);
    after := SetAutomation(db, nid, pending);
    if fetch.FetchRaised? {
      after := SetAutomation(after, nid, RecordFailure(pending, fetch.message, now, PLANET_RETRY_DELAY_MINUTES));
      return false, after, infrastructureFor;
    }
    var imported;
    ok, imported := ImportPlanet(after, fetch.data, materials, ids, message, now);
    if ok {
      after := SetAutomation(imported, nid, RecordSuccess(pending, now));
    } else {
      after := SetAutomation(imported, nid, RecordFailure(pending, message, now, PLANET_RETRY_DELAY_MINUTES));
    }
  }

  lemma ImportKeepsPlanets(db: PlanetTable, data: Option<PlanetSchema>, materials: MaterialMap, ids: RowIds, message: string, now: int)
    ensures db.Keys <= ImportPlanetSpec(db, data, materials, ids, message, now).db.Keys
  {
  }

  /** The task as written reports success and clears the failure count of
      the picked planet when the feed has no data for it, or when the import
      rolled back and recorded a failure: the import's result is never
      looked at. */
  lemma AsWrittenIgnoresImportResult(db: PlanetTable, scan: seq<string>, data: Option<PlanetSchema>, materials: MaterialMap,
                                     ids: RowIds, message: string, now: int, nid: string)
    requires forall i :: 0 <= i < |scan| ==> scan[i] in db
    requires OldestCandidate(db, scan, now) == Some(nid)
    requires !ImportPlanetSpec(SetAutomation(db, nid, db[nid].automation.(status := Pending)), data, materials, ids, message, now).ok
    ensures var out := RefreshPlanetAsWritten(db, scan, Fetched(data), materials, ids, message, now);
      && out.ok
      && nid in out.db
      && out.db[nid].automation.status == Ok
      && out.db[nid].automation.errorCount == 0
      && out.db[nid].automation.lastRefreshedAt == now
  {
    var marked := SetAutomation(db, nid, db[nid].automation.(status := Pending));
    ImportKeepsPlanets(marked, data, materials, ids, message, now);
  }

  /** The refresh, scanning every planet, picks the stalest candidate of
      the table, queues its infrastructure refresh, and leaves it settled,
      never pending: success exactly when the import succeeded, otherwise
      one more failure. With no candidate it changes nothing. */
  lemma RefreshPlanetOutcome(db: PlanetTable, scan: seq<string>, fetch: PlanetFetch, materials: MaterialMap,
                             ids: RowIds, message: string, now: int)
    requires forall i :: 0 <= i < |scan| ==> scan[i] in db
    requires forall nid :: nid in db ==> nid in scan
    ensures var out := RefreshPlanetSpec(db, scan, fetch, materials, ids, message, now);
      match OldestCandidate(db, scan, now)
      case None =>
        && out == PlanetTaskOutcome(false, db, None)
        && (forall m :: m in db ==> !IsRefreshCandidate(db[m].automation, now))
      case Some(nid) =>
        var marked := SetAutomation(db, nid, db[nid].automation.(status := Pending));
        && IsRefreshCandidate(db[nid].automation, now)
        && (forall m :: m in db && IsRefreshCandidate(db[m].automation, now) ==>
              db[nid].automation.lastRefreshedAt <= db[m].automation.lastRefreshedAt)
        && out.infrastructureFor == Some(nid)
        && (out.ok <==> fetch.Fetched? && ImportPlanetSpec(marked, fetch.data, materials, ids, message, now).ok)
        && nid in out.db
        && Settled(out.db[nid].automation)
        && (out.ok ==> out.db[nid].automation.status == Ok && out.db[nid].automation.lastRefreshedAt == now)
        && (!out.ok ==> out.db[nid].automation.errorCount == db[nid].automation.errorCount + 1)
        && (!out.ok ==> out.db[nid].automation.lastRefreshedAt == db[nid].automation.lastRefreshedAt)
  {
    match OldestCandidate(db, scan, now)
    case None =>
    case Some(nid) =>
      var pending := db[nid].automation.(status := Pending);
      var marked := SetAutomation(db, nid, pending);
      assert RecordSuccess(pending, now) == RecordOutcome(pending, None, now, PLANET_RETRY_DELAY_MINUTES);
      assert RecordFailure(pending, message, now, PLANET_RETRY_DELAY_MINUTES)
          == RecordOutcome(pending, Some(message), now, PLANET_RETRY_DELAY_MINUTES);
      if fetch.FetchRaised? {
        assert RecordFailure(pending, fetch.message, now, PLANET_RETRY_DELAY_MINUTES)
            == RecordOutcome(pending, Some(fetch.message), now, PLANET_RETRY_DELAY_MINUTES);
      } else {
        ImportKeepsPlanets(marked, fetch.data, materials, ids, message, now);
      }
  }

  // ---------------------------------------------------------------------
  // Dispatcher of the user FIO refresh

  const DISPATCH_LIMIT: nat := 100
  const ACTIVE_STALENESS: int := 30 * 60
  const INACTIVE_STALENESS: int := 6 * 60 * 60
  const RECENT_LOGIN: int := 24 * 60 * 60

  /** A user's player-data row joined with the user's columns. */
  datatype Candidate = Candidate(
    userId: nat,
    prunUsername: Option<string>,
    fioApikey: Option<string>,
    lastLogin: Option<int>,
    automation: AutomationState)

  /** Both credentials are set and not both empty: the exclusion of the
      query drops a row only when both columns are empty. */
  predicate HasCredentials(c: Candidate)
  {
    c.prunUsername.Some? && c.fioApikey.Some? && !(c.prunUsername.value == "" && c.fioApikey.value == "")
  }

  /** The retry time has come, failures are left and no refresh is running. */
  predicate ReadyForRetry(c: Candidate, now: int)
  {
    && (c.automation.nextRetryAt.None? || c.automation.nextRetryAt.value <= now)
    && c.automation.errorCount < MAX_RETRIES
    && c.automation.status != Pending
  }

  /** Data of a user who logged in within a day is due after 30 minutes,
      anyone's after 6 hours. */
  predicate IsDue(c: Candidate, now: int)
  {
    || (c.lastLogin.Some? && c.lastLogin.value >= now - RECENT_LOGIN && c.automation.lastRefreshedAt <= now - ACTIVE_STALENESS)
    || c.automation.lastRefreshedAt <= now - INACTIVE_STALENESS
  }

  predicate Eligible(c: Candidate, now: int)
  {
    HasCredentials(c) && ReadyForRetry(c, now) && IsDue(c, now)
  }

  /** The eligible rows, in scan order. */
  function EligibleRows(rows: seq<Candidate>, now: int): (r: seq<Candidate>)
    ensures forall c :: c in r <==> c in rows && Eligible(c, now)
    ensures |r| <= |rows|
  {
    if |rows| == 0 then []
    else
      var n := |rows| - 1;
      assert rows == rows[..n] + [rows[n]];
      EligibleRows(rows[..n], now) + (if Eligible(rows[n], now) then [rows[n]] else [])
  }

  function LastRefreshed(c: Candidate): int
  {
    c.automation.lastRefreshedAt
  }

  /** The eligible rows, least recently refreshed first. */
  function ByStaleness(rows: seq<Candidate>, now: int): seq<Candidate>
  {
    SortByInt(EligibleRows(rows, now), LastRefreshed)
  }

  /** The rows the dispatcher takes: at most 100, stalest first. */
  function Selected(rows: seq<Candidate>, now: int): seq<Candidate>
  {
    Take(ByStaleness(rows, now), DISPATCH_LIMIT)
  }

  /** The arguments of one queued refresh. */
  datatype RefreshArgs = RefreshArgs(userId: nat, prunUsername: Option<string>, fioApikey: Option<string>)

  function ArgsOf(c: Candidate): RefreshArgs
  {
    RefreshArgs(c.userId, c.prunUsername, c.fioApikey)
  }

  method DispatchFioUpdates(rows: seq<Candidate>, now: int) returns (dispatched: seq<RefreshArgs>, count: nat)
    ensures dispatched == MapSeq(Selected(rows, now), ArgsOf)
    ensures count == |dispatched|
  {
    var candidates := Selected(rows, now);
    dispatched := [];
    count := 0;
    for i := 0 to |candidates|
      invariant dispatched == MapSeq(candidates[..i], ArgsOf)
      invariant count == i
    {
      MapSeqSnoc(candidates, i, ArgsOf);
      dispatched := dispatched + [ArgsOf(candidates[i])];
      count := count + 1;
    }
    assert candidates[..|candidates|] == candidates;
  }

  /** The dispatcher queues one refresh per selected row: all of the
      eligible rows when there are at most 100, otherwise 100; each for an
      eligible row; stalest first; and no eligible row left out was refreshed
      less recently than one taken. */
  lemma DispatchSelectsStalest(rows: seq<Candidate>, now: int)
    ensures var sel := Selected(rows, now);
      var elig := EligibleRows(rows, now);
      && |sel| == (if |elig| <= DISPATCH_LIMIT then |elig| else DISPATCH_LIMIT)
      && (forall c :: c in sel ==> Eligible(c, now))
      && (forall i, j :: 0 <= i < j < |sel| ==> LastRefreshed(sel[i]) <= LastRefreshed(sel[j]))
      && multiset(elig) == multiset(sel) + multiset(ByStaleness(rows, now)[|sel|..])
      && (forall d, k :: d in ByStaleness(rows, now)[|sel|..] && k in sel ==> LastRefreshed(k) <= LastRefreshed(d))
  {
    var sorted := ByStaleness(rows, now);
    var sel := Selected(rows, now);
    SortByIntSorted(EligibleRows(rows, now), LastRefreshed);
    assert sel == sorted[..|sel|];
    assert sorted == sel + sorted[|sel|..];
    SortedSplit(sorted, LastRefreshed, |sel|);
    forall c | c in sel
      ensures Eligible(c, now)
    {
      assert c in multiset(sorted);
    }
  }

  // ---------------------------------------------------------------------
  // Refresh of one user's FIO data

  /** A JSON column: the default empty object, or the dumped records. */
  datatype Blob = EmptyObject | Records(items: seq<string>)

  datatype PlayerData = PlayerData(automation: AutomationState, storage: Blob, sites: Blob, warehouses: Blob, ships: Blob)

  /** The four lists the FIO service returns, or the exception it raised. */
  datatype UserFetch =
    | UserFetchRaised(message: string)
    | UserFetched(storage: seq<string>, sites: seq<string>, warehouses: seq<string>, ships: seq<string>)

  datatype UserTaskOutcome = UserTaskOutcome(ok: bool, data: map<nat, PlayerData>)

  function NewPlayerData(now: int): PlayerData
  {
    PlayerData(Initial(now), EmptyObject, EmptyObject, EmptyObject, EmptyObject)
  }

  /** Player data by user id after the task. */
  function RefreshUserSpec(users: set<nat>, data: map<nat, PlayerData>, userId: nat, fetch: UserFetch, now: int): UserTaskOutcome
  {
    if userId !in users then UserTaskOutcome(false, data)
    else
      var row := if userId in data then data[userId] else NewPlayerData(now);
      match fetch
      case UserFetchRaised(message) =>
        UserTaskOutcome(false, data[userId := row.(automation := RecordFailure(row.automation, message, now, DEFAULT_RETRY_DELAY_MINUTES))])
      case UserFetched(s, si, w, sh) =>
        UserTaskOutcome(true, data[userId := PlayerData(RecordSuccess(row.automation, now), Records(s), Records(si), Records(w), Records(sh))])
  }

  method RefreshUserFioData(users: set<nat>, data: map<nat, PlayerData>, userId: nat, fetch: UserFetch, now: int)
    returns (ok: bool, after: map<nat, PlayerData>)
    ensures UserTaskOutcome(ok, after) == RefreshUserSpec(users, data, userId, fetch, now)
  {
    if userId !in users {
      return false, data;
    }
    var row: PlayerData;
    if userId in data {
      row := data[userId];
    } else {
      row := NewPlayerData(now);
    }
    if fetch.UserFetchRaised? {
      row := row.(automation := RecordFailure(row.automation, fetch.message, now, DEFAULT_RETRY_DELAY_MINUTES));
      return false, data[userId := row];
    }
    row := PlayerData(RecordSuccess(row.automation, now),
                      Records(fetch.storage), Records(fetch.sites), Records(fetch.warehouses), Records(fetch.ships));
    return true, data[userId := row];
  }

  /** An unknown user changes nothing; otherwise only that user's row is
      written (created if missing): success stores the four lists and a
      healthy state together, a failure keeps the stored lists and counts
      one more error. */
  lemma RefreshUserOutcome(users: set<nat>, data: map<nat, PlayerData>, userId: nat, fetch: UserFetch, now: int)
    ensures var out := RefreshUserSpec(users, data, userId, fetch, now);
      && (userId !in users ==> out == UserTaskOutcome(false, data))
      && (userId in users ==>
            var before := if userId in data then data[userId] else NewPlayerData(now);
            && out.data.Keys == data.Keys + {userId}
            && (forall u :: u in data && u != userId ==> out.data[u] == data[u])
            && Settled(out.data[userId].automation)
            && (out.ok <==> fetch.UserFetched?)
            && (fetch.UserFetched? ==>
                  && out.data[userId].storage == Records(fetch.storage)
                  && out.data[userId].sites == Records(fetch.sites)
                  && out.data[userId].warehouses == Records(fetch.warehouses)
                  && out.data[userId].ships == Records(fetch.ships)
                  && out.data[userId].automation.status == Ok)
            && (fetch.UserFetchRaised? ==>
                  && out.data[userId].(automation := before.automation) == before
                  && out.data[userId].automation.errorCount == before.automation.errorCount + 1))
  {
    if userId in users {
      var before := if userId in data then data[userId] else NewPlayerData(now);
      match fetch
      case UserFetchRaised(m) =>
        assert RecordFailure(before.automation, m, now, DEFAULT_RETRY_DELAY_MINUTES)
            == RecordOutcome(before.automation, Some(m), now, DEFAULT_RETRY_DELAY_MINUTES);
      case UserFetched(_, _, _, _) =>
        assert RecordSuccess(before.automation, now) == RecordOutcome(before.automation, None, now, DEFAULT_RETRY_DELAY_MINUTES);
    }
  }
}
