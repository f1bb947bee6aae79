/** Import of a planet's infrastructure (population) reports: the ten most
    recent simulation periods of the feed are kept, periods not stored yet
    are inserted, and stored reports older than the oldest kept period are
    deleted. */
module PlanetInfrastructure {
  import opened Common
  import opened Sorting
  import opened CacheManager
  import opened GamedataCache

  const PERIODS_TO_KEEP: nat := 10

  /** One report of the feed; the population figures it also carries are
      copied unchanged and are not modelled. */
  datatype Report = Report(reportId: string, explorersGraceEnabled: bool, simulationPeriod: int)

  function Period(r: Report): int
  {
    r.simulationPeriod
  }

  /** Sort key for "most recent first". */
  function NegatedPeriod(r: Report): int
  {
    -r.simulationPeriod
  }

  function Periods(rs: seq<Report>): set<int>
  {
    set r | r in rs :: r.simulationPeriod
  }

  /** The feed sorted by period, most recent first (ties keep feed order). */
  function ByRecency(reports: seq<Report>): seq<Report>
  {
    SortByInt(reports, NegatedPeriod)
  }

  /** The reports kept: the first ten of the feed sorted most recent first. */
  function LastPeriods(reports: seq<Report>): seq<Report>
  {
    Take(ByRecency(reports), PERIODS_TO_KEEP)
  }

  /** The reports of the feed that are not kept. */
  function Dropped(reports: seq<Report>): seq<Report>
  {
    ByRecency(reports)[|LastPeriods(reports)|..]
  }

  /** The smallest period of a non-empty list. */
  function MinPeriod(rs: seq<Report>): (m: int)
    requires |rs| > 0
    ensures m in Periods(rs)
    ensures forall r :: r in rs ==> m <= r.simulationPeriod
  {
    if |rs| == 1 then rs[0].simulationPeriod
    else
      var m := MinPeriod(rs[..|rs| - 1]);
      assert forall r :: r in rs ==> r in rs[..|rs| - 1] || r == rs[|rs| - 1];
      if rs[|rs| - 1].simulationPeriod < m then rs[|rs| - 1].simulationPeriod else m
  }

  /** The kept reports whose period is not stored, in order; two kept reports
      with the same new period are both inserted. */
  function Missing(last: seq<Report>, existing: set<int>): seq<Report>
  {
    if |last| == 0 then []
    else
      var r := last[|last| - 1];
      Missing(last[..|last| - 1], existing) + (if r.simulationPeriod in existing then [] else [r])
  }

  /** The reports whose period is at least `min`, in order. */
  function KeepFrom(rs: seq<Report>, min: int): seq<Report>
  {
    if |rs| == 0 then []
    else
      var r := rs[|rs| - 1];
      KeepFrom(rs[..|rs| - 1], min) + (if r.simulationPeriod < min then [] else [r])
  }

  datatype InfraOutcome =
    | NoData                        // the feed had nothing: returns False
    | PlanetMissing                 // the planet lookup raises
    | Imported(reports: seq<Report>)  // returns True with the planet's new reports

  /** The planet's reports after the import, in insertion order. */
  function InfraSpec(stored: seq<Report>, fetched: Option<seq<Report>>, planetExists: bool): InfraOutcome
  {
    if fetched.None? then NoData
    else if !planetExists then PlanetMissing
    else
      var last := LastPeriods(fetched.value);
      var all := stored + Missing(last, Periods(stored));
      if |last| == 0 then Imported(all) else Imported(KeepFrom(all, MinPeriod(last)))
  }

  method ImportReports(stored: seq<Report>, fetched: Option<seq<Report>>, planetExists: bool)
    returns (outcome: InfraOutcome)
    ensures outcome == InfraSpec(stored, fetched, planetExists)
  {
    if fetched.None? {
      return NoData;
    }
    var last := LastPeriods(fetched.value);
    if !planetExists {
      return PlanetMissing;
    }
    var fetchedPeriods := Periods(last);
    var existing := Periods(stored) * fetchedPeriods;
    var toCreate: seq<Report> := [];
    var i := 0;
    while i < |last|
      invariant 0 <= i <= |last|
      invariant toCreate == Missing(last[..i], Periods(stored))
    {
      var r := last[i];
      assert r.simulationPeriod in fetchedPeriods;
      assert last[..i + 1][..i] == last[..i];
      if r.simulationPeriod !in existing {
        toCreate := toCreate + [r];
      }
      i := i + 1;
    }
    assert last[..|last|] == last;
    var after := stored + toCreate;
    PeriodsEmpty(last);
    if fetchedPeriods != {} {
      after := KeepFrom(after, MinPeriod(last));
    }
    return Imported(after);
  }

  /** The import as the endpoint runs it: after a successful import the
      planet's cached population report is dropped. */
  method ImportPlanetInfrastructure(store: CacheStore, naturalId: string, stored: seq<Report>,
                                    fetched: Option<seq<Report>>, planetExists: bool)
    returns (outcome: InfraOutcome)
    modifies store
    ensures outcome == InfraSpec(stored, fetched, planetExists)
    ensures store.entries == if outcome.Imported? then old(store.entries) - {KeyPlanetPopr(naturalId)}
                             else old(store.entries)
  {
    outcome := ImportReports(stored, fetched, planetExists);
    if outcome.Imported? {
      store.Delete(KeyPlanetPopr(naturalId));
    }
  }

  // ---------------------------------------------------------------------
  // Lemmas about the pieces

  lemma PeriodsEmpty(rs: seq<Report>)
    ensures Periods(rs) == {} <==> rs == []
  {
    if rs != [] {
      assert rs[0].simulationPeriod in Periods(rs);
    }
  }

  lemma {:induction false} MissingMembers(last: seq<Report>, existing: set<int>)
    ensures forall r :: r in Missing(last, existing) <==> r in last && r.simulationPeriod !in existing
  {
    if |last| > 0 {
      MissingMembers(last[..|last| - 1], existing);
      assert last == last[..|last| - 1] + [last[|last| - 1]];
    }
  }

  lemma {:induction false} KeepFromMembers(rs: seq<Report>, min: int)
    ensures forall r :: r in KeepFrom(rs, min) <==> r in rs && r.simulationPeriod >= min
  {
    if |rs| > 0 {
      KeepFromMembers(rs[..|rs| - 1], min);
      assert rs == rs[..|rs| - 1] + [rs[|rs| - 1]];
    }
  }

  lemma {:induction false} KeepFromAppend(a: seq<Report>, b: seq<Report>, min: int)
    ensures KeepFrom(a + b, min) == KeepFrom(a, min) + KeepFrom(b, min)
    decreases |b|
  {
    if |b| > 0 {
      var b' := b[..|b| - 1];
      assert (a + b)[..|a + b| - 1] == a + b';
      assert (a + b)[|a + b| - 1] == b[|b| - 1];
      KeepFromAppend(a, b', min);
    } else {
      assert a + b == a;
    }
  }

  lemma {:induction false} KeepFromAll(rs: seq<Report>, min: int)
    requires forall r :: r in rs ==> r.simulationPeriod >= min
    ensures KeepFrom(rs, min) == rs
  {
    if |rs| > 0 {
      var n := |rs| - 1;
      var init := rs[..n];
      assert rs[n] in rs;
      assert KeepFrom(rs, min) == KeepFrom(init, min) + [rs[n]];
      KeepFromAll(init, min);
      assert rs == init + [rs[n]];
    }
  }

  lemma {:induction false} MissingNone(last: seq<Report>, existing: set<int>)
    requires Periods(last) <= existing
    ensures Missing(last, existing) == []
  {
    if |last| > 0 {
      assert last[|last| - 1].simulationPeriod in Periods(last);
      assert Periods(last[..|last| - 1]) <= Periods(last);
      MissingNone(last[..|last| - 1], existing);
    }
  }

  // ---------------------------------------------------------------------
  // Properties of the import

  /** The kept reports are the ten most recent: the feed splits into kept
      and dropped reports, the kept ones are ordered most recent first, there
      are ten of them unless the feed is shorter, and no dropped report is
      more recent than a kept one. */
  lemma KeepsMostRecent(reports: seq<Report>)
    ensures var last := LastPeriods(reports);
      && multiset(reports) == multiset(last) + multiset(Dropped(reports))
      && |last| == (if |reports| < PERIODS_TO_KEEP then |reports| else PERIODS_TO_KEEP)
      && (forall i, j :: 0 <= i < j < |last| ==> last[j].simulationPeriod <= last[i].simulationPeriod)
      && (forall d, k :: d in Dropped(reports) && k in last ==> d.simulationPeriod <= k.simulationPeriod)
  {
    var sorted := ByRecency(reports);
    var last := LastPeriods(reports);
    assert sorted == last + Dropped(reports);
    assert multiset(reports) == multiset(last) + multiset(Dropped(reports)) by {
      assert multiset(sorted) == multiset(reports);
    }
    assert |sorted| == |reports| by {
      assert |multiset(sorted)| == |multiset(reports)|;
    }
    RecencyOrder(reports);
  }

  /** The ordering half of `KeepsMostRecent`. */
  lemma RecencyOrder(reports: seq<Report>)
    ensures var last := LastPeriods(reports);
      && (forall i, j :: 0 <= i < j < |last| ==> last[j].simulationPeriod <= last[i].simulationPeriod)
      && (forall d, k :: d in Dropped(reports) && k in last ==> d.simulationPeriod <= k.simulationPeriod)
  {
    var sorted := ByRecency(reports);
    var last := LastPeriods(reports);
    SortByIntSorted(reports, NegatedPeriod);
    assert last == sorted[..|last|];
    SortedSplit(sorted, NegatedPeriod, |last|);
    forall i, j | 0 <= i < j < |last|
      ensures last[j].simulationPeriod <= last[i].simulationPeriod
    {
      assert NegatedPeriod(last[i]) <= NegatedPeriod(last[j]);
    }
  }

  /** An empty report list stores nothing new and deletes nothing. */
  lemma EmptyFeedKeepsReports(stored: seq<Report>)
    ensures InfraSpec(stored, Some([]), true) == Imported(stored)
  {
    assert ByRecency([]) == [];
    assert stored + [] == stored;
  }

  /** After an import with at least one report: every kept period is stored;
      the stored reports at or above the oldest kept period survive, in
      order, followed by the kept reports whose period was not stored; and
      nothing older than the oldest kept period remains. */
  lemma ImportEffect(stored: seq<Report>, reports: seq<Report>)
    requires reports != []
    ensures var last := LastPeriods(reports);
      var outcome := InfraSpec(stored, Some(reports), true);
      && |last| > 0
      && outcome == Imported(KeepFrom(stored, MinPeriod(last)) + Missing(last, Periods(stored)))
      && Periods(last) <= Periods(outcome.reports)
      && (forall r :: r in outcome.reports ==> r.simulationPeriod >= MinPeriod(last))
      && (forall r :: r in Missing(last, Periods(stored)) ==> r in last && r.simulationPeriod !in Periods(stored))
  {
    var last := LastPeriods(reports);
    assert |last| > 0;
    var m := MinPeriod(last);
    var created := Missing(last, Periods(stored));
    MissingMembers(last, Periods(stored));
    KeepFromAppend(stored, created, m);
    KeepFromAll(created, m);
    var after := KeepFrom(stored, m) + created;
    KeepFromMembers(stored, m);
    KeepFromMembers(stored + created, m);
    forall p | p in Periods(last)
      ensures p in Periods(after)
    {
      var r :| r in last && r.simulationPeriod == p;
      if p in Periods(stored) {
        var s :| s in stored && s.simulationPeriod == p;
        assert s in after;
      } else {
        assert r in created;
      }
    }
  }

  /** Importing the same feed again inserts and deletes nothing. */
  lemma ImportIdempotent(stored: seq<Report>, reports: seq<Report>)
    ensures InfraSpec(stored, Some(reports), true).Imported?
    ensures var once := InfraSpec(stored, Some(reports), true).reports;
      InfraSpec(once, Some(reports), true) == Imported(once)
  {
    var last := LastPeriods(reports);
    var once := InfraSpec(stored, Some(reports), true).reports;
    if reports == [] {
      EmptyFeedKeepsReports(stored);
      EmptyFeedKeepsReports(once);
    } else {
      ImportEffect(stored, reports);
      MissingNone(last, Periods(once));
      assert once + [] == once;
      KeepFromAll(once, MinPeriod(last));
    }
  }
}
