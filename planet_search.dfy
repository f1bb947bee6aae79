/** The planet search: a request of resource tickers, COGC programs,
    environment allowances and required infrastructure filters the planet
    table; every filter is conjunctive. The resource filter counts matched
    resources against the length of the ticker list; `IntendedSearch` is the
    search with the plain "every listed ticker is present" test. The term
    search matches the natural id or the name, ignoring case. */
module PlanetSearch {
  import opened Common
  import opened PlanetModels

  datatype SearchRequest = SearchRequest(
    materials: seq<string>,
    cogcPrograms: seq<CogcProgramType>,
    flags: SearchFlags)

  /** The boolean fields of a request. */
  datatype SearchFlags = SearchFlags(
    mustBeFertile: bool,
    mustHaveLocalmarket: bool,
    mustHaveChamberOfCommerce: bool,
    mustHaveWarehouse: bool,
    mustHaveAdministrationCenter: bool,
    mustHaveShipyard: bool,
    rocky: bool,
    gaseous: bool,
    lowGravity: bool,
    highGravity: bool,
    lowPressure: bool,
    highPressure: bool,
    lowTemperature: bool,
    highTemperature: bool)

  // ---------------------------------------------------------------------
  // Resources

  /** The material ids of the resources whose ticker is listed. */
  function Matched(resources: ResourceTable, materials: seq<string>): set<string>
  {
    set mid | mid in resources && resources[mid].materialTicker.Some?
                              && resources[mid].materialTicker.value in materials
  }

  /** The resource filter as written: the number of distinct resources
      whose ticker is listed must equal the length of the list. */
  predicate MaterialsFilterAsWritten(resources: ResourceTable, materials: seq<string>)
  {
    |materials| == 0 || |Matched(resources, materials)| == |materials|
  }

  /** The resource filter as intended: every listed ticker is the ticker of
      some resource of the planet. */
  predicate MaterialsFilter(resources: ResourceTable, materials: seq<string>)
  {
    forall t :: t in materials ==> exists mid :: mid in resources && resources[mid].materialTicker == Some(t)
  }

  /** A planet holding one resource row per ticker. */
  predicate TickersDistinct(resources: ResourceTable)
  {
    forall m1, m2 :: m1 in resources && m2 in resources && m1 != m2 && resources[m1].materialTicker.Some?
                     ==> resources[m1].materialTicker != resources[m2].materialTicker
  }

  // ---------------------------------------------------------------------
  // The other filters

  /** With programs listed, the planet's active program must be one of them
      and its COGC must be active. */
  predicate CogcFilter(active: Option<CogcProgramType>, status: Option<CogcStatus>, programs: seq<CogcProgramType>)
  {
    |programs| == 0 || (active.Some? && active.value in programs && status == Some(Active))
  }

  /** Rocky alone asks for a surface, gaseous alone for none, both or
      neither for nothing. */
  predicate SurfaceFilter(surface: bool, rocky: bool, gaseous: bool)
  {
    if rocky && !gaseous then surface
    else if gaseous && !rocky then !surface
    else true
  }

  /** The environment types one dimension allows: normal always, low and
      high when their flags are set. */
  function Allowed(low: bool, high: bool): set<Environment>
  {
    {Normal} + (if low then {Low} else {}) + (if high then {High} else {})
  }

  predicate InfrastructureFilter(a: PlanetAttributes, f: SearchFlags)
  {
    && (f.mustHaveLocalmarket ==> a.hasLocalmarket)
    && (f.mustHaveChamberOfCommerce ==> a.hasChamberOfCommerce)
    && (f.mustHaveWarehouse ==> a.hasWarehouse)
    && (f.mustHaveAdministrationCenter ==> a.hasAdministrationCenter)
    && (f.mustHaveShipyard ==> a.hasShipyard)
  }

  /** One planet against the request, as the search filters it; `active`
      is the planet's active-program annotation. */
  predicate PlanetMatches(p: Planet, active: Option<CogcProgramType>, req: SearchRequest)
  {
    && MaterialsFilterAsWritten(p.resources, req.materials)
    && CogcFilter(active, p.attrs.cogcProgramStatus, req.cogcPrograms)
    && ColumnFilters(p.attrs, req.flags)
  }

  /** One planet against the request with the intended resource filter. */
  predicate IntendedMatches(p: Planet, active: Option<CogcProgramType>, req: SearchRequest)
  {
    && MaterialsFilter(p.resources, req.materials)
    && CogcFilter(active, p.attrs.cogcProgramStatus, req.cogcPrograms)
    && ColumnFilters(p.attrs, req.flags)
  }

  /** The filters on the planet's own columns. */
  predicate ColumnFilters(a: PlanetAttributes, f: SearchFlags)
  {
    && (f.mustBeFertile ==> a.fertilityType)
    && SurfaceFilter(a.surface, f.rocky, f.gaseous)
    && a.gravityType in Allowed(f.lowGravity, f.highGravity)
    && a.pressureType in Allowed(f.lowPressure, f.highPressure)
    && a.temperatureType in Allowed(f.lowTemperature, f.highTemperature)
    && InfrastructureFilter(a, f)
  }

  /** The natural ids of the matching planets; `active` gives each planet's
      annotation. The order of the result is not modelled. */
  function Search(db: PlanetTable, active: string -> Option<CogcProgramType>, req: SearchRequest): set<string>
  {
    set nid | nid in db && PlanetMatches(db[nid], active(nid), req)
  }

  /** The search with the intended resource filter. */
  function IntendedSearch(db: PlanetTable, active: string -> Option<CogcProgramType>, req: SearchRequest): set<string>
  {
    set nid | nid in db && IntendedMatches(db[nid], active(nid), req)
  }

  // ---------------------------------------------------------------------
  // The term search

  /** Case-insensitive containment, as the database's upper-cased LIKE. */
  predicate ContainsIgnoringCase(s: string, term: string)
  {
    Contains(Upper(s), Upper(term))
  }

  /** An empty term finds nothing; otherwise the planets whose natural id or
      name contains the term, each once. */
  function SearchByTerm(db: PlanetTable, term: string): set<string>
  {
    if term == "" then {}
    else set nid | nid in db && (|| ContainsIgnoringCase(db[nid].attrs.naturalId, term)
                                 || (db[nid].attrs.name.Some? && ContainsIgnoringCase(db[nid].attrs.name.value, term)))
  }

  // ---------------------------------------------------------------------
  // Properties of the resource filter

  /** The image of a set of material ids under their tickers. */
  function TickersOf(resources: ResourceTable, mids: set<string>): set<string>
  {
    set mid | mid in mids && mid in resources && resources[mid].materialTicker.Some?
      :: resources[mid].materialTicker.value
  }

  lemma {:induction false} TickersOfCard(resources: ResourceTable, mids: set<string>)
    requires TickersDistinct(resources)
    requires forall mid :: mid in mids ==> mid in resources && resources[mid].materialTicker.Some?
    ensures |TickersOf(resources, mids)| == |mids|
    decreases |mids|
  {
    if mids != {} {
      var x :| x in mids;
      var rest := mids - {x};
      TickersOfCard(resources, rest);
      var t := resources[x].materialTicker.value;
      assert TickersOf(resources, mids) == TickersOf(resources, rest) + {t};
      forall mid | mid in rest
        ensures resources[mid].materialTicker.value != t
      {
        assert mid != x;
      }
      assert t !in TickersOf(resources, rest);
    }
  }

  /** The tickers of the matched resources are among the listed ones, and
      all of them when every listed ticker is present. */
  lemma FoundTickers(resources: ResourceTable, materials: seq<string>)
    ensures TickersOf(resources, Matched(resources, materials)) <= set t | t in materials
    ensures MaterialsFilter(resources, materials) ==>
      TickersOf(resources, Matched(resources, materials)) == set t | t in materials
  {
    var m := Matched(resources, materials);
    if MaterialsFilter(resources, materials) {
      forall t | t in materials
        ensures t in TickersOf(resources, m)
      {
        var mid :| mid in resources && resources[mid].materialTicker == Some(t);
        assert mid in m;
      }
    }
  }

  /** A ticker no resource carries is not among the found tickers. */
  lemma TickerNotFound(resources: ResourceTable, mids: set<string>, t: string)
    requires forall mid :: mid in resources ==> resources[mid].materialTicker != Some(t)
    ensures t !in TickersOf(resources, mids)
  {
  }

  /** A listed ticker that no resource carries is missing from the found
      tickers, so fewer tickers are found than listed. */
  lemma FoundFewer(resources: ResourceTable, materials: seq<string>)
    requires !MaterialsFilter(resources, materials)
    ensures |TickersOf(resources, Matched(resources, materials))| < |set t | t in materials|
  {
    var t :| t in materials && !exists mid :: mid in resources && resources[mid].materialTicker == Some(t);
    FoundTickers(resources, materials);
    TickerNotFound(resources, Matched(resources, materials), t);
    StrictSubsetCard(TickersOf(resources, Matched(resources, materials)), (set u | u in materials), t);
  }

  /** With no ticker listed twice and one resource per ticker, the count
      test is the intended test. */
  lemma AsWrittenAgreesOnDistinctLists(resources: ResourceTable, materials: seq<string>)
    requires Distinct(materials)
    requires TickersDistinct(resources)
    ensures MaterialsFilterAsWritten(resources, materials) <==> MaterialsFilter(resources, materials)
  {
    TickersOfCard(resources, Matched(resources, materials));
    SetOfSeqCard(materials);
    FoundTickers(resources, materials);
    if !MaterialsFilter(resources, materials) {
      FoundFewer(resources, materials);
    }
  }


  /** A ticker listed twice empties the result: the planet holding it is
      found by the intended filter and rejected by the count test. */
  lemma AsWrittenRejectsRepeatedTicker()
    ensures var resources := map["1aa2bd3ab6e8c47fdf7e5b5a02ba4a9e" := Resource(0, Mineral, 1.0, 70.0, Some("FE"))];
      && MaterialsFilter(resources, ["FE", "FE"])
      && !MaterialsFilterAsWritten(resources, ["FE", "FE"])
  {
    var resources := map["1aa2bd3ab6e8c47fdf7e5b5a02ba4a9e" := Resource(0, Mineral, 1.0, 70.0, Some("FE"))];
    assert Matched(resources, ["FE", "FE"]) == {"1aa2bd3ab6e8c47fdf7e5b5a02ba4a9e"};
  }

  // ---------------------------------------------------------------------
  // Properties of the search

  /** A dimension admits its type exactly when the type is normal or its
      flag is set. */
  lemma AllowedMeaning(t: Environment, low: bool, high: bool)
    ensures t in Allowed(low, high) <==> (t == Low ==> low) && (t == High ==> high)
  {
  }

  /** The conditions of one planet, column by column; flags left false and
      empty lists restrict nothing. */
  predicate MeetsRequest(p: Planet, active: Option<CogcProgramType>, req: SearchRequest)
  {
    && (forall t :: t in req.materials ==> exists mid :: mid in p.resources && p.resources[mid].materialTicker == Some(t))
    && (|req.cogcPrograms| > 0 ==> active.Some? && active.value in req.cogcPrograms
                                   && p.attrs.cogcProgramStatus == Some(Active))
    && MeetsColumns(p.attrs, req.flags)
  }

  predicate MeetsColumns(a: PlanetAttributes, f: SearchFlags)
  {
    && (f.mustBeFertile ==> a.fertilityType)
    && (f.rocky && !f.gaseous ==> a.surface)
    && (f.gaseous && !f.rocky ==> !a.surface)
    && (a.gravityType == Low ==> f.lowGravity) && (a.gravityType == High ==> f.highGravity)
    && (a.pressureType == Low ==> f.lowPressure) && (a.pressureType == High ==> f.highPressure)
    && (a.temperatureType == Low ==> f.lowTemperature) && (a.temperatureType == High ==> f.highTemperature)
    && (f.mustHaveLocalmarket ==> a.hasLocalmarket)
    && (f.mustHaveChamberOfCommerce ==> a.hasChamberOfCommerce)
    && (f.mustHaveWarehouse ==> a.hasWarehouse)
    && (f.mustHaveAdministrationCenter ==> a.hasAdministrationCenter)
    && (f.mustHaveShipyard ==> a.hasShipyard)
  }

  /** The column filters mean the column conditions. */
  lemma ColumnsMeaning(a: PlanetAttributes, f: SearchFlags)
    ensures ColumnFilters(a, f) <==> MeetsColumns(a, f)
  {
    AllowedMeaning(a.gravityType, f.lowGravity, f.highGravity);
    AllowedMeaning(a.pressureType, f.lowPressure, f.highPressure);
    AllowedMeaning(a.temperatureType, f.lowTemperature, f.highTemperature);
  }

  /** With the intended filter a planet is found exactly when it meets
      every requested condition. */
  lemma IntendedSearchMembers(db: PlanetTable, active: string -> Option<CogcProgramType>, req: SearchRequest, nid: string)
    ensures nid in IntendedSearch(db, active, req) <==> nid in db && MeetsRequest(db[nid], active(nid), req)
  {
    if nid in db {
      ColumnsMeaning(db[nid].attrs, req.flags);
    }
  }

  /** For a ticker list without repeats, over planets with one resource per
      ticker, the search finds a planet exactly when it meets every
      requested condition. */
  lemma SearchMembers(db: PlanetTable, active: string -> Option<CogcProgramType>, req: SearchRequest, nid: string)
    requires Distinct(req.materials)
    requires nid in db ==> TickersDistinct(db[nid].resources)
    ensures nid in Search(db, active, req) <==> nid in db && MeetsRequest(db[nid], active(nid), req)
  {
    if nid in db {
      AsWrittenAgreesOnDistinctLists(db[nid].resources, req.materials);
      ColumnsMeaning(db[nid].attrs, req.flags);
    }
  }

  /** A ticker listed twice makes the search find nothing among planets
      with one resource per ticker: fewer resources can match than the list
      is long. */
  lemma RepeatedTickerFindsNothing(db: PlanetTable, active: string -> Option<CogcProgramType>, req: SearchRequest)
    requires !Distinct(req.materials)
    requires forall nid :: nid in db ==> TickersDistinct(db[nid].resources)
    ensures Search(db, active, req) == {}
  {
    SetOfSeqCard(req.materials);
    forall nid | nid in db
      ensures !MaterialsFilterAsWritten(db[nid].resources, req.materials)
    {
      RepeatedTickerFails(db[nid].resources, req.materials);
    }
  }

  lemma RepeatedTickerFails(resources: ResourceTable, materials: seq<string>)
    requires |set t | t in materials| < |materials|
    requires TickersDistinct(resources)
    ensures |Matched(resources, materials)| < |materials|
  {
    var m := Matched(resources, materials);
    TickersOfCard(resources, m);
    FoundTickers(resources, materials);
    SubsetCard(TickersOf(resources, m), set t | t in materials);
  }

  /** A found planet under a program filter has a program running now of a
      listed type, provided the annotation is one the query may produce. */
  lemma CogcMatchIsActiveNow(p: Planet, active: Option<CogcProgramType>, nowMs: int, req: SearchRequest)
    requires ActiveAnnotation(p.programs, nowMs, active)
    requires PlanetMatches(p, active, req) && |req.cogcPrograms| > 0
    ensures exists k :: k in p.programs && IsActiveAt(k, nowMs) && k.programType.Some?
                        && k.programType.value in req.cogcPrograms
  {
    var k :| k in p.programs && IsActiveAt(k, nowMs) && k.programType == active;
  }

  /** Allowing more environments and requiring less infrastructure never
      loses a planet; the lists, fertility and surface flags being equal. */
  predicate Looser(req: SearchRequest, wider: SearchRequest)
  {
    && wider.materials == req.materials && wider.cogcPrograms == req.cogcPrograms
    && wider.flags.mustBeFertile == req.flags.mustBeFertile && wider.flags.rocky == req.flags.rocky && wider.flags.gaseous == req.flags.gaseous
    && (req.flags.lowGravity ==> wider.flags.lowGravity) && (req.flags.highGravity ==> wider.flags.highGravity)
    && (req.flags.lowPressure ==> wider.flags.lowPressure) && (req.flags.highPressure ==> wider.flags.highPressure)
    && (req.flags.lowTemperature ==> wider.flags.lowTemperature) && (req.flags.highTemperature ==> wider.flags.highTemperature)
    && (wider.flags.mustHaveLocalmarket ==> req.flags.mustHaveLocalmarket)
    && (wider.flags.mustHaveChamberOfCommerce ==> req.flags.mustHaveChamberOfCommerce)
    && (wider.flags.mustHaveWarehouse ==> req.flags.mustHaveWarehouse)
    && (wider.flags.mustHaveAdministrationCenter ==> req.flags.mustHaveAdministrationCenter)
    && (wider.flags.mustHaveShipyard ==> req.flags.mustHaveShipyard)
  }

  lemma LooserFindsMore(db: PlanetTable, active: string -> Option<CogcProgramType>, req: SearchRequest, wider: SearchRequest)
    requires Looser(req, wider)
    ensures Search(db, active, req) <= Search(db, active, wider)
  {
    forall nid | nid in Search(db, active, req)
      ensures nid in Search(db, active, wider)
    {
      ColumnsMeaning(db[nid].attrs, req.flags);
      ColumnsMeaning(db[nid].attrs, wider.flags);
    }
  }

  /** Two requests that differ only in the order of their lists and in
      repeats within them. */
  predicate SameLists(req: SearchRequest, other: SearchRequest)
  {
    && (forall t :: t in other.materials ==> t in req.materials)
    && (forall t :: t in req.materials ==> t in other.materials)
    && (forall c :: c in other.cogcPrograms ==> c in req.cogcPrograms)
    && (forall c :: c in req.cogcPrograms ==> c in other.cogcPrograms)
    && other.flags == req.flags
  }

  lemma SameMaterials(resources: ResourceTable, m1: seq<string>, m2: seq<string>)
    requires forall t :: t in m1 ==> t in m2
    requires forall t :: t in m2 ==> t in m1
    ensures MaterialsFilter(resources, m1) <==> MaterialsFilter(resources, m2)
  {
  }

  lemma SamePrograms(active: Option<CogcProgramType>, status: Option<CogcStatus>, c1: seq<CogcProgramType>, c2: seq<CogcProgramType>)
    requires forall c :: c in c1 ==> c in c2
    requires forall c :: c in c2 ==> c in c1
    ensures CogcFilter(active, status, c1) <==> CogcFilter(active, status, c2)
  {
    if |c1| > 0 {
      assert c1[0] in c2;
    }
    if |c2| > 0 {
      assert c2[0] in c1;
    }
  }

  /** The count test sees the ticker list only through its members and
      its length. */
  lemma SameMaterialsAsWritten(resources: ResourceTable, m1: seq<string>, m2: seq<string>)
    requires forall t :: t in m1 ==> t in m2
    requires forall t :: t in m2 ==> t in m1
    requires |m1| == |m2|
    ensures MaterialsFilterAsWritten(resources, m1) <==> MaterialsFilterAsWritten(resources, m2)
  {
    assert Matched(resources, m1) == Matched(resources, m2);
  }

  /** The order of the listed tickers and programs, and repeats among the
      programs, do not change whether a planet matches; the ticker lists
      must be as long as each other, since a repeated ticker does. */
  lemma SameListsSameMatch(p: Planet, active: Option<CogcProgramType>, req: SearchRequest, other: SearchRequest)
    requires SameLists(req, other) && |other.materials| == |req.materials|
    ensures PlanetMatches(p, active, other) <==> PlanetMatches(p, active, req)
  {
    SameMaterialsAsWritten(p.resources, other.materials, req.materials);
    SamePrograms(active, p.attrs.cogcProgramStatus, other.cogcPrograms, req.cogcPrograms);
  }

  lemma ListsAsSets(db: PlanetTable, active: string -> Option<CogcProgramType>, req: SearchRequest, other: SearchRequest)
    requires SameLists(req, other) && |other.materials| == |req.materials|
    ensures Search(db, active, other) == Search(db, active, req)
  {
    forall nid | nid in db
      ensures PlanetMatches(db[nid], active(nid), other) <==> PlanetMatches(db[nid], active(nid), req)
    {
      SameListsSameMatch(db[nid], active(nid), req, other);
    }
  }

  /** With the intended filter the lists act as sets: order and repeats in
      either list do not change the result. */
  lemma IntendedListsAsSets(db: PlanetTable, active: string -> Option<CogcProgramType>, req: SearchRequest, other: SearchRequest)
    requires SameLists(req, other)
    ensures IntendedSearch(db, active, other) == IntendedSearch(db, active, req)
  {
    forall nid | nid in db
      ensures IntendedMatches(db[nid], active(nid), other) <==> IntendedMatches(db[nid], active(nid), req)
    {
      SameMaterials(db[nid].resources, other.materials, req.materials);
      SamePrograms(active(nid), db[nid].attrs.cogcProgramStatus, other.cogcPrograms, req.cogcPrograms);
    }
  }

  // ---------------------------------------------------------------------
  // Properties of the term search

  lemma UpperIdempotent(s: string)
    ensures Upper(Upper(s)) == Upper(s)
  {
  }

  /** The term search ignores the case of the term. */
  lemma TermCaseIgnored(db: PlanetTable, term: string)
    ensures SearchByTerm(db, Upper(term)) == SearchByTerm(db, term)
  {
    UpperIdempotent(term);
    assert Upper(term) == "" <==> term == "";
  }

  /** A non-empty term finds the planets whose natural id it spells out, in
      any case, and never a planet it matches nowhere. */
  lemma TermFindsNaturalId(db: PlanetTable, nid: string, term: string)
    requires nid in db && db[nid].attrs.naturalId == nid && term != ""
    ensures Upper(term) == Upper(nid) ==> nid in SearchByTerm(db, term)
    ensures nid in SearchByTerm(db, term) ==>
              ContainsIgnoringCase(nid, term)
              || (db[nid].attrs.name.Some? && ContainsIgnoringCase(db[nid].attrs.name.value, term))
  {
    if Upper(term) == Upper(nid) {
      ContainsAt(Upper(nid), Upper(term), 0);
    }
  }
}
