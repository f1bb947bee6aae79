/** The CX preference schemas of a plan: the legacy exchange codes are
    rewritten into the current `<exchange>_<period>` form when a legacy
    preference is read, and the current schema drops planet entries
    without preferences. */
module CxSchema {
  import opened Common

  // ---------------------------------------------------------------------
  // Legacy exchange codes

  /** The legacy codes that stand for a seven-day exchange, in the order
      they are tried. */
  const LEGACY_PREFIXES: seq<string> := ["AI1", "NC1", "CI1", "IC1", "NC2", "CI2"]

  /** The current seven-day codes a legacy prefix turns into. */
  const SEVEN_DAY_CODES: set<string> := {"AI1_7D", "NC1_7D", "CI1_7D", "IC1_7D"}

  /** The first of `prefixes` that `v` starts with. */
  function FirstPrefix(v: string, prefixes: seq<string>): Option<string>
  {
    if |prefixes| == 0 then None
    else if StartsWith(v, prefixes[0]) then Some(prefixes[0])
    else FirstPrefix(v, prefixes[1..])
  }

  /** The rewrite of a text value; `None` when the `PP…` form has no `_`,
      where the second part is missing and the validator raises. */
  function RemapText(v: string): Option<string>
  {
    if StartsWith(v, "PP") then
      var parts := Split(v, '_');
      if |parts| < 2 then None
      else Some(ReplaceChar(parts[1], '2', '1') + "_" + RemoveAll(parts[0], "PP"))
    else
      match FirstPrefix(v, LEGACY_PREFIXES)
      case Some(p) => Some(ReplaceChar(p, '2', '1') + "_7D")
      case None => Some(v)
  }

  /** The `exchange` field before validation: values other than text pass
      through unchanged. */
  function RemapExchange(v: Json): Option<Json>
  {
    match v
    case JText(s) => (match RemapText(s) case Some(t) => Some(JText(t)) case None => None)
    case _ => Some(v)
  }

  /** The validator, trying the legacy prefixes in order and returning at
      the first that matches. */
  method RemapExchanges(v: Json) returns (r: Option<Json>)
    ensures r == RemapExchange(v)
  {
    if !v.JText? {
      return Some(v);
    }
    var s := v.text;
    if StartsWith(s, "PP") {
      var parts := Split(s, '_');
      if |parts| < 2 {
        return None;
      }
      var period := RemoveAll(parts[0], "PP");
      var symbol := ReplaceChar(parts[1], '2', '1');
      return Some(JText(symbol + "_" + period));
    }
    var prefixes := LEGACY_PREFIXES;
    for k := 0 to |prefixes|
      invariant FirstPrefix(s, prefixes) == FirstPrefix(s, prefixes[k..])
    {
      assert prefixes[k..][1..] == prefixes[k + 1..];
      if StartsWith(s, prefixes[k]) {
        return Some(JText(ReplaceChar(prefixes[k], '2', '1') + "_7D"));
      }
    }
    return Some(v);
  }

  // ---------------------------------------------------------------------
  // Properties of the rewrite

  lemma {:induction false} FirstPrefixFound(v: string, prefixes: seq<string>)
    ensures FirstPrefix(v, prefixes).Some? <==> exists p :: p in prefixes && StartsWith(v, p)
    ensures FirstPrefix(v, prefixes).Some? ==>
              FirstPrefix(v, prefixes).value in prefixes && StartsWith(v, FirstPrefix(v, prefixes).value)
  {
    if |prefixes| > 0 {
      FirstPrefixFound(v, prefixes[1..]);
      assert prefixes == [prefixes[0]] + prefixes[1..];
    }
  }

  /** The first matching prefix is the one at `k` when none before it matches. */
  lemma {:induction false} FirstPrefixAt(v: string, prefixes: seq<string>, k: nat)
    requires k < |prefixes| && StartsWith(v, prefixes[k])
    requires forall j :: 0 <= j < k ==> !StartsWith(v, prefixes[j])
    ensures FirstPrefix(v, prefixes) == Some(prefixes[k])
  {
    if k > 0 {
      FirstPrefixAt(v, prefixes[1..], k - 1);
    }
  }

  /** The legacy prefixes have three characters each and differ. */
  lemma LegacyPrefixesShape()
    ensures forall j :: 0 <= j < |LEGACY_PREFIXES| ==> |LEGACY_PREFIXES[j]| == 3
    ensures forall i, j :: 0 <= i < j < |LEGACY_PREFIXES| ==> LEGACY_PREFIXES[i] != LEGACY_PREFIXES[j]
  {
  }

  /** Among distinct prefixes of one length `n`, the first one a text
      starts with is its first `n` characters. */
  lemma FirstPrefixOfEqualLength(v: string, prefixes: seq<string>, n: nat)
    requires forall j :: 0 <= j < |prefixes| ==> |prefixes[j]| == n
    requires forall i, j :: 0 <= i < j < |prefixes| ==> prefixes[i] != prefixes[j]
    requires exists p :: p in prefixes && StartsWith(v, p)
    ensures |v| >= n && v[..n] in prefixes
    ensures FirstPrefix(v, prefixes) == Some(v[..n])
  {
    var k :| 0 <= k < |prefixes| && StartsWith(v, prefixes[k]);
    forall j | 0 <= j < k
      ensures !StartsWith(v, prefixes[j])
    {
    }
    FirstPrefixAt(v, prefixes, k);
  }

  /** The legacy prefixes all have three characters, so the first one a
      text starts with is its first three characters. */
  lemma FirstPrefixIsHead(v: string)
    requires exists p :: p in LEGACY_PREFIXES && StartsWith(v, p)
    ensures |v| >= 3 && v[..3] in LEGACY_PREFIXES
    ensures FirstPrefix(v, LEGACY_PREFIXES) == Some(v[..3])
  {
    LegacyPrefixesShape();
    FirstPrefixOfEqualLength(v, LEGACY_PREFIXES, 3);
  }

  /** Each legacy prefix names one of the four seven-day codes, and that
      code starts with a prefix that names itself. */
  lemma SevenDayOf(p: string)
    requires p in LEGACY_PREFIXES
    ensures ReplaceChar(p, '2', '1') in LEGACY_PREFIXES[..4]
    ensures ReplaceChar(p, '2', '1') + "_7D" in SEVEN_DAY_CODES
  {
    if p == "AI1" {
      assert ReplaceChar(p, '2', '1') == "AI1" == LEGACY_PREFIXES[..4][0];
      assert "AI1" + "_7D" == "AI1_7D";
    } else if p == "NC1" {
      assert ReplaceChar(p, '2', '1') == "NC1" == LEGACY_PREFIXES[..4][1];
      assert "NC1" + "_7D" == "NC1_7D";
    } else if p == "CI1" {
      assert ReplaceChar(p, '2', '1') == "CI1" == LEGACY_PREFIXES[..4][2];
      assert "CI1" + "_7D" == "CI1_7D";
    } else if p == "IC1" {
      assert ReplaceChar(p, '2', '1') == "IC1" == LEGACY_PREFIXES[..4][3];
      assert "IC1" + "_7D" == "IC1_7D";
    } else if p == "NC2" {
      assert ReplaceChar(p, '2', '1') == "NC1" == LEGACY_PREFIXES[..4][1];
      assert "NC1" + "_7D" == "NC1_7D";
    } else {
      assert ReplaceChar(p, '2', '1') == "CI1" == LEGACY_PREFIXES[..4][2];
      assert "CI1" + "_7D" == "CI1_7D";
    }
  }

  /** A text that starts with a legacy prefix (and not with `PP`) becomes
      the seven-day code of its prefix. */
  lemma PrefixedBecomesSevenDay(v: string)
    requires !StartsWith(v, "PP")
    requires exists p :: p in LEGACY_PREFIXES && StartsWith(v, p)
    ensures RemapText(v).Some? && RemapText(v).value in SEVEN_DAY_CODES
    ensures RemapText(v).value == ReplaceChar(v[..3], '2', '1') + "_7D"
  {
    FirstPrefixIsHead(v);
    SevenDayOf(v[..3]);
  }

  /** A seven-day code is its exchange followed by `_7D`. */
  lemma SevenDayCodeParts(c: string)
    requires c in SEVEN_DAY_CODES
    ensures |c| == 6 && c[..3] in LEGACY_PREFIXES[..4] && c == c[..3] + "_7D" && c[0] != 'P'
  {
    if c == "AI1_7D" {
      assert c[..3] == "AI1" == LEGACY_PREFIXES[..4][0];
    } else if c == "NC1_7D" {
      assert c[..3] == "NC1" == LEGACY_PREFIXES[..4][1];
    } else if c == "CI1_7D" {
      assert c[..3] == "CI1" == LEGACY_PREFIXES[..4][2];
    } else {
      assert c[..3] == "IC1" == LEGACY_PREFIXES[..4][3];
    }
  }

  /** A seven-day code is read back as itself. */
  lemma SevenDayCodeKept(c: string)
    requires c in SEVEN_DAY_CODES
    ensures RemapText(c) == Some(c)
  {
    SevenDayCodeParts(c);
    var p := c[..3];
    assert p in LEGACY_PREFIXES && StartsWith(c, p);
    assert !StartsWith(c, "PP");
    PrefixedBecomesSevenDay(c);
    if p == "AI1" {
      assert ReplaceChar(p, '2', '1') == p;
    } else if p == "NC1" {
      assert ReplaceChar(p, '2', '1') == p;
    } else if p == "CI1" {
      assert ReplaceChar(p, '2', '1') == p;
    } else {
      assert p == LEGACY_PREFIXES[..4][3];
      assert ReplaceChar(p, '2', '1') == p;
    }
  }

  /** Values other than text, and texts that start neither with `PP` nor
      with a legacy prefix, are kept as they are. */
  lemma UnmatchedUnchanged(v: Json)
    requires v.JText? ==> !StartsWith(v.text, "PP") && forall p :: p in LEGACY_PREFIXES ==> !StartsWith(v.text, p)
    ensures RemapExchange(v) == Some(v)
  {
    if v.JText? {
      FirstPrefixFound(v.text, LEGACY_PREFIXES);
    }
  }

  /** The split finds a second part exactly when the text has an `_`. */
  lemma SplitHasSecondPart(s: string, sep: char)
    ensures |Split(s, sep)| >= 2 <==> sep in s
  {
    var i := FirstIndexOf(s, sep);
    if sep in s {
      assert s[..|s|] == s;
      assert i < |s|;
    } else {
      FirstIndexAbsent(s, sep);
    }
  }

  /** A `PP…` text without `_` has no symbol part: the validator raises. */
  lemma PeriodWithoutSymbolRaises(v: string)
    requires StartsWith(v, "PP")
    ensures RemapText(v).None? <==> '_' !in v
  {
    SplitHasSecondPart(v, '_');
  }

  /** Removing a substring whose first character is absent changes nothing. */
  lemma {:induction false} RemoveAllAbsent(s: string, sub: string)
    requires |sub| > 0 && sub[0] !in s
    ensures RemoveAll(s, sub) == s
    decreases |s|
  {
    if |s| >= |sub| {
      assert s[0] in s;
      assert s[..|sub|][0] == s[0];
      RemoveAllAbsent(s[1..], sub);
      assert s == [s[0]] + s[1..];
    }
  }

  /** The legacy form `PP<period>_<symbol>` becomes `<symbol>_<period>`,
      with every `2` of the symbol turned into `1`; any further `_` parts
      are dropped. */
  lemma PeriodSymbolSwapped(period: string, symbol: string, more: seq<string>)
    requires '_' !in period && 'P' !in period && '_' !in symbol
    requires forall k :: 0 <= k < |more| ==> '_' !in more[k]
    ensures RemapText(Join(["PP" + period, symbol] + more, '_'))
            == Some(ReplaceChar(symbol, '2', '1') + "_" + period)
  {
    var parts := ["PP" + period, symbol] + more;
    PeriodFormSplits(period, symbol, more);
    PeriodStripped(period);
    assert parts[0] == "PP" + period && parts[1] == symbol;
  }

  lemma PeriodFormSplits(period: string, symbol: string, more: seq<string>)
    requires '_' !in period && '_' !in symbol
    requires forall k :: 0 <= k < |more| ==> '_' !in more[k]
    ensures Split(Join(["PP" + period, symbol] + more, '_'), '_') == ["PP" + period, symbol] + more
    ensures StartsWith(Join(["PP" + period, symbol] + more, '_'), "PP")
  {
    var parts := ["PP" + period, symbol] + more;
    assert forall k :: 0 <= k < |parts| ==> '_' !in parts[k] by {
      PeriodPartsFree(period, symbol, more);
    }
    SplitJoin(parts, '_');
    assert StartsWith(Join(parts, '_'), "PP") by {
      JoinStartsWithHead(parts, '_');
      PrefixOfPrefix(Join(parts, '_'), parts[0], "PP");
    }
  }

  lemma PeriodPartsFree(period: string, symbol: string, more: seq<string>)
    requires '_' !in period && '_' !in symbol
    requires forall k :: 0 <= k < |more| ==> '_' !in more[k]
    ensures var parts := ["PP" + period, symbol] + more;
      forall k :: 0 <= k < |parts| ==> '_' !in parts[k]
  {
    var parts := ["PP" + period, symbol] + more;
    assert '_' !in "PP" + period;
    forall k | 0 <= k < |parts|
      ensures '_' !in parts[k]
    {
      if k >= 2 {
        assert parts[k] == more[k - 2];
      }
    }
  }

  lemma PrefixOfPrefix(s: string, p: string, q: string)
    requires StartsWith(s, p) && StartsWith(p, q)
    ensures StartsWith(s, q)
  {
    assert s[..|q|] == s[..|p|][..|q|];
  }

  lemma PeriodStripped(period: string)
    requires 'P' !in period
    ensures RemoveAll("PP" + period, "PP") == period
  {
    RemoveAllAbsent(period, "PP");
    assert ("PP" + period)[..2] == "PP" && ("PP" + period)[2..] == period;
  }

  /** The current form is settled: rewriting once more gives the same value,
      for every text that does not start with `PP`. */
  lemma RemapSettles(v: string)
    requires !StartsWith(v, "PP")
    ensures RemapText(v).Some?
    ensures RemapText(RemapText(v).value) == RemapText(v)
  {
    FirstPrefixFound(v, LEGACY_PREFIXES);
    if exists p :: p in LEGACY_PREFIXES && StartsWith(v, p) {
      PrefixedBecomesSevenDay(v);
      SevenDayCodeKept(RemapText(v).value);
    }
  }

  /** No legacy prefix starts with `U`, so the universe codes are kept. */
  lemma UniverseCodesKept(v: string)
    requires v == "UNIVERSE_7D" || v == "UNIVERSE_30D"
    ensures RemapText(v) == Some(v)
  {
    assert v[0] == 'U';
    forall p | p in LEGACY_PREFIXES
      ensures !StartsWith(v, p)
    {
      assert p[0] != 'U';
    }
    FirstPrefixFound(v, LEGACY_PREFIXES);
  }

  /** A current thirty-day code of a single exchange starts with its legacy
      prefix, and is read as that exchange's seven-day code. */
  lemma ThirtyDayReadAsSevenDay()
    ensures RemapText("AI1_30D") == Some("AI1_7D")
  {
    var v := "AI1_30D";
    assert v[..3] == "AI1" == LEGACY_PREFIXES[0];
    assert StartsWith(v, "AI1") && v[0] != 'P';
    PrefixedBecomesSevenDay(v);
    assert ReplaceChar("AI1", '2', '1') == "AI1";
    assert "AI1" + "_7D" == "AI1_7D";
  }

  // ---------------------------------------------------------------------
  // Current schema: planet entries without preferences are dropped

  datatype CxType = Buy | Sell | Both

  datatype ExchangePreference = ExchangePreference(cxType: CxType, exchange: string)

  /** `value` is a price; it is carried, never computed with. */
  datatype TickerPreference = TickerPreference(ticker: string, cxType: CxType, value: real)

  /** The preferences of one planet. */
  datatype PlanetPreferences<P> = PlanetPreferences(planet: string, preferences: seq<P>)

  datatype CxPreferences = CxPreferences(
    cxEmpire: seq<ExchangePreference>,
    cxPlanets: seq<PlanetPreferences<ExchangePreference>>,
    tickerEmpire: seq<TickerPreference>,
    tickerPlanets: seq<PlanetPreferences<TickerPreference>>)

  /** The entries with at least one preference, in their order. */
  function KeepNonEmpty<P>(entries: seq<PlanetPreferences<P>>): (r: seq<PlanetPreferences<P>>)
    ensures |r| <= |entries|
  {
    if |entries| == 0 then []
    else
      var last := entries[|entries| - 1];
      KeepNonEmpty(entries[..|entries| - 1]) + (if last.preferences != [] then [last] else [])
  }

  /** The filter keeps exactly the entries with preferences. */
  lemma {:induction false} KeepNonEmptyMembers<P>(entries: seq<PlanetPreferences<P>>)
    ensures forall e :: e in KeepNonEmpty(entries) <==> e in entries && e.preferences != []
  {
    if |entries| > 0 {
      var n := |entries| - 1;
      KeepNonEmptyMembers(entries[..n]);
      assert entries == entries[..n] + [entries[n]];
    }
  }

  /** The same, for one entry. */
  lemma KeepNonEmptyHas<P>(entries: seq<PlanetPreferences<P>>, e: PlanetPreferences<P>)
    ensures e in KeepNonEmpty(entries) <==> e in entries && e.preferences != []
  {
    KeepNonEmptyMembers(entries);
  }

  /** The after-validator of the current schema: the planet lists lose
      their entries without preferences; the empire lists stay. */
  function RemoveEmptyPlanetPreferences(d: CxPreferences): CxPreferences
  {
    d.(cxPlanets := KeepNonEmpty(d.cxPlanets), tickerPlanets := KeepNonEmpty(d.tickerPlanets))
  }

  /** Filtering a concatenation filters each part: the kept entries keep
      their relative order. */
  lemma {:induction false} KeepNonEmptyAppend<P>(a: seq<PlanetPreferences<P>>, b: seq<PlanetPreferences<P>>)
    ensures KeepNonEmpty(a + b) == KeepNonEmpty(a) + KeepNonEmpty(b)
    decreases |b|
  {
    if |b| > 0 {
      var n := |b| - 1;
      var last := b[n];
      var kept := if last.preferences != [] then [last] else [];
      assert (a + b)[..|a + b| - 1] == a + b[..n];
      assert (a + b)[|a + b| - 1] == last;
      assert KeepNonEmpty(a + b) == KeepNonEmpty(a + b[..n]) + kept;
      assert KeepNonEmpty(b) == KeepNonEmpty(b[..n]) + kept;
      KeepNonEmptyAppend(a, b[..n]);
      assert KeepNonEmpty(a) + KeepNonEmpty(b[..n]) + kept == KeepNonEmpty(a) + (KeepNonEmpty(b[..n]) + kept);
    } else {
      assert a + b == a;
    }
  }

  /** A list whose entries all have preferences is kept whole. */
  lemma {:induction false} KeepAllNonEmpty<P>(entries: seq<PlanetPreferences<P>>)
    requires forall e :: e in entries ==> e.preferences != []
    ensures KeepNonEmpty(entries) == entries
  {
    if |entries| > 0 {
      var n := |entries| - 1;
      assert entries == entries[..n] + [entries[n]];
      KeepAllNonEmpty(entries[..n]);
    }
  }

  /** The filter keeps a list exactly when no entry is empty, and filtering
      twice is filtering once. */
  lemma KeepNonEmptyFixed<P>(entries: seq<PlanetPreferences<P>>)
    ensures KeepNonEmpty(entries) == entries <==> forall e :: e in entries ==> e.preferences != []
    ensures KeepNonEmpty(KeepNonEmpty(entries)) == KeepNonEmpty(entries)
  {
    KeepNonEmptyMembers(entries);
    if forall e :: e in entries ==> e.preferences != [] {
      KeepAllNonEmpty(entries);
    }
    KeepAllNonEmpty(KeepNonEmpty(entries));
  }

  /** The validator drops exactly the planet entries without preferences,
      leaves the empire lists alone, and changes nothing on a second run. */
  lemma RemoveEmptyPlanetPreferencesMeaning(d: CxPreferences)
    ensures var r := RemoveEmptyPlanetPreferences(d);
      && r.cxEmpire == d.cxEmpire && r.tickerEmpire == d.tickerEmpire
      && (forall e :: e in r.cxPlanets <==> e in d.cxPlanets && e.preferences != [])
      && (forall e :: e in r.tickerPlanets <==> e in d.tickerPlanets && e.preferences != [])
      && RemoveEmptyPlanetPreferences(r) == r
  {
    var r := RemoveEmptyPlanetPreferences(d);
    forall e: PlanetPreferences<ExchangePreference>
      ensures e in r.cxPlanets <==> e in d.cxPlanets && e.preferences != []
    {
      KeepNonEmptyHas(d.cxPlanets, e);
    }
    forall e: PlanetPreferences<TickerPreference>
      ensures e in r.tickerPlanets <==> e in d.tickerPlanets && e.preferences != []
    {
      KeepNonEmptyHas(d.tickerPlanets, e);
    }
    assert RemoveEmptyPlanetPreferences(r) == r by {
      KeepNonEmptyFixed(d.cxPlanets);
      KeepNonEmptyFixed(d.tickerPlanets);
    }
  }
}
