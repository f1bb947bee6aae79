/** Cache keys and lifetimes of the game-data endpoints. Every key lives
    under the `GAMEDATA` base; the planet-search key is normalised so that
    equal searches share one entry. */
module GamedataCache {
  import opened Common
  import opened Sorting
  import opened CacheManager

  const BASE_KEY: string := "GAMEDATA"

  const CACHE_TIMEOUT: nat := 60 * 15
  const CACHE_TIMEOUT_30MIN: nat := 60 * 30
  const CACHE_TIMEOUT_3HOURS: nat := 60 * 60 * 3
  const CACHE_TIMEOUT_1DAY: nat := 60 * 60 * 24

  function Key(parts: seq<Part>): string
  {
    MakeKey(BASE_KEY, parts)
  }

  function TextPart(s: string): Part
  {
    Text(s)
  }

  function KeyPlanetGet(naturalId: string): string
  {
    Key([Text("planet"), Text(naturalId)])
  }

  /** The multiple-planet key as the cache manager builds it: the ids
      straight after `planet`, in the order given. */
  function KeyPlanetMultipleAsWritten(naturalIds: seq<string>): string
  {
    Key([Text("planet")] + MapSeq(naturalIds, TextPart))
  }

  /** A request for one planet through the multiple-planet endpoint shares
      its entry with the single-planet endpoint, although the first caches a
      list and the second a single planet. */
  lemma MultipleAsWrittenCollidesWithGet(naturalId: string)
    ensures KeyPlanetMultipleAsWritten([naturalId]) == KeyPlanetGet(naturalId)
  {
    assert [naturalId][1..] == [];
    assert MapSeq([naturalId], TextPart) == [Text(naturalId)] + MapSeq([naturalId][1..], TextPart);
    assert [Text("planet")] + MapSeq([naturalId], TextPart) == [Text("planet"), Text(naturalId)];
  }

  /** The multiple-planet key with a segment of its own; the ids stay in the
      order given. */
  function KeyPlanetMultiple(naturalIds: seq<string>): string
  {
    Key([Text("planet"), Text("multiple")] + MapSeq(naturalIds, TextPart))
  }

  function KeyPlanetPopr(naturalId: string): string
  {
    Key([Text("planet"), Text("popr"), Text(naturalId)])
  }

  function KeyUserStorage(userId: nat): string
  {
    Key([Text("storage"), Num(userId)])
  }

  /** The exchange code is a last segment only when it is a non-empty string. */
  function KeyExchangeCxpc(ticker: string, exchangeCode: Option<string>): string
  {
    if exchangeCode.Some? && |exchangeCode.value| > 0 then
      Key([Text("exchange"), Text("cxpc"), Text(ticker), Text(exchangeCode.value)])
    else
      Key([Text("exchange"), Text("cxpc"), Text(ticker)])
  }

  // ---------------------------------------------------------------------
  // Planet search

  /** A search field holds a list of strings or a flag. */
  datatype SearchValue = ListValue(items: seq<string>) | BoolValue(flag: bool)

  /** A search request: its fields as (name, value) in the order of the dict. */
  type SearchField = (string, SearchValue)

  predicate DistinctNames(request: seq<SearchField>)
  {
    forall i, j :: 0 <= i < j < |request| ==> request[i].0 != request[j].0
  }

  /** Lists are sorted and comma-joined; flags become TRUE or FALSE. */
  function ValueText(v: SearchValue): string
  {
    match v
    case ListValue(items) => Join(SortStrings(items), ',')
    case BoolValue(flag) => if flag then "TRUE" else "FALSE"
  }

  function Normalize(f: SearchField): (string, string)
  {
    (f.0, ValueText(f.1))
  }

  function RequestName(f: SearchField): string
  {
    f.0
  }

  function FieldName(f: (string, string)): string
  {
    f.0
  }

  function FieldText(f: (string, string)): string
  {
    f.1
  }

  /** The value texts of the normalised fields, in the order of their names. */
  function SearchParts(request: seq<SearchField>): seq<string>
  {
    MapSeq(SortByStr(MapSeq(request, Normalize), FieldName), FieldText)
  }

  function PlanetSearchKey(request: seq<SearchField>): string
  {
    Key([Text("planet"), Text("search")] + MapSeq(SearchParts(request), TextPart))
  }

  function FieldValueText(f: SearchField): string
  {
    ValueText(f.1)
  }

  /** Walks the fields in name order and appends the text of each value. */
  method KeyPlanetSearch(request: seq<SearchField>) returns (key: string)
    ensures key == PlanetSearchKey(request)
  {
    var fields := SortByStr(request, RequestName);
    var parts: seq<string> := [];
    for i := 0 to |fields|
      invariant parts == MapSeq(fields[..i], FieldValueText)
    {
      var value := fields[i].1;
      var text: string;
      if value.ListValue? {
        text := Join(SortStrings(value.items), ',');
      } else if value.flag {
        text := "TRUE";
      } else {
        text := "FALSE";
      }
      MapSeqSnoc(fields, i, FieldValueText);
      parts := parts + [text];
    }
    assert fields[..|fields|] == fields;
    SortCommutesWithMap(request, Normalize, RequestName, FieldName);
    MapSeqCompose(fields, Normalize, FieldText, FieldValueText);
    key := Key([Text("planet"), Text("search")] + MapSeq(parts, TextPart));
  }

  lemma NormalizePreservesNames(request: seq<SearchField>)
    requires DistinctNames(request)
    ensures KeyInjective(MapSeq(request, Normalize), FieldName)
  {
    var n := MapSeq(request, Normalize);
    forall i, j | 0 <= i < |n| && 0 <= j < |n|
      ensures FieldName(n[i]) == FieldName(n[j]) ==> n[i] == n[j]
    {
      MapSeqIndex(request, Normalize, i);
      MapSeqIndex(request, Normalize, j);
    }
  }

  /** The order in which the fields were inserted does not matter. */
  lemma PlanetSearchKeyOrderInvariant(r1: seq<SearchField>, r2: seq<SearchField>)
    requires DistinctNames(r1)
    requires multiset(r1) == multiset(r2)
    ensures PlanetSearchKey(r1) == PlanetSearchKey(r2)
  {
    var n1, n2 := MapSeq(r1, Normalize), MapSeq(r2, Normalize);
    MapSeqPermutation(r1, r2, Normalize);
    NormalizePreservesNames(r1);
    var s1, s2 := SortByStr(n1, FieldName), SortByStr(n2, FieldName);
    SortByStrSorted(n1, FieldName);
    SortByStrSorted(n2, FieldName);
    KeyInjectivePermutation(n1, s1, FieldName);
    SortedByStrUnique(s1, s2, FieldName);
  }

  /** Two values give the same text when they are the same flag or lists
      with the same elements in any order. */
  predicate SameValue(a: SearchValue, b: SearchValue)
  {
    match (a, b)
    case (ListValue(x), ListValue(y)) => multiset(x) == multiset(y)
    case (BoolValue(x), BoolValue(y)) => x == y
    case _ => false
  }

  /** Reordering the elements of any list value does not change the key. */
  lemma PlanetSearchKeyListOrderInvariant(r1: seq<SearchField>, r2: seq<SearchField>)
    requires |r1| == |r2|
    requires forall k :: 0 <= k < |r1| ==> r1[k].0 == r2[k].0 && SameValue(r1[k].1, r2[k].1)
    ensures PlanetSearchKey(r1) == PlanetSearchKey(r2)
  {
    var n1, n2 := MapSeq(r1, Normalize), MapSeq(r2, Normalize);
    forall k | 0 <= k < |r1| ensures n1[k] == n2[k] {
      MapSeqIndex(r1, Normalize, k);
      MapSeqIndex(r2, Normalize, k);
      if r1[k].1.ListValue? {
        SortStringsPermutationInvariant(r1[k].1.items, r2[k].1.items);
      }
    }
    assert n1 == n2;
  }

  /** A search with a single field keys on that field's value text alone. */
  lemma SingleFieldParts(name: string, v: SearchValue)
    ensures SearchParts([(name, v)]) == [ValueText(v)]
  {
    var n := MapSeq([(name, v)], Normalize);
    assert [(name, v)][1..] == [];
    assert n == [(name, ValueText(v))];
    assert n[1..] == [];
    assert SortByStr(n, FieldName) == n;
    assert MapSeq(n, FieldText) == [ValueText(v)] + MapSeq(n[1..], FieldText);
  }

  /** Only values enter the key: the same value under another field name
      gives the same key. */
  lemma PlanetSearchKeyIgnoresNames(name1: string, name2: string, v: SearchValue)
    ensures PlanetSearchKey([(name1, v)]) == PlanetSearchKey([(name2, v)])
  {
    SingleFieldParts(name1, v);
    SingleFieldParts(name2, v);
  }

  /** A search for fertile planets alone is keyed by its flag text. */
  lemma FertileSearchKey(name: string)
    ensures PlanetSearchKey([(name, BoolValue(true))]) == MakeKey(BASE_KEY, [Text("planet"), Text("search"), Text("TRUE")])
  {
    SingleFieldParts(name, BoolValue(true));
    assert MapSeq(["TRUE"], TextPart) == [Text("TRUE")] + MapSeq(["TRUE"][1..], TextPart);
    assert [Text("planet"), Text("search")] + MapSeq(["TRUE"], TextPart) == [Text("planet"), Text("search"), Text("TRUE")];
  }

  // ---------------------------------------------------------------------
  // Endpoints

  datatype Endpoint =
    | MaterialList
    | RecipeList
    | BuildingList
    | ExchangeList
    | PlanetList
    | PlanetGet(naturalId: string)
    | PlanetMultiple(naturalIds: seq<string>)
    | Storage(userId: nat)
    | PlanetSearch(request: seq<SearchField>)
    | ExchangeCxpc(ticker: string, exchangeCode: Option<string>)
    | PlanetPopr(naturalId: string)

  /** The parts after the base name of an endpoint's key. */
  function Parts(e: Endpoint): seq<Part>
  {
    match e
    case MaterialList => [Text("material"), Text("list")]
    case RecipeList => [Text("recipe"), Text("list")]
    case BuildingList => [Text("building"), Text("list")]
    case ExchangeList => [Text("exchange"), Text("list")]
    case PlanetList => [Text("planet"), Text("list")]
    case PlanetGet(id) => [Text("planet"), Text(id)]
    case PlanetMultiple(ids) => [Text("planet"), Text("multiple")] + MapSeq(ids, TextPart)
    case Storage(userId) => [Text("storage"), Num(userId)]
    case PlanetSearch(request) => [Text("planet"), Text("search")] + MapSeq(SearchParts(request), TextPart)
    case ExchangeCxpc(ticker, code) =>
      if code.Some? && |code.value| > 0 then [Text("exchange"), Text("cxpc"), Text(ticker), Text(code.value)]
      else [Text("exchange"), Text("cxpc"), Text(ticker)]
    case PlanetPopr(id) => [Text("planet"), Text("popr"), Text(id)]
  }

  function EndpointKey(e: Endpoint): string
  {
    Key(Parts(e))
  }

  function EndpointTimeout(e: Endpoint): nat
  {
    match e
    case MaterialList | RecipeList | BuildingList | PlanetList | PlanetGet(_) | PlanetPopr(_) => CACHE_TIMEOUT_1DAY
    case ExchangeList => CACHE_TIMEOUT
    case PlanetMultiple(_) | PlanetSearch(_) => CACHE_TIMEOUT_30MIN
    case Storage(_) | ExchangeCxpc(_, _) => CACHE_TIMEOUT_3HOURS
  }

  predicate IsPlanetEndpoint(e: Endpoint)
  {
    e.PlanetList? || e.PlanetGet? || e.PlanetMultiple? || e.PlanetSearch? || e.PlanetPopr?
  }

  /** The first part of every endpoint key, after the base. */
  function Section(e: Endpoint): string
  {
    match e
    case MaterialList => "material"
    case RecipeList => "recipe"
    case BuildingList => "building"
    case ExchangeList | ExchangeCxpc(_, _) => "exchange"
    case Storage(_) => "storage"
    case _ => "planet"
  }

  /** The second part of every endpoint key. */
  function Second(e: Endpoint): string
  {
    match e
    case MaterialList | RecipeList | BuildingList | ExchangeList | PlanetList => "list"
    case PlanetGet(id) => id
    case PlanetMultiple(_) => "multiple"
    case Storage(userId) => NatToString(userId)
    case PlanetSearch(_) => "search"
    case ExchangeCxpc(_, _) => "cxpc"
    case PlanetPopr(_) => "popr"
  }

  lemma PartsShape(e: Endpoint)
    ensures |Parts(e)| >= 2 && Parts(e)[0] == Text(Section(e)) && PartText(Parts(e)[1]) == [Second(e)]
  {
    match e
    case MaterialList =>
    case RecipeList =>
    case BuildingList =>
    case ExchangeList =>
    case PlanetList =>
    case PlanetGet(_) =>
    case PlanetMultiple(_) =>
    case Storage(_) =>
    case PlanetSearch(_) =>
    case ExchangeCxpc(_, _) =>
    case PlanetPopr(_) =>
  }

  lemma PartsHead(e: Endpoint)
    ensures |Parts(e)| >= 2 && Parts(e)[0] == Text(Section(e))
    ensures |PartsText(Parts(e))| >= 2
    ensures PartsText(Parts(e))[0] == Section(e) && PartsText(Parts(e))[1] == Second(e)
  {
    var p := Parts(e);
    PartsShape(e);
    PartsTextCons(p[0], p[1..]);
    assert [p[0]] + p[1..] == p;
    PartsTextCons(p[1], p[2..]);
    assert [p[1]] + p[2..] == p[1..];
  }

  lemma EndpointKeyHead(e: Endpoint)
    ensures StartsWith(EndpointKey(e), BASE_KEY + ":" + Section(e))
  {
    PartsHead(e);
    assert Parts(e) == [Text(Section(e))] + Parts(e)[1..];
    MakeKeyHead(BASE_KEY, Section(e), Parts(e)[1..]);
  }

  /** Every game-data key starts with `GAMEDATA:`. */
  lemma KeysAreGamedata(e: Endpoint)
    ensures StartsWith(EndpointKey(e), "GAMEDATA:")
  {
    EndpointKeyHead(e);
    var k := EndpointKey(e);
    assert k[..9] == (BASE_KEY + ":" + Section(e))[..9];
  }

  /** The planet list, get, multiple, search and popr keys all contain
      `planet`, so the `*planet*` purge reaches every one of them. */
  lemma PlanetKeysMatchPlanetPurge(e: Endpoint)
    requires IsPlanetEndpoint(e)
    ensures Matches(EndpointKey(e), Infix("planet"))
  {
    EndpointKeyHead(e);
    var k := EndpointKey(e);
    assert k[9..15] == (BASE_KEY + ":" + Section(e))[9..15] == "planet";
    ContainsAt(k, "planet", 9);
  }

  // Well-formed requests: natural ids have the seven characters the id
  // list serializer demands, and no text part contains ':'.

  predicate CleanTexts(ss: seq<string>)
  {
    forall k :: 0 <= k < |ss| ==> ':' !in ss[k]
  }

  predicate CleanRequest(request: seq<SearchField>)
  {
    forall k :: 0 <= k < |request| ==> request[k].1.ListValue? ==> CleanTexts(request[k].1.items)
  }

  predicate WellFormed(e: Endpoint)
  {
    match e
    case PlanetGet(id) => |id| == 7 && ':' !in id
    case PlanetPopr(id) => |id| == 7 && ':' !in id
    case PlanetMultiple(ids) => CleanTexts(ids)
    case PlanetSearch(request) => CleanRequest(request)
    case ExchangeCxpc(ticker, code) => ':' !in ticker && (code.Some? ==> ':' !in code.value)
    case _ => true
  }

  lemma {:induction false} TextPartsClean(ss: seq<string>)
    requires CleanTexts(ss)
    ensures AllClean(MapSeq(ss, TextPart))
    ensures PartsText(MapSeq(ss, TextPart)) == ss
  {
    if |ss| > 0 {
      assert CleanTexts(ss[1..]) by {
        forall k | 0 <= k < |ss[1..]| ensures ':' !in ss[1..][k] {
          assert ss[1..][k] == ss[k + 1];
        }
      }
      TextPartsClean(ss[1..]);
      var m := MapSeq(ss, TextPart);
      assert m == [Text(ss[0])] + MapSeq(ss[1..], TextPart);
      PartsTextCons(Text(ss[0]), MapSeq(ss[1..], TextPart));
      forall k | 0 <= k < |m| ensures Clean(m[k]) {
        if k > 0 {
          assert m[k] == MapSeq(ss[1..], TextPart)[k - 1];
        }
      }
    }
  }

  lemma ValueTextClean(v: SearchValue)
    requires v.ListValue? ==> CleanTexts(v.items)
    ensures ':' !in ValueText(v)
  {
    if v.ListValue? {
      var sorted := SortStrings(v.items);
      forall k | 0 <= k < |sorted| ensures ':' !in sorted[k] {
        assert sorted[k] in multiset(v.items);
      }
      JoinNoChar(sorted, ',', ':');
    }
  }

  lemma SearchPartsClean(request: seq<SearchField>)
    requires CleanRequest(request)
    ensures CleanTexts(SearchParts(request))
  {
    var n := MapSeq(request, Normalize);
    var sorted := SortByStr(n, FieldName);
    forall k | 0 <= k < |sorted| ensures ':' !in sorted[k].1 {
      assert sorted[k] in multiset(n);
      var i :| 0 <= i < |n| && n[i] == sorted[k];
      MapSeqIndex(request, Normalize, i);
      ValueTextClean(request[i].1);
    }
    forall k | 0 <= k < |SearchParts(request)| ensures ':' !in SearchParts(request)[k] {
      MapSeqIndex(sorted, FieldText, k);
    }
  }

  lemma AllCleanAppend(a: seq<Part>, b: seq<Part>)
    requires AllClean(a) && AllClean(b)
    ensures AllClean(a + b)
  {
    forall k | 0 <= k < |a + b| ensures Clean((a + b)[k]) {
      if k >= |a| {
        assert (a + b)[k] == b[k - |a|];
      }
    }
  }

  lemma PartsCleanMultiple(ids: seq<string>)
    requires CleanTexts(ids)
    ensures AllClean(Parts(PlanetMultiple(ids)))
  {
    TextPartsClean(ids);
    AllCleanAppend([Text("planet"), Text("multiple")], MapSeq(ids, TextPart));
  }

  lemma PartsCleanSearch(request: seq<SearchField>)
    requires CleanRequest(request)
    ensures AllClean(Parts(PlanetSearch(request)))
  {
    var texts := SearchParts(request);
    assert CleanTexts(texts) by { SearchPartsClean(request); }
    assert AllClean(MapSeq(texts, TextPart)) by { TextPartsClean(texts); }
    var head := [Text("planet"), Text("search")];
    TwoTextsClean("planet", "search");
    AllCleanAppend(head, MapSeq(texts, TextPart));
    assert Parts(PlanetSearch(request)) == head + MapSeq(texts, TextPart);
  }

  lemma TwoTextsClean(a: string, b: string)
    requires ':' !in a && ':' !in b
    ensures AllClean([Text(a), Text(b)])
  {
  }

  lemma ThreeTextsClean(a: string, b: string, c: string)
    requires ':' !in a && ':' !in b && ':' !in c
    ensures AllClean([Text(a), Text(b), Text(c)])
  {
  }

  lemma FourTextsClean(a: string, b: string, c: string, d: string)
    requires ':' !in a && ':' !in b && ':' !in c && ':' !in d
    ensures AllClean([Text(a), Text(b), Text(c), Text(d)])
  {
  }

  lemma PartsCleanFixed(e: Endpoint)
    requires WellFormed(e) && !e.PlanetMultiple? && !e.PlanetSearch?
    ensures AllClean(Parts(e))
  {
    match e
    case MaterialList => TwoTextsClean("material", "list");
    case RecipeList => TwoTextsClean("recipe", "list");
    case BuildingList => TwoTextsClean("building", "list");
    case ExchangeList => TwoTextsClean("exchange", "list");
    case PlanetList => TwoTextsClean("planet", "list");
    case PlanetGet(id) => TwoTextsClean("planet", id);
    case Storage(u) => assert AllClean([Text("storage"), Num(u)]);
    case ExchangeCxpc(ticker, code) =>
      if code.Some? && |code.value| > 0 {
        FourTextsClean("exchange", "cxpc", ticker, code.value);
      } else {
        ThreeTextsClean("exchange", "cxpc", ticker);
      }
    case PlanetPopr(id) => ThreeTextsClean("planet", "popr", id);
  }

  lemma PartsClean(e: Endpoint)
    requires WellFormed(e)
    ensures AllClean(Parts(e))
  {
    if e.PlanetMultiple? {
      PartsCleanMultiple(e.naturalIds);
    } else if e.PlanetSearch? {
      PartsCleanSearch(e.request);
    } else {
      PartsCleanFixed(e);
    }
  }

  /** The kind of an endpoint, one number per constructor. */
  function Kind(e: Endpoint): nat
  {
    match e
    case MaterialList => 0
    case RecipeList => 1
    case BuildingList => 2
    case ExchangeList => 3
    case PlanetList => 4
    case PlanetGet(_) => 5
    case PlanetMultiple(_) => 6
    case Storage(_) => 7
    case PlanetSearch(_) => 8
    case ExchangeCxpc(_, _) => 9
    case PlanetPopr(_) => 10
  }

  /** Two well-formed requests that share a cache entry are requests to the
      same endpoint: no endpoint can be served another endpoint's body. */
  lemma SameKeySameKind(e1: Endpoint, e2: Endpoint)
    requires WellFormed(e1) && WellFormed(e2)
    requires EndpointKey(e1) == EndpointKey(e2)
    ensures Kind(e1) == Kind(e2)
  {
    PartsClean(e1);
    PartsClean(e2);
    MakeKeyInjective(BASE_KEY, Parts(e1), Parts(e2));
    PartsHead(e1);
    PartsHead(e2);
  }

  /** The multiple-planet key determines the ids and their order: the same
      planets asked in another order are cached separately. */
  lemma PlanetMultipleKeyDeterminesIds(ids1: seq<string>, ids2: seq<string>)
    requires CleanTexts(ids1) && CleanTexts(ids2)
    requires KeyPlanetMultiple(ids1) == KeyPlanetMultiple(ids2)
    ensures ids1 == ids2
  {
    PartsClean(PlanetMultiple(ids1));
    PartsClean(PlanetMultiple(ids2));
    MakeKeyInjective(BASE_KEY, Parts(PlanetMultiple(ids1)), Parts(PlanetMultiple(ids2)));
    TextPartsClean(ids1);
    TextPartsClean(ids2);
    var head := [Text("planet"), Text("multiple")];
    PartsTextAppend(head, MapSeq(ids1, TextPart));
    PartsTextAppend(head, MapSeq(ids2, TextPart));
    PartsTextCons(Text("multiple"), []);
    PartsTextCons(Text("planet"), [Text("multiple")]);
    var h := PartsText(head);
    assert h == ["planet", "multiple"];
    assert (h + ids1)[2..] == ids1;
    assert (h + ids2)[2..] == ids2;
  }

  lemma CxpcWithCode(ticker: string, code: string)
    requires ':' !in ticker && ':' !in code && |code| > 0
    ensures Split(KeyExchangeCxpc(ticker, Some(code)), ':') == ["GAMEDATA", "exchange", "cxpc", ticker, code]
  {
    var parts := [Text("exchange"), Text("cxpc"), Text(ticker), Text(code)];
    FourTextsClean("exchange", "cxpc", ticker, code);
    MakeKeyDecodes(BASE_KEY, parts);
    PartsTextFour("exchange", "cxpc", ticker, code);
  }

  lemma CxpcWithoutCode(ticker: string, code: Option<string>)
    requires ':' !in ticker && !(code.Some? && |code.value| > 0)
    ensures Split(KeyExchangeCxpc(ticker, code), ':') == ["GAMEDATA", "exchange", "cxpc", ticker]
  {
    var parts := [Text("exchange"), Text("cxpc"), Text(ticker)];
    ThreeTextsClean("exchange", "cxpc", ticker);
    MakeKeyDecodes(BASE_KEY, parts);
    PartsTextThree("exchange", "cxpc", ticker);
  }

  /** The trailing exchange segment is present exactly for a non-empty code. */
  lemma CxpcKeySegments(ticker: string, code: Option<string>)
    requires ':' !in ticker && (code.Some? ==> ':' !in code.value)
    ensures code.Some? && |code.value| > 0 ==>
      Split(KeyExchangeCxpc(ticker, code), ':') == ["GAMEDATA", "exchange", "cxpc", ticker, code.value]
    ensures !(code.Some? && |code.value| > 0) ==>
      Split(KeyExchangeCxpc(ticker, code), ':') == ["GAMEDATA", "exchange", "cxpc", ticker]
  {
    if code.Some? && |code.value| > 0 {
      CxpcWithCode(ticker, code.value);
    } else {
      CxpcWithoutCode(ticker, code);
    }
  }

  /** A day for the static lists, planet details and production reports;
      fifteen minutes for the exchange list; half an hour for planet
      multiples and searches; three hours for storage and CXPC data. */
  lemma TimeoutTable(e: Endpoint)
    ensures EndpointTimeout(e) == 86400 <==>
      e in {MaterialList, RecipeList, BuildingList, PlanetList} || e.PlanetGet? || e.PlanetPopr?
    ensures EndpointTimeout(e) == 900 <==> e == ExchangeList
    ensures EndpointTimeout(e) == 1800 <==> e.PlanetMultiple? || e.PlanetSearch?
    ensures EndpointTimeout(e) == 10800 <==> e.Storage? || e.ExchangeCxpc?
  {
  }

  /** The key an endpoint is served under: the multiple-planet endpoint
      uses the key as the cache manager builds it, every other endpoint its
      own key. */
  function ServedKey(e: Endpoint): string
  {
    if e.PlanetMultiple? then KeyPlanetMultipleAsWritten(e.naturalIds) else EndpointKey(e)
  }

  /** As served, a one-planet request through the multiple-planet endpoint
      reads and writes the single-planet endpoint's entry, while every other
      endpoint keeps its own key. */
  lemma ServedMultipleSharesGetEntry(naturalId: string)
    ensures ServedKey(PlanetMultiple([naturalId])) == ServedKey(PlanetGet(naturalId))
    ensures Kind(PlanetMultiple([naturalId])) != Kind(PlanetGet(naturalId))
  {
    MultipleAsWrittenCollidesWithGet(naturalId);
  }

  /** Serves one endpoint through the shared cache. */
  method GetResponse(store: CacheStore, e: Endpoint, payload: Bytes, now: int) returns (r: Response)
    modifies store
    ensures (store.entries, r) == CachedResponse(old(store.entries), ServedKey(e), payload, EndpointTimeout(e), now)
  {
    var key: string;
    if e.PlanetSearch? {
      key := KeyPlanetSearch(e.request);
    } else if e.PlanetMultiple? {
      key := KeyPlanetMultipleAsWritten(e.naturalIds);
    } else {
      key := EndpointKey(e);
    }
    r := store.GetOrSetResponse(key, payload, EndpointTimeout(e), now);
  }
}
