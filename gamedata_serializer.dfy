/** The derived fields of the game-data serializers: the storage and site
    maps keyed by a site's natural identifier, the recipe and exchange
    ticker identifiers, and the validation of planet id lists. */
module GamedataSerializer {
  import opened Common

  // ---------------------------------------------------------------------
  // Storage and site maps

  /** One storage of the player data; `data` stands for the dictionary the
      item serialises to, which the maps carry unchanged. */
  datatype StorageItem = StorageItem(storageType: string, storageId: string, addressableId: string, data: string)

  /** One site of the player data. */
  datatype SiteItem = SiteItem(siteId: string, data: string)

  /** Which id of a storage leads to its site. */
  datatype IdField = StorageIdField | AddressableIdField

  const UNKNOWN_SITE_PREFIX: string := "Unknown_Site_"

  function IdOf(item: StorageItem, field: IdField): string
  {
    match field
    case StorageIdField => item.storageId
    case AddressableIdField => item.addressableId
  }

  /** The key of an id: its site's natural identifier, or a placeholder
      naming the id when the site map does not know it. */
  function SiteKey(siteMap: map<string, string>, id: string): string
  {
    if id in siteMap then siteMap[id] else UNKNOWN_SITE_PREFIX + id
  }

  /** The storages of one type keyed by site; a later storage with the
      same key replaces an earlier one. */
  function MapStorageByType(siteMap: map<string, string>, items: seq<StorageItem>,
                            storageType: string, field: IdField): map<string, string>
  {
    if |items| == 0 then map[]
    else
      var m := MapStorageByType(siteMap, items[..|items| - 1], storageType, field);
      var item := items[|items| - 1];
      if item.storageType == storageType then m[SiteKey(siteMap, IdOf(item, field)) := item.data] else m
  }

  datatype StorageData = StorageData(planets: map<string, string>, warehouses: map<string, string>,
                                     ships: map<string, string>)

  /** Planet stores are keyed through their addressable id, warehouses and
      ships through their storage id. */
  function GetStorageData(siteMap: map<string, string>, items: seq<StorageItem>): StorageData
  {
    StorageData(MapStorageByType(siteMap, items, "STORE", AddressableIdField),
                MapStorageByType(siteMap, items, "WAREHOUSE_STORE", StorageIdField),
                MapStorageByType(siteMap, items, "SHIP_STORE", StorageIdField))
  }

  /** The sites keyed by their natural identifier; later sites replace
      earlier ones with the same key. */
  function GetSitesData(siteMap: map<string, string>, sites: seq<SiteItem>): map<string, string>
  {
    if |sites| == 0 then map[]
    else
      var site := sites[|sites| - 1];
      GetSitesData(siteMap, sites[..|sites| - 1])[SiteKey(siteMap, site.siteId) := site.data]
  }

  /** The item at `i` is of the type and has key `k`. */
  predicate KeyedAt(siteMap: map<string, string>, items: seq<StorageItem>, storageType: string, field: IdField,
                    i: int, k: string)
    requires 0 <= i < |items|
  {
    items[i].storageType == storageType && SiteKey(siteMap, IdOf(items[i], field)) == k
  }

  /** The map holds exactly the keys of the storages of the type, and each
      key holds the data of the last such storage with that key. */
  lemma {:induction false} MapStorageByTypeEntries(siteMap: map<string, string>, items: seq<StorageItem>,
                                                   storageType: string, field: IdField, k: string)
    ensures var m := MapStorageByType(siteMap, items, storageType, field);
      && (k in m <==> exists i :: 0 <= i < |items| && KeyedAt(siteMap, items, storageType, field, i, k))
      && (forall i :: 0 <= i < |items| && KeyedAt(siteMap, items, storageType, field, i, k)
                      && (forall j :: i < j < |items| ==> !KeyedAt(siteMap, items, storageType, field, j, k))
                      ==> k in m && m[k] == items[i].data)
  {
    if |items| > 0 {
      var n := |items| - 1;
      var init := items[..n];
      MapStorageByTypeEntries(siteMap, init, storageType, field, k);
      forall i | 0 <= i < n
        ensures KeyedAt(siteMap, init, storageType, field, i, k) == KeyedAt(siteMap, items, storageType, field, i, k)
      {
        assert init[i] == items[i];
      }
      if KeyedAt(siteMap, items, storageType, field, n, k) {
        assert k in MapStorageByType(siteMap, items, storageType, field);
      }
    }
  }

  /** The sites map holds exactly the keys of the sites, each with the data
      of the last site with that key. */
  lemma {:induction false} SitesDataEntries(siteMap: map<string, string>, sites: seq<SiteItem>, k: string)
    ensures var m := GetSitesData(siteMap, sites);
      && (k in m <==> exists i :: 0 <= i < |sites| && SiteKey(siteMap, sites[i].siteId) == k)
      && (forall i :: 0 <= i < |sites| && SiteKey(siteMap, sites[i].siteId) == k
                      && (forall j :: i < j < |sites| ==> SiteKey(siteMap, sites[j].siteId) != k)
                      ==> k in m && m[k] == sites[i].data)
  {
    if |sites| > 0 {
      var n := |sites| - 1;
      var init := sites[..n];
      SitesDataEntries(siteMap, init, k);
      forall i | 0 <= i < n
        ensures init[i] == sites[i]
      {
      }
    }
  }

  /** Unknown ids keep apart: two ids the site map does not know give
      different placeholders. */
  lemma UnknownSiteKeysDistinct(siteMap: map<string, string>, id1: string, id2: string)
    requires id1 !in siteMap && id2 !in siteMap && id1 != id2
    ensures SiteKey(siteMap, id1) != SiteKey(siteMap, id2)
  {
    var p := UNKNOWN_SITE_PREFIX;
    assert (p + id1)[|p|..] == id1 && (p + id2)[|p|..] == id2;
  }

  // ---------------------------------------------------------------------
  // Identifiers

  /** `building_ticker#recipe_name` */
  function RecipeId(buildingTicker: string, recipeName: string): string
  {
    buildingTicker + "#" + recipeName
  }

  /** `ticker.exchange_code` */
  function TickerId(ticker: string, exchangeCode: string): string
  {
    ticker + "." + exchangeCode
  }

  /** Joining with a separator the first part lacks loses nothing. */
  lemma SeparatedInjective(a1: string, b1: string, a2: string, b2: string, sep: char)
    requires sep !in a1 && sep !in a2
    requires a1 + [sep] + b1 == a2 + [sep] + b2
    ensures a1 == a2 && b1 == b2
  {
    var s := a1 + [sep] + b1;
    assert s == a2 + [sep] + b2;
    assert s[|a1|] == sep && s[|a2|] == sep;
    forall i | 0 <= i < |a1|
      ensures s[i] != sep
    {
      assert s[i] == a1[i];
    }
    forall i | 0 <= i < |a2|
      ensures s[i] != sep
    {
      assert s[i] == a2[i];
    }
    assert |a1| == |a2|;
    assert a1 == s[..|a1|] == a2;
    assert b1 == s[|a1| + 1..] == b2;
  }

  /** A recipe id names its building and recipe: tickers never contain `#`. */
  lemma RecipeIdInjective(t1: string, n1: string, t2: string, n2: string)
    requires '#' !in t1 && '#' !in t2
    ensures RecipeId(t1, n1) == RecipeId(t2, n2) <==> t1 == t2 && n1 == n2
  {
    if RecipeId(t1, n1) == RecipeId(t2, n2) {
      SeparatedInjective(t1, n1, t2, n2, '#');
    }
  }

  /** A ticker id names its material and exchange: tickers never contain `.`. */
  lemma TickerIdInjective(t1: string, e1: string, t2: string, e2: string)
    requires '.' !in t1 && '.' !in t2
    ensures TickerId(t1, e1) == TickerId(t2, e2) <==> t1 == t2 && e1 == e2
  {
    if TickerId(t1, e1) == TickerId(t2, e2) {
      SeparatedInjective(t1, e1, t2, e2, '.');
    }
  }

  // ---------------------------------------------------------------------
  // Planet id lists

  const PLANET_ID_LENGTH: nat := 7

  /** One list entry: surrounding whitespace is trimmed, then a blank value
      is refused and the length must be exactly seven. */
  function ValidatePlanetId(raw: string): Option<string>
  {
    var s := Strip(raw);
    if s == "" || |s| < PLANET_ID_LENGTH || |s| > PLANET_ID_LENGTH then None else Some(s)
  }

  /** The whole list is accepted when every entry is. */
  function ValidatePlanetIds(raw: seq<string>): (r: Option<seq<string>>)
    ensures r.Some? ==> |r.value| == |raw|
  {
    if |raw| == 0 then Some([])
    else
      var init := ValidatePlanetIds(raw[..|raw| - 1]);
      var last := ValidatePlanetId(raw[|raw| - 1]);
      if init.None? || last.None? then None else Some(init.value + [last.value])
  }

  /** The list is accepted exactly when every entry trims to seven
      characters, and then it holds the trimmed entries, in order. */
  lemma {:induction false} PlanetIdsAccepted(raw: seq<string>)
    ensures ValidatePlanetIds(raw).Some? <==> forall i :: 0 <= i < |raw| ==> |Strip(raw[i])| == PLANET_ID_LENGTH
    ensures ValidatePlanetIds(raw).Some? ==>
              forall i :: 0 <= i < |raw| ==> (ValidatePlanetIds(raw).value[i] == Strip(raw[i])
                                             && |ValidatePlanetIds(raw).value[i]| == PLANET_ID_LENGTH)
  {
    if |raw| > 0 {
      var n := |raw| - 1;
      PlanetIdsAccepted(raw[..n]);
      assert forall i :: 0 <= i < n ==> raw[..n][i] == raw[i];
    }
  }
}
