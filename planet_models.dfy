/** The stored planet and its child tables: resources, production fees and
    COGC programs. Each child table of one planet is a map keyed by the
    natural key its unique constraint names, so "at most one row per key"
    holds by construction; the row identity lives in `rowId`. */
module PlanetModels {
  import opened Common
  import Automation

  datatype ResourceType = Liquid | Gaseous | Mineral
  datatype Environment = Normal | Low | High
  datatype CogcStatus = Active | Planned | OnStrike
  datatype CogcProgramType =
    | AdvertisingAgriculture | AdvertisingChemistry | AdvertisingConstruction
    | AdvertisingElectronics | AdvertisingFoodIndustries | AdvertisingFuelRefining
    | AdvertisingManufacturing | AdvertisingMetallurgy | AdvertisingResourceExtraction
    | WorkforcePioneers | WorkforceSettlers | WorkforceTechnicians
    | WorkforceEngineers | WorkforceScientists
  datatype Expertise =
    | Agriculture | Chemistry | Construction | Electronics | FoodIndustries
    | Manufacturing | Metallurgy | ResourceExtraction | FuelRefining
  datatype WorkforceLevel = Pioneer | Settler | Technician | Scientist | Engineer
  datatype Currency = NCC | CIS | AIC | ICA

  /** Planets are retried after 30 minutes instead of the default 15. */
  const PLANET_RETRY_DELAY_MINUTES: nat := 30

  /** Extraction per day: 60 per unit of factor for gaseous deposits, 70 otherwise. */
  function DailyExtraction(factor: real, resourceType: ResourceType): real
  {
    if resourceType == Gaseous then factor * 60.0 else factor * 70.0
  }

  /** The material table as a map from material id to ticker. */
  type MaterialMap = map<string, string>

  /** Ticker of the material with this id, absent when the material is unknown. */
  function MaterialTicker(materials: MaterialMap, materialId: string): Option<string>
  {
    if materialId in materials then Some(materials[materialId]) else None
  }

  datatype Resource = Resource(
    rowId: nat,
    resourceType: ResourceType,
    factor: real,
    dailyExtraction: real,
    materialTicker: Option<string>)

  /** The resources of one planet by material id. */
  type ResourceTable = map<string, Resource>

  /** Saving a resource row recomputes both derived columns from the factor,
      the type and the material table. For an unknown material the ticker
      would be null, which its NOT NULL column refuses: the save fails. */
  function SaveResource(r: Resource, materialId: string, materials: MaterialMap): (s: Option<Resource>)
    ensures s.Some? <==> materialId in materials
    ensures s.Some? ==> s.value.rowId == r.rowId && s.value.factor == r.factor && s.value.resourceType == r.resourceType
    ensures s.Some? ==> s.value.dailyExtraction == DailyExtraction(s.value.factor, s.value.resourceType)
    ensures s.Some? ==> s.value.materialTicker == Some(materials[materialId])
  {
    if materialId in materials then
      Some(r.(dailyExtraction := DailyExtraction(r.factor, r.resourceType),
              materialTicker := MaterialTicker(materials, materialId)))
    else None
  }

  /** Saving twice is saving once: the derived columns depend only on the
      stored inputs. */
  lemma SaveResourceIdempotent(r: Resource, materialId: string, materials: MaterialMap)
    ensures SaveResource(r, materialId, materials).Some? ==>
      SaveResource(SaveResource(r, materialId, materials).value, materialId, materials)
        == SaveResource(r, materialId, materials)
  {
  }

  /** Extraction is never negative for a non-negative factor and grows with it. */
  lemma DailyExtractionMonotone(f1: real, f2: real, t: ResourceType)
    requires 0.0 <= f1 <= f2
    ensures 0.0 <= DailyExtraction(f1, t) <= DailyExtraction(f2, t)
  {
  }

  datatype FeeKey = FeeKey(category: Expertise, workforceLevel: WorkforceLevel)
  datatype Fee = Fee(rowId: nat, feeAmount: real, feeCurrency: Currency)
  /** The production fees of one planet by (category, workforce level). */
  type FeeTable = map<FeeKey, Fee>

  /** A COGC window; the program type may be absent. */
  datatype CogcKey = CogcKey(programType: Option<CogcProgramType>, startEpochMs: int, endEpochMs: int)
  /** The COGC programs of one planet: window to row id. */
  type CogcTable = map<CogcKey, nat>

  /** The window contains the instant, both ends included. */
  predicate IsActiveAt(k: CogcKey, nowMs: int)
  {
    k.startEpochMs <= nowMs <= k.endEpochMs
  }

  /** `t` is a value the active-program annotation may take: the type of a
      program active at `nowMs`, or nothing when none is. */
  predicate ActiveAnnotation(programs: CogcTable, nowMs: int, t: Option<CogcProgramType>)
  {
    || (exists k :: k in programs && IsActiveAt(k, nowMs) && k.programType == t)
    || (t == None && forall k :: k in programs ==> !IsActiveAt(k, nowMs))
  }

  /** The annotation listing queries carry: the type of some program whose
      window contains `nowMs` (the query takes any one of them), or nothing
      when no window does. */
  method ActiveProgramType(programs: CogcTable, nowMs: int) returns (t: Option<CogcProgramType>)
    ensures ActiveAnnotation(programs, nowMs, t)
    ensures t.Some? ==> exists k :: k in programs && IsActiveAt(k, nowMs)
  {
    if exists k :: k in programs && IsActiveAt(k, nowMs) {
      var k :| k in programs && IsActiveAt(k, nowMs);
      t := k.programType;
    } else {
      t := None;
    }
  }

  /** Milliseconds since the epoch of an instant given in seconds. */
  function EpochMs(nowSeconds: int): int
  {
    nowSeconds * 1000
  }

  /** The scalar columns of a planet written by an import. */
  datatype PlanetAttributes = PlanetAttributes(
    planetId: string,
    naturalId: string,
    name: Option<string>,
    systemId: string,
    populationId: string,
    gravity: real,
    pressure: real,
    temperature: real,
    fertility: real,
    surface: bool,
    gravityType: Environment,
    pressureType: Environment,
    temperatureType: Environment,
    fertilityType: bool,
    hasLocalmarket: bool,
    hasChamberOfCommerce: bool,
    hasWarehouse: bool,
    hasAdministrationCenter: bool,
    hasShipyard: bool,
    cogcProgramStatus: Option<CogcStatus>)

  /** One stored planet with its automation columns and child tables. */
  datatype Planet = Planet(
    attrs: PlanetAttributes,
    automation: Automation.AutomationState,
    resources: ResourceTable,
    programs: CogcTable,
    fees: FeeTable)

  /** The planet table keyed by natural id. */
  type PlanetTable = map<string, Planet>
}
