/** Planet and building records as read from the FIO game-data feed, their
    field bounds, and the classifications computed from them. */
module FioSchemas {
  import opened Common
  import opened PlanetModels

  /** LOW below the lower bound, HIGH above the upper bound, NORMAL otherwise. */
  function BoundaryDescriptor(value: real, lower: real, upper: real): Environment
  {
    if value < lower then Low
    else if value > upper then High
    else Normal
  }

  /** With ordered bounds each class is exactly one region, and both bounds
      themselves are NORMAL. */
  lemma BoundaryDescriptorRegions(value: real, lower: real, upper: real)
    requires lower <= upper
    ensures BoundaryDescriptor(value, lower, upper) == Low <==> value < lower
    ensures BoundaryDescriptor(value, lower, upper) == High <==> value > upper
    ensures BoundaryDescriptor(value, lower, upper) == Normal <==> lower <= value <= upper
    ensures BoundaryDescriptor(lower, lower, upper) == Normal
    ensures BoundaryDescriptor(upper, lower, upper) == Normal
  {
  }

  function EnvironmentRank(e: Environment): int
  {
    match e
    case Low => 0
    case Normal => 1
    case High => 2
  }

  /** A larger value is never classified lower. */
  lemma BoundaryDescriptorMonotone(v1: real, v2: real, lower: real, upper: real)
    requires v1 <= v2 && lower <= upper
    ensures EnvironmentRank(BoundaryDescriptor(v1, lower, upper)) <= EnvironmentRank(BoundaryDescriptor(v2, lower, upper))
  {
  }

  const GRAVITY_LOWER: real := 0.25
  const GRAVITY_UPPER: real := 2.5
  const PRESSURE_LOWER: real := 0.25
  const PRESSURE_UPPER: real := 2.0
  const TEMPERATURE_LOWER: real := -25.0
  const TEMPERATURE_UPPER: real := 75.0
  const FERTILITY_THRESHOLD: real := -1.0

  function GravityType(gravity: real): Environment
  {
    BoundaryDescriptor(gravity, GRAVITY_LOWER, GRAVITY_UPPER)
  }

  function PressureType(pressure: real): Environment
  {
    BoundaryDescriptor(pressure, PRESSURE_LOWER, PRESSURE_UPPER)
  }

  function TemperatureType(temperature: real): Environment
  {
    BoundaryDescriptor(temperature, TEMPERATURE_LOWER, TEMPERATURE_UPPER)
  }

  /** A planet is fertile when its fertility exceeds -1. */
  function FertilityType(fertility: real): bool
  {
    fertility > FERTILITY_THRESHOLD
  }

  datatype ResourceSchema = ResourceSchema(materialId: string, resourceType: ResourceType, factor: real)

  datatype CogcProgramSchema = CogcProgramSchema(
    programType: Option<CogcProgramType>, startEpochMs: int, endEpochMs: int)

  datatype FeeSchema = FeeSchema(
    category: Expertise, workforceLevel: WorkforceLevel, feeAmount: real, feeCurrency: Currency)

  datatype PlanetSchema = PlanetSchema(
    planetId: string,
    naturalId: string,
    name: Option<string>,
    systemId: string,
    populationId: string,
    gravity: real,
    pressure: real,
    temperature: real,
    fertility: real,
    surface: bool,
    hasLocalmarket: bool,
    hasChamberOfCommerce: bool,
    hasWarehouse: bool,
    hasAdministrationCenter: bool,
    hasShipyard: bool,
    cogcProgramStatus: Option<CogcStatus>,
    resources: seq<ResourceSchema>,
    cogcPrograms: seq<CogcProgramSchema>,
    productionFees: seq<FeeSchema>)

  /** Bounds the feed parser enforces on a resource entry (its type is one
      of the three kinds by construction). */
  predicate ValidResource(r: ResourceSchema)
  {
    |r.materialId| == 32 && r.factor >= 0.0
  }

  /** Bounds on a fee entry (category, level and currency are enumerations). */
  predicate ValidFee(f: FeeSchema)
  {
    f.feeAmount >= 0.0
  }

  predicate ValidPlanet(p: PlanetSchema)
  {
    && |p.planetId| == 32
    && |p.systemId| == 32
    && |p.populationId| == 32
    && (forall k :: 0 <= k < |p.resources| ==> ValidResource(p.resources[k]))
    && (forall k :: 0 <= k < |p.productionFees| ==> ValidFee(p.productionFees[k]))
  }

  /** The scalar columns a planet record dumps, computed fields included. */
  function Attributes(p: PlanetSchema): (a: PlanetAttributes)
    ensures a.naturalId == p.naturalId && a.planetId == p.planetId
    ensures a.gravityType == Normal <==> GRAVITY_LOWER <= p.gravity <= GRAVITY_UPPER
    ensures a.pressureType == Normal <==> PRESSURE_LOWER <= p.pressure <= PRESSURE_UPPER
    ensures a.temperatureType == Normal <==> TEMPERATURE_LOWER <= p.temperature <= TEMPERATURE_UPPER
    ensures a.fertilityType <==> p.fertility > -1.0
  {
    PlanetAttributes(
      p.planetId, p.naturalId, p.name, p.systemId, p.populationId,
      p.gravity, p.pressure, p.temperature, p.fertility, p.surface,
      GravityType(p.gravity), PressureType(p.pressure), TemperatureType(p.temperature),
      FertilityType(p.fertility),
      p.hasLocalmarket, p.hasChamberOfCommerce, p.hasWarehouse,
      p.hasAdministrationCenter, p.hasShipyard, p.cogcProgramStatus)
  }

  /** Every resource of a well-formed planet extracts a non-negative amount. */
  lemma ValidPlanetExtractionNonNegative(p: PlanetSchema, k: nat)
    requires ValidPlanet(p) && k < |p.resources|
    ensures DailyExtraction(p.resources[k].factor, p.resources[k].resourceType) >= 0.0
  {
    assert ValidResource(p.resources[k]);
  }

  // ---------------------------------------------------------------------
  // Buildings

  datatype BuildingType = Planetary | Infrastructure | Production

  datatype BuildingCostSchema = BuildingCostSchema(materialTicker: string, materialAmount: int)

  datatype BuildingSchema = BuildingSchema(
    buildingId: string,
    name: string,
    ticker: string,
    expertise: Option<Expertise>,
    pioneers: int,
    settlers: int,
    technicians: int,
    engineers: int,
    scientists: int,
    areaCost: int,
    costs: seq<BuildingCostSchema>)

  predicate ValidBuildingCost(c: BuildingCostSchema)
  {
    1 <= |c.materialTicker| <= 3 && c.materialAmount >= 0
  }

  predicate ValidBuilding(b: BuildingSchema)
  {
    && b.pioneers >= 0 && b.settlers >= 0 && b.technicians >= 0
    && b.engineers >= 0 && b.scientists >= 0 && b.areaCost >= 0
    && (forall k :: 0 <= k < |b.costs| ==> ValidBuildingCost(b.costs[k]))
  }

  const PLANETARY_PROJECT_MARKER: string := "planetaryProject"

  /** Planetary projects are recognised by name, whatever their expertise;
      the rest are production buildings when they have an expertise and
      infrastructure otherwise. */
  function BuildingTypeOf(b: BuildingSchema): (t: BuildingType)
    ensures t == Planetary <==> Contains(b.name, PLANETARY_PROJECT_MARKER)
    ensures t == Infrastructure <==> !Contains(b.name, PLANETARY_PROJECT_MARKER) && b.expertise.None?
    ensures t == Production <==> !Contains(b.name, PLANETARY_PROJECT_MARKER) && b.expertise.Some?
  {
    if Contains(b.name, PLANETARY_PROJECT_MARKER) then Planetary
    else if b.expertise.None? then Infrastructure
    else Production
  }

  /** The classification reads only the name and whether an expertise is
      present: any two expertises give the same type. */
  lemma BuildingTypeIgnoresWhichExpertise(b: BuildingSchema, e1: Expertise, e2: Expertise)
    ensures BuildingTypeOf(b.(expertise := Some(e1))) == BuildingTypeOf(b.(expertise := Some(e2)))
    ensures BuildingTypeOf(b.(expertise := Some(e1))) != Infrastructure
  {
  }
}
