/** The plan data schemas: the legacy and the current shape of a plan's
    buildings, infrastructure, experts and workforce, with their bounds,
    and the normalisation of the legacy COGC field. */
module PlanSchema {
  import opened Common

  // ---------------------------------------------------------------------
  // Records and their bounds

  datatype ExpertType =
    | Agriculture | Chemistry | Construction | Electronics | FoodIndustries
    | FuelRefining | Manufacturing | Metallurgy | ResourceExtraction

  datatype WorkforceType = Pioneer | Settler | Technician | Engineer | Scientist

  datatype Recipe = Recipe(recipeId: string, amount: int)

  datatype Building = Building(name: string, amount: int, activeRecipes: seq<Recipe>)

  datatype Infrastructure = Infrastructure(building: string, amount: int)

  datatype Expert = Expert(expertType: ExpertType, amount: int)

  datatype Workforce = Workforce(workforceType: WorkforceType, lux1: bool, lux2: bool)

  /** The planet part of a legacy plan; `cogc` is the validated field. */
  datatype LegacyPlanet = LegacyPlanet(planetId: string, permits: int, corpHq: bool, cogc: Option<string>,
                                       experts: seq<Expert>, workforce: seq<Workforce>)

  datatype PlanDataLegacy = PlanDataLegacy(planet: LegacyPlanet, infrastructure: seq<Infrastructure>,
                                           buildings: seq<Building>)

  datatype PlanDataV1 = PlanDataV1(experts: seq<Expert>, workforce: seq<Workforce>,
                                   infrastructure: seq<Infrastructure>, buildings: seq<Building>)

  /** A building ticker has one to three characters; amounts are not negative. */
  predicate ValidBuilding(b: Building)
  {
    1 <= |b.name| <= 3 && b.amount >= 0 && forall r :: r in b.activeRecipes ==> r.amount >= 0
  }

  /** An infrastructure ticker has exactly three characters. */
  predicate ValidInfrastructure(i: Infrastructure)
  {
    |i.building| == 3 && i.amount >= 0
  }

  predicate ValidExpert(e: Expert)
  {
    e.amount >= 0
  }

  predicate ValidPlanDataV1(d: PlanDataV1)
  {
    && (forall e :: e in d.experts ==> ValidExpert(e))
    && (forall i :: i in d.infrastructure ==> ValidInfrastructure(i))
    && (forall b :: b in d.buildings ==> ValidBuilding(b))
  }

  /** The legacy shape has the same bounds, permits are not negative, and
      the COGC field holds a COGC program or nothing. */
  predicate ValidPlanDataLegacy(d: PlanDataLegacy)
  {
    && d.planet.permits >= 0
    && (d.planet.cogc.Some? ==> d.planet.cogc.value in COGC_TYPES)
    && (forall e :: e in d.planet.experts ==> ValidExpert(e))
    && (forall i :: i in d.infrastructure ==> ValidInfrastructure(i))
    && (forall b :: b in d.buildings ==> ValidBuilding(b))
  }

  // ---------------------------------------------------------------------
  // The COGC field of a legacy plan

  const COGC_TYPES: set<string> := {
    "AGRICULTURE", "CHEMISTRY", "CONSTRUCTION", "ELECTRONICS", "FOOD_INDUSTRIES",
    "FUEL_REFINING", "MANUFACTURING", "METALLURGY", "RESOURCE_EXTRACTION",
    "PIONEERS", "SETTLERS", "TECHNICIANS", "ENGINEERS", "SCIENTISTS"
  }

  /** The workforce names written in the singular, which get an `S`. */
  const WORKFORCE_SINGULAR: set<string> := {"PIONEER", "SETTLER", "TECHNICIAN", "ENGINEER", "SCIENTIST"}

  /** Upper case, with spaces turned into `_`. */
  function Canonical(s: string): string
  {
    ReplaceChar(Upper(s), ' ', '_')
  }

  /** The `cogc` validator that runs before the type check: `---` means no
      program, other text is put in canonical form and a singular workforce
      name gets its plural; values other than text pass through. */
  function NormalizeCogc(v: Json): Json
  {
    match v
    case JText(s) =>
      if s == "---" then JNull
      else
        var upped := Canonical(s);
        if upped in WORKFORCE_SINGULAR then JText(upped + "S") else JText(upped)
    case _ => v
  }

  datatype CogcOutcome = CogcInvalid | CogcValid(cogc: Option<string>)

  /** The whole field: absent means no program; after the validator, null
      means no program, a COGC program name is kept, and anything else
      fails validation. */
  function ValidateCogc(field: Option<Json>): (r: CogcOutcome)
    ensures r.CogcValid? && r.cogc.Some? ==> r.cogc.value in COGC_TYPES
  {
    match field
    case None => CogcValid(None)
    case Some(v) =>
      match NormalizeCogc(v)
      case JNull => CogcValid(None)
      case JText(c) => if c in COGC_TYPES then CogcValid(Some(c)) else CogcInvalid
      case _ => CogcInvalid
  }

  // ---------------------------------------------------------------------
  // Properties of the COGC field

  lemma UpperCharIdempotent(c: char)
    ensures UpperChar(UpperChar(c)) == UpperChar(c)
  {
  }

  /** Putting a value in canonical form twice is putting it once. */
  lemma CanonicalIdempotent(s: string)
    ensures Canonical(Canonical(s)) == Canonical(s)
  {
    var c := Canonical(s);
    forall i | 0 <= i < |s|
      ensures Canonical(c)[i] == c[i]
    {
      UpperCharIdempotent(s[i]);
    }
  }

  /** Canonical form works character by character. */
  lemma CanonicalAppend(a: string, b: string)
    ensures Canonical(a + b) == Canonical(a) + Canonical(b)
  {
    var l, r := Canonical(a + b), Canonical(a) + Canonical(b);
    forall i | 0 <= i < |a + b|
      ensures l[i] == r[i]
    {
      if i < |a| {
        assert (a + b)[i] == a[i];
      } else {
        assert (a + b)[i] == b[i - |a|];
      }
    }
  }

  /** Only `---` itself has the canonical form `---`. */
  lemma DashesOnlyFromDashes(s: string)
    requires Canonical(s) == "---"
    ensures s == "---"
  {
    forall i | 0 <= i < |s|
      ensures s[i] == '-'
    {
      assert Canonical(s)[i] == '-';
    }
  }

  /** No COGC program name is a singular workforce name, and no plural is. */
  lemma PluralsAreNotSingular(c: string)
    requires c in COGC_TYPES || (|c| > 0 && c[|c| - 1] == 'S')
    ensures c !in WORKFORCE_SINGULAR
  {
  }

  /** Every COGC program is accepted from any spelling whose canonical form
      is its name: lower case and spaces for `_` included. */
  lemma CogcSpellingsAccepted(s: string, c: string)
    requires c in COGC_TYPES && Canonical(s) == c
    ensures ValidateCogc(Some(JText(s))) == CogcValid(Some(c))
  {
    assert Canonical("---") == "---";
    PluralsAreNotSingular(c);
  }

  /** A singular workforce name, in any spelling, is read as its plural,
      which is a COGC program. */
  lemma SingularWorkforceMadePlural(s: string)
    requires Canonical(s) in WORKFORCE_SINGULAR
    ensures ValidateCogc(Some(JText(s))) == CogcValid(Some(Canonical(s) + "S"))
    ensures Canonical(s) + "S" in COGC_TYPES
  {
    var w := Canonical(s);
    assert Canonical("---") == "---";
    if w == "PIONEER" {
      assert w + "S" == "PIONEERS";
    } else if w == "SETTLER" {
      assert w + "S" == "SETTLERS";
    } else if w == "TECHNICIAN" {
      assert w + "S" == "TECHNICIANS";
    } else if w == "ENGINEER" {
      assert w + "S" == "ENGINEERS";
    } else {
      assert w + "S" == "SCIENTISTS";
    }
  }

  /** A text other than `---` is accepted exactly when its canonical form
      is a COGC program or a singular workforce name; `---`, null and an
      absent field mean no program; any other JSON value is refused. */
  lemma CogcOutcomes(v: Json)
    ensures v == JText("---") || v == JNull ==> ValidateCogc(Some(v)) == CogcValid(None)
    ensures ValidateCogc(None) == CogcValid(None)
    ensures v.JText? && v.text != "---" ==>
              (ValidateCogc(Some(v)).CogcValid? <==> Canonical(v.text) in COGC_TYPES + WORKFORCE_SINGULAR)
    ensures !v.JText? && !v.JNull? ==> ValidateCogc(Some(v)) == CogcInvalid
  {
    if v.JText? && v.text != "---" {
      var w := Canonical(v.text);
      if w in WORKFORCE_SINGULAR {
        SingularWorkforceMadePlural(v.text);
      } else if w in COGC_TYPES {
        CogcSpellingsAccepted(v.text, w);
      }
    }
  }

  /** The validator is idempotent: a normalised value is its own
      normalisation, so a stored legacy plan reads back unchanged. */
  lemma NormalizeCogcIdempotent(v: Json)
    ensures NormalizeCogc(NormalizeCogc(v)) == NormalizeCogc(v)
  {
    if v.JText? && v.text != "---" {
      var w := Canonical(v.text);
      CanonicalIdempotent(v.text);
      if w == "---" {
        DashesOnlyFromDashes(v.text);
      }
      if w in WORKFORCE_SINGULAR {
        CanonicalAppend(w, "S");
        assert Canonical("S") == "S";
        assert (w + "S")[|w + "S"| - 1] == 'S';
        PluralsAreNotSingular(w + "S");
        assert w + "S" != "---";
      }
    }
  }
}
