/** The user serializers: the registration checks (username and email
    uniqueness, the planet-name captcha) and the removal of the captcha
    fields before the user is created, and the preferences, which are the
    defaults deep-merged with what the user stored. */
module UserSerializer {
  import opened Common

  type Dict = map<string, Json>

  // ---------------------------------------------------------------------
  // Deep merge

  /** `deep_merge(base, overrides)`: a key of `overrides` whose value and
      whose value in `base` are both dictionaries is merged recursively;
      any other key of `overrides` replaces the base value; keys only in
      `base` keep their value. */
  function DeepMerge(base: Dict, overrides: Dict): (r: Dict)
    ensures r.Keys == base.Keys + overrides.Keys
    decreases JObject(overrides), 0
  {
    map k | k in base.Keys + overrides.Keys ::
      if k in overrides then MergeEntry(base, k, overrides[k]) else base[k]
  }

  /** The value a key of the overrides ends with. */
  function MergeEntry(base: Dict, k: string, v: Json): Json
    decreases v, 1
  {
    if k in base && base[k].JObject? && v.JObject?
    then JObject(DeepMerge(base[k].fields, v.fields))
    else v
  }

  /** The entries of `d` whose key is in `keys`. */
  function Restrict(d: Dict, keys: set<string>): (r: Dict)
    ensures r.Keys == d.Keys * keys
  {
    map k | k in d && k in keys :: d[k]
  }

  /** The merge as the source runs it: copy the base, then visit the
      override keys one at a time, recursing into nested dictionaries. The
      order of the visits does not matter, as every key is visited once. */
  method DeepMergeCopy(base: Dict, overrides: Dict) returns (result: Dict)
    ensures result == DeepMerge(base, overrides)
    decreases JObject(overrides)
  {
    result := base;
    var done: set<string> := {};
    MergeNothing(base);
    assert Restrict(overrides, {}) == map[];
    while done != overrides.Keys
      invariant done <= overrides.Keys
      invariant result == DeepMerge(base, Restrict(overrides, done))
      decreases |overrides.Keys| - |done|
    {
      var key :| key in overrides && key !in done;
      var value := overrides[key];
      MergeStep(base, overrides, done, key);
      var entry := value;
      if value.JObject? && key in result && result[key].JObject? {
        var merged := DeepMergeCopy(result[key].fields, value.fields);
        entry := JObject(merged);
      }
      assert entry == MergeEntry(base, key, value);
      result := result[key := entry];
      SubsetCard(done + {key}, overrides.Keys);
      done := done + {key};
    }
    RestrictAll(overrides, done);
  }

  /** Keeping every key keeps the whole dictionary. */
  lemma RestrictAll(d: Dict, keys: set<string>)
    requires keys == d.Keys
    ensures Restrict(d, keys) == d
  {
  }

  /** One visit of the loop: merging the key into the partial result gives
      the merge of the visited keys and that key. */
  lemma MergeStep(base: Dict, overrides: Dict, done: set<string>, key: string)
    requires key in overrides && key !in done
    ensures var partial := DeepMerge(base, Restrict(overrides, done));
      && (key in partial <==> key in base)
      && (key in partial ==> partial[key] == base[key])
      && partial[key := MergeEntry(base, key, overrides[key])] == DeepMerge(base, Restrict(overrides, done + {key}))
  {
    var partial := DeepMerge(base, Restrict(overrides, done));
    var l := partial[key := MergeEntry(base, key, overrides[key])];
    var r := DeepMerge(base, Restrict(overrides, done + {key}));
    assert l.Keys == r.Keys;
    forall k | k in l
      ensures l[k] == r[k]
    {
    }
  }

  // ---------------------------------------------------------------------
  // Properties of the merge

  /** Merging nothing leaves the base as it was. */
  lemma MergeNothing(base: Dict)
    ensures DeepMerge(base, map[]) == base
  {
  }

  /** A key only in the base keeps its value; a key of the overrides whose
      value is not a dictionary, or that has no dictionary under it in the
      base, takes the override value. */
  lemma MergeEntries(base: Dict, overrides: Dict, k: string)
    ensures k in base && k !in overrides ==> DeepMerge(base, overrides)[k] == base[k]
    ensures k in overrides && !(overrides[k].JObject? && k in base && base[k].JObject?)
            ==> DeepMerge(base, overrides)[k] == overrides[k]
    ensures k in overrides && overrides[k].JObject? && k in base && base[k].JObject?
            ==> DeepMerge(base, overrides)[k] == JObject(DeepMerge(base[k].fields, overrides[k].fields))
  {
  }

  /** Merging a dictionary into itself gives it back. */
  lemma {:induction false} MergeSelf(d: Dict)
    ensures DeepMerge(d, d) == d
    decreases JObject(d)
  {
    forall k | k in d
      ensures DeepMerge(d, d)[k] == d[k]
    {
      if d[k].JObject? {
        MergeSelf(d[k].fields);
      }
    }
  }

  /** Merging into an empty dictionary gives the overrides. */
  lemma MergeIntoEmpty(overrides: Dict)
    ensures DeepMerge(map[], overrides) == overrides
  {
  }

  /** Applying the same overrides twice is applying them once. */
  lemma {:induction false} MergeTwiceIsOnce(base: Dict, overrides: Dict)
    ensures DeepMerge(DeepMerge(base, overrides), overrides) == DeepMerge(base, overrides)
    decreases JObject(overrides)
  {
    var once := DeepMerge(base, overrides);
    forall k | k in once
      ensures DeepMerge(once, overrides)[k] == once[k]
    {
      assert k in overrides ==> once[k] == MergeEntry(base, k, overrides[k])
                                && DeepMerge(once, overrides)[k] == MergeEntry(once, k, overrides[k]);
      if k in overrides && overrides[k].JObject? {
        if k in base && base[k].JObject? {
          MergeTwiceIsOnce(base[k].fields, overrides[k].fields);
        } else {
          MergeSelf(overrides[k].fields);
        }
      }
    }
  }

  /** Every leaf of the overrides survives the merge: a value that is not
      a dictionary is found in the result under the same key. */
  lemma {:induction false} OverridesWin(base: Dict, overrides: Dict, k: string)
    requires k in overrides
    ensures k in DeepMerge(base, overrides)
    ensures !overrides[k].JObject? ==> DeepMerge(base, overrides)[k] == overrides[k]
    ensures overrides[k].JObject? ==> (DeepMerge(base, overrides)[k].JObject?
                                       && DeepMerge(base, overrides)[k].fields.Keys >= overrides[k].fields.Keys)
  {
  }

  // ---------------------------------------------------------------------
  // Preferences

  const DEFAULT_PREFERENCES: Dict := map[
    "default_empire_uuid" := JNull,
    "default_buy_items_from_cx" := JBool(true),
    "burn_days_red" := JNum(5),
    "burn_days_yellow" := JNum(10),
    "burn_resupply_days" := JNum(18),
    "burn_origin" := JText("Antares Station Warehouse"),
    "layout_navigation_style" := JText("full"),
    "plan_overrides" := JObject(map[])
  ]

  /** The preferences handed to the field serializers: the defaults with the
      stored dictionary merged in; a stored value that is not a dictionary
      counts as empty. */
  function Preferences(stored: Json): Dict
  {
    DeepMerge(DEFAULT_PREFERENCES, if stored.JObject? then stored.fields else map[])
  }

  /** Every default key is present; a stored value that is not a
      dictionary yields exactly the defaults; a stored leaf replaces the
      default; a default the user never stored is kept. */
  lemma PreferencesMeaning(stored: Json, k: string)
    ensures DEFAULT_PREFERENCES.Keys <= Preferences(stored).Keys
    ensures !stored.JObject? ==> Preferences(stored) == DEFAULT_PREFERENCES
    ensures stored.JObject? && k in stored.fields && !stored.fields[k].JObject?
            ==> Preferences(stored)[k] == stored.fields[k]
    ensures k in DEFAULT_PREFERENCES && !(stored.JObject? && k in stored.fields)
            ==> Preferences(stored)[k] == DEFAULT_PREFERENCES[k]
  {
    if stored.JObject? && k in stored.fields {
      OverridesWin(DEFAULT_PREFERENCES, stored.fields, k);
    }
  }

  /** The stored plan overrides are merged into the empty default, so they
      come back as stored. */
  lemma PlanOverridesKept(stored: Dict)
    requires "plan_overrides" in stored && stored["plan_overrides"].JObject?
    ensures Preferences(JObject(stored))["plan_overrides"] == stored["plan_overrides"]
  {
    var v := stored["plan_overrides"];
    assert DEFAULT_PREFERENCES["plan_overrides"] == JObject(map[]);
    assert Preferences(JObject(stored))["plan_overrides"] == MergeEntry(DEFAULT_PREFERENCES, "plan_overrides", v);
    MergeIntoEmpty(v.fields);
  }

  // ---------------------------------------------------------------------
  // Registration

  /** The captcha: a planet id and the planet's name. */
  const PLANET_CHECKLIST: map<string, string> := map[
    "OT-580b" := "montem",
    "KW-688c" := "etherwind",
    "ZV-759c" := "deimos",
    "ZV-896b" := "harmonia",
    "FK-794b" := "boucher",
    "UV-351c" := "umbra",
    "RC-040b" := "malahat",
    "OT-442b" := "danakil",
    "KW-020c" := "milliways"
  ]

  /** The dictionary lookup, `None` for an unknown id. */
  function ChecklistGet(planetId: string): Option<string>
  {
    if planetId in PLANET_CHECKLIST then Some(PLANET_CHECKLIST[planetId]) else None
  }

  /** The captcha passes when the lookup equals the answer, trimmed and
      lower-cased. */
  predicate CaptchaPasses(planetId: string, planetInput: string)
  {
    ChecklistGet(planetId) == Some(Lower(Strip(planetInput)))
  }

  /** An unknown planet id never passes; a known one passes exactly for its
      name, up to surrounding whitespace and case. */
  lemma CaptchaMeaning(planetId: string, planetInput: string)
    ensures planetId !in PLANET_CHECKLIST ==> !CaptchaPasses(planetId, planetInput)
    ensures planetId in PLANET_CHECKLIST ==>
              (CaptchaPasses(planetId, planetInput) <==> Lower(Strip(planetInput)) == PLANET_CHECKLIST[planetId])
  {
  }

  datatype CheckResult = Accepted | Refused(reason: string)

  /** A username is refused when a user already has exactly that name. */
  function ValidateUsername(username: string, existingUsernames: set<string>): (r: CheckResult)
    ensures r == Accepted <==> username !in existingUsernames
  {
    if username in existingUsernames then Refused("This username is already taken.") else Accepted
  }

  /** Two emails match ignoring case. */
  predicate EmailMatches(stored: string, given: string)
  {
    Lower(stored) == Lower(given)
  }

  /** An email, when one is given (not null and not blank), is refused when
      some user's email matches it ignoring case. */
  function ValidateEmail(email: Option<string>, existingEmails: set<string>): CheckResult
  {
    if email.Some? && email.value != "" then
      if exists e :: e in existingEmails && EmailMatches(e, email.value)
      then Refused("A user with this email already exists.")
      else Accepted
    else Accepted
  }

  /** No email or a blank one is always accepted; a given email is refused
      exactly when it clashes, ignoring case, with a stored one, and in
      particular when it differs from one only in case. */
  lemma EmailMeaning(email: Option<string>, existingEmails: set<string>)
    ensures email.None? || email == Some("") ==> ValidateEmail(email, existingEmails) == Accepted
    ensures email.Some? && email.value != "" ==>
              (ValidateEmail(email, existingEmails).Refused?
               <==> exists e :: e in existingEmails && Lower(e) == Lower(email.value))
    ensures email.Some? && email.value != "" && Upper(email.value) in existingEmails
            ==> ValidateEmail(email, existingEmails).Refused?
  {
    if email.Some? && email.value != "" && Upper(email.value) in existingEmails {
      var u := Upper(email.value);
      forall i | 0 <= i < |u|
        ensures Lower(u)[i] == Lower(email.value)[i]
      {
      }
      assert EmailMatches(u, email.value);
    }
  }

  /** `create`: the captcha fields are popped before the user is created;
      a missing one raises, which the validation before it rules out. */
  function CreateUserFields(validated: Dict): (r: Option<Dict>)
    ensures r.Some? <==> "planet_id" in validated && "planet_input" in validated
  {
    if "planet_id" in validated && "planet_input" in validated
    then Some(map k | k in validated && k != "planet_id" && k != "planet_input" :: validated[k])
    else None
  }

  /** The user is created from every validated field except the two
      captcha fields, each with its validated value. */
  lemma CreateUserFieldsMeaning(validated: Dict)
    requires "planet_id" in validated && "planet_input" in validated
    ensures var fields := CreateUserFields(validated).value;
      && fields.Keys == validated.Keys - {"planet_id", "planet_input"}
      && forall k :: k in fields ==> fields[k] == validated[k]
  {
  }
}
