/** The type guards that decide whether the model's decoded output is a
    well-formed troubleshooting scenario. Each guard is a conjunction of
    `typeof` tests on named members; `.every(...)` is a `forall` over the
    array's elements. Validation is purely structural: strings may be empty,
    ids need not be distinct, and `correct_next` is never looked up. */
module ScenarioValidator {
  import opened Wrappers
  import opened JsonValue

  /** `['low', 'medium', 'high'].includes(severity)`: `includes` compares
      with SameValueZero, so only those three strings, and no value of any
      other type, pass. */
  predicate IsValidSeverity(severity: Json)
  {
    severity in [JString("low"), JString("medium"), JString("high")]
  }

  predicate IsString(v: Option<Json>)
  {
    v.Some? && v.value.JString?
  }

  predicate IsNumber(v: Option<Json>)
  {
    v.Some? && v.value.JNumber?
  }

  /** `Array.isArray(v)`. */
  predicate IsArray(v: Option<Json>)
  {
    v.Some? && v.value.JArray?
  }

  predicate ValidateIncorrectOption(option: Json)
  {
    && IsNonNullObject(option)
    && Field(option, "choice").Some?
    && Field(option, "feedback").Some?
    && Field(option, "severity").Some?
    && IsString(Field(option, "choice"))
    && IsString(Field(option, "feedback"))
    && IsValidSeverity(Field(option, "severity").value)
  }

  /** `correct_next` may be a number or `null`, but must be present. */
  predicate ValidateStep(step: Json)
  {
    && IsNonNullObject(step)
    && Field(step, "id").Some?
    && Field(step, "prompt").Some?
    && Field(step, "correct_next").Some?
    && Field(step, "correct_action").Some?
    && Field(step, "incorrect_options").Some?
    && IsNumber(Field(step, "id"))
    && IsString(Field(step, "prompt"))
    && (IsNumber(Field(step, "correct_next")) || Field(step, "correct_next").value == JNull)
    && IsString(Field(step, "correct_action"))
    && IsArray(Field(step, "incorrect_options"))
    && forall o :: o in Field(step, "incorrect_options").value.items ==> ValidateIncorrectOption(o)
  }

  predicate ValidateRecommendedScenario(scenario: Json)
  {
    && IsNonNullObject(scenario)
    && Field(scenario, "title").Some?
    && IsString(Field(scenario, "title"))
  }

  /** The guard applied to the whole decoded response. Its `try`/`catch` can
      never fire on a value `JSON.parse` produced (no member access on such a
      value throws), so it is not modelled. */
  predicate ValidateHVACScenario(data: Json)
  {
    && IsNonNullObject(data)
    && Field(data, "scenario").Some?
    && Field(data, "root_cause_analysis").Some?
    && Field(data, "steps").Some?
    && Field(data, "recommended_scenarios").Some?
    && IsString(Field(data, "scenario"))
    && IsString(Field(data, "root_cause_analysis"))
    && IsArray(Field(data, "steps"))
    && IsArray(Field(data, "recommended_scenarios"))
    && (forall s :: s in Field(data, "steps").value.items ==> ValidateStep(s))
    && (forall r :: r in Field(data, "recommended_scenarios").value.items ==> ValidateRecommendedScenario(r))
    && |Field(data, "recommended_scenarios").value.items| == 2
  }

  // ------------------------------------------------------------ properties

  /** The member names each guard reads. */
  const ScenarioKeys: set<string> := {"scenario", "root_cause_analysis", "steps", "recommended_scenarios"}
  const StepKeys: set<string> := {"id", "prompt", "correct_next", "correct_action", "incorrect_options"}
  const OptionKeys: set<string> := {"choice", "feedback", "severity"}

  /** `v` with member `key` set to `x`. */
  function WithMember(v: Json, key: string, x: Json): (r: Json)
    requires v.JObject?
    ensures r.JObject? && r.fields.Keys == v.fields.Keys + {key}
  {
    JObject(v.fields[key := x])
  }

  /** `data` with its `i`th step replaced by `s`. */
  function WithStep(data: Json, i: nat, s: Json): Json
    requires data.JObject? && IsArray(Field(data, "steps"))
    requires i < |data.fields["steps"].items|
  {
    WithMember(data, "steps", JArray(data.fields["steps"].items[i := s]))
  }

  /** `step` with its `j`th incorrect option replaced by `o`. */
  function WithOption(step: Json, j: nat, o: Json): Json
    requires step.JObject? && IsArray(Field(step, "incorrect_options"))
    requires j < |step.fields["incorrect_options"].items|
  {
    WithMember(step, "incorrect_options", JArray(step.fields["incorrect_options"].items[j := o]))
  }

  /** An array is an object to `typeof`, but it carries none of the named
      members, so no guard accepts one. */
  lemma ArraysRejected(xs: seq<Json>)
    ensures !ValidateIncorrectOption(JArray(xs)) && !ValidateStep(JArray(xs))
    ensures !ValidateRecommendedScenario(JArray(xs)) && !ValidateHVACScenario(JArray(xs))
  {
  }

  /** Given string `choice` and `feedback`, an option is accepted exactly
      when its severity is one of the three lower-case strings. */
  lemma SeverityDecidesOption(option: Json, severity: Json)
    requires option.JObject? && IsString(Field(option, "choice")) && IsString(Field(option, "feedback"))
    ensures ValidateIncorrectOption(WithMember(option, "severity", severity)) <==>
      severity == JString("low") || severity == JString("medium") || severity == JString("high")
  {
  }

  /** `correct_next` may be a number or `null`; any other value, or no
      `correct_next` at all, rejects the step. */
  lemma CorrectNextAlternatives(step: Json, n: int, other: Json)
    requires step.JObject?
    requires !other.JNumber? && other != JNull
    ensures ValidateStep(WithMember(step, "correct_next", JNull)) <==>
      ValidateStep(WithMember(step, "correct_next", JNumber(n)))
    ensures !ValidateStep(WithMember(step, "correct_next", other))
    ensures "correct_next" !in step.fields ==> !ValidateStep(step)
  {
  }

  /** All or nothing: one invalid step rejects the whole scenario, whatever
      the rest of it holds. */
  lemma InvalidStepRejectsScenario(data: Json, i: nat, s: Json)
    requires data.JObject? && IsArray(Field(data, "steps"))
    requires i < |data.fields["steps"].items|
    requires !ValidateStep(s)
    ensures !ValidateHVACScenario(WithStep(data, i, s))
  {
    var items := data.fields["steps"].items[i := s];
    assert items[i] in items;
  }

  /** One invalid incorrect option rejects its step. */
  lemma InvalidOptionRejectsStep(step: Json, j: nat, o: Json)
    requires step.JObject? && IsArray(Field(step, "incorrect_options"))
    requires j < |step.fields["incorrect_options"].items|
    requires !ValidateIncorrectOption(o)
    ensures !ValidateStep(WithOption(step, j, o))
  {
    var items := step.fields["incorrect_options"].items[j := o];
    assert items[j] in items;
  }

  /** ... and therefore the whole scenario. */
  lemma InvalidOptionRejectsScenario(data: Json, i: nat, j: nat, o: Json)
    requires data.JObject? && IsArray(Field(data, "steps"))
    requires i < |data.fields["steps"].items|
    requires var step := data.fields["steps"].items[i];
      step.JObject? && IsArray(Field(step, "incorrect_options")) &&
      j < |step.fields["incorrect_options"].items|
    requires !ValidateIncorrectOption(o)
    ensures !ValidateHVACScenario(WithStep(data, i, WithOption(data.fields["steps"].items[i], j, o)))
  {
    var step := data.fields["steps"].items[i];
    InvalidOptionRejectsStep(step, j, o);
    InvalidStepRejectsScenario(data, i, WithOption(step, j, o));
  }

  /** Replacing a step by one with the same verdict keeps the scenario's
      verdict: the guard looks at each step on its own. */
  lemma StepVerdictIsLocal(data: Json, i: nat, s: Json)
    requires data.JObject? && IsArray(Field(data, "steps"))
    requires i < |data.fields["steps"].items|
    requires ValidateStep(s) == ValidateStep(data.fields["steps"].items[i])
    ensures ValidateHVACScenario(WithStep(data, i, s)) == ValidateHVACScenario(data)
  {
    var before := data.fields["steps"].items;
    var after := before[i := s];
    assert forall x :: x in after ==> x == s || x in before;
    if ValidateStep(s) {
      assert forall x :: x in before ==> x == before[i] || x in after by {
        forall x | x in before ensures x == before[i] || x in after {
          var k :| 0 <= k < |before| && before[k] == x;
          if k != i { assert after[k] == x; }
        }
      }
    } else {
      assert after[i] in after;
      assert before[i] in before;
    }
  }

  /** A member the guard does not read never changes its verdict, at any of
      the four object levels (scenario, step, option, recommendation). */
  lemma UnknownMembersIgnored(v: Json, key: string, x: Json)
    requires v.JObject?
    ensures key !in ScenarioKeys ==>
      ValidateHVACScenario(WithMember(v, key, x)) == ValidateHVACScenario(v)
    ensures key !in StepKeys ==> ValidateStep(WithMember(v, key, x)) == ValidateStep(v)
    ensures key !in OptionKeys ==>
      ValidateIncorrectOption(WithMember(v, key, x)) == ValidateIncorrectOption(v)
    ensures key != "title" ==>
      ValidateRecommendedScenario(WithMember(v, key, x)) == ValidateRecommendedScenario(v)
  {
  }

  /** Accepted scenarios carry exactly two recommendations, each an object
      with a string `title`. */
  lemma RecommendationsExactlyTwo(data: Json)
    requires ValidateHVACScenario(data)
    ensures var rs := data.fields["recommended_scenarios"].items;
      |rs| == 2 && rs[0].JObject? && rs[1].JObject? &&
      "title" in rs[0].fields && rs[0].fields["title"].JString? &&
      "title" in rs[1].fields && rs[1].fields["title"].JString?
  {
    var rs := data.fields["recommended_scenarios"].items;
    assert rs[0] in rs && rs[1] in rs;
  }
}
