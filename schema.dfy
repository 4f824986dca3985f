/** The typed scenario that the type guards narrow an untrusted value to
    (the interfaces `IncorrectOption`, `Step`, `RecommendedScenario` and
    `HVACScenario`), its JSON encoding, and the decoding that gives each
    guard its meaning: a guard accepts a value exactly when the value
    decodes to a typed one. */
module ScenarioSchema {
  import opened Wrappers
  import opened JsonValue
  import opened ScenarioValidator
  import opened SeqFacts

  datatype Severity = Low | Medium | High

  datatype IncorrectOption = IncorrectOption(choice: string, feedback: string, severity: Severity)

  /** `correctNext` is `None` for JSON `null`: the guard accepts `null`
      there although the interface declares a plain number. */
  datatype Step = Step(
    id: int,
    prompt: string,
    correctNext: Option<int>,
    correctAction: string,
    incorrectOptions: seq<IncorrectOption>)

  datatype RecommendedScenario = RecommendedScenario(title: string)

  datatype HVACScenario = HVACScenario(
    scenario: string,
    rootCauseAnalysis: string,
    steps: seq<Step>,
    recommendedScenarios: seq<RecommendedScenario>)

  // ---------------------------------------------------------------- encoding

  function SeverityToJson(s: Severity): Json
  {
    match s
    case Low => JString("low")
    case Medium => JString("medium")
    case High => JString("high")
  }

  function OptionToJson(o: IncorrectOption): Json
  {
    JObject(map[
      "choice" := JString(o.choice),
      "feedback" := JString(o.feedback),
      "severity" := SeverityToJson(o.severity)])
  }

  function OptionsToJson(os: seq<IncorrectOption>): (r: seq<Json>)
    ensures |r| == |os| && forall i :: 0 <= i < |os| ==> r[i] == OptionToJson(os[i])
  {
    if os == [] then [] else [OptionToJson(os[0])] + OptionsToJson(os[1..])
  }

  function CorrectNextToJson(n: Option<int>): Json
  {
    match n
    case Some(k) => JNumber(k)
    case None => JNull
  }

  function StepToJson(s: Step): Json
  {
    JObject(map[
      "id" := JNumber(s.id),
      "prompt" := JString(s.prompt),
      "correct_next" := CorrectNextToJson(s.correctNext),
      "correct_action" := JString(s.correctAction),
      "incorrect_options" := JArray(OptionsToJson(s.incorrectOptions))])
  }

  function StepsToJson(ss: seq<Step>): (r: seq<Json>)
    ensures |r| == |ss| && forall i :: 0 <= i < |ss| ==> r[i] == StepToJson(ss[i])
  {
    if ss == [] then [] else [StepToJson(ss[0])] + StepsToJson(ss[1..])
  }

  function RecommendationToJson(r: RecommendedScenario): Json
  {
    JObject(map["title" := JString(r.title)])
  }

  function RecommendationsToJson(rs: seq<RecommendedScenario>): (r: seq<Json>)
    ensures |r| == |rs| && forall i :: 0 <= i < |rs| ==> r[i] == RecommendationToJson(rs[i])
  {
    if rs == [] then [] else [RecommendationToJson(rs[0])] + RecommendationsToJson(rs[1..])
  }

  function ScenarioToJson(sc: HVACScenario): Json
  {
    JObject(map[
      "scenario" := JString(sc.scenario),
      "root_cause_analysis" := JString(sc.rootCauseAnalysis),
      "steps" := JArray(StepsToJson(sc.steps)),
      "recommended_scenarios" := JArray(RecommendationsToJson(sc.recommendedScenarios))])
  }

  // ---------------------------------------------------------------- decoding

  function DecodeSeverity(v: Json): (r: Option<Severity>)
    ensures r.Some? <==> IsValidSeverity(v)
    ensures r.Some? ==> SeverityToJson(r.value) == v
  {
    match v
    case JString(s) =>
      if s == "low" then Some(Low)
      else if s == "medium" then Some(Medium)
      else if s == "high" then Some(High)
      else None
    case _ => None
  }

  function DecodeOption(v: Json): (r: Option<IncorrectOption>)
    ensures r.Some? <==> ValidateIncorrectOption(v)
  {
    if v.JObject? && "choice" in v.fields && "feedback" in v.fields && "severity" in v.fields
       && v.fields["choice"].JString? && v.fields["feedback"].JString?
       && DecodeSeverity(v.fields["severity"]).Some?
    then
      Some(IncorrectOption(v.fields["choice"].str, v.fields["feedback"].str,
        DecodeSeverity(v.fields["severity"]).value))
    else None
  }

  function DecodeOptions(xs: seq<Json>): (r: Option<seq<IncorrectOption>>)
    ensures r.Some? <==> forall x :: x in xs ==> ValidateIncorrectOption(x)
    ensures r.Some? ==> |r.value| == |xs|
    ensures r.Some? ==> forall i :: 0 <= i < |xs| ==> DecodeOption(xs[i]) == Some(r.value[i])
  {
    if xs == [] then Some([])
    else
      match (DecodeOption(xs[0]), DecodeOptions(xs[1..]))
      case (Some(o), Some(os)) => Some([o] + os)
      case _ => None
  }

  function DecodeCorrectNext(v: Json): Option<Option<int>>
  {
    match v
    case JNumber(n) => Some(Some(n))
    case JNull => Some(None)
    case _ => None
  }

  function DecodeStep(v: Json): (r: Option<Step>)
    ensures r.Some? <==> ValidateStep(v)
  {
    if v.JObject? && "id" in v.fields && "prompt" in v.fields && "correct_next" in v.fields
       && "correct_action" in v.fields && "incorrect_options" in v.fields
       && v.fields["id"].JNumber? && v.fields["prompt"].JString?
       && DecodeCorrectNext(v.fields["correct_next"]).Some?
       && v.fields["correct_action"].JString? && v.fields["incorrect_options"].JArray?
       && DecodeOptions(v.fields["incorrect_options"].items).Some?
    then
      Some(Step(v.fields["id"].n, v.fields["prompt"].str,
        DecodeCorrectNext(v.fields["correct_next"]).value, v.fields["correct_action"].str,
        DecodeOptions(v.fields["incorrect_options"].items).value))
    else None
  }

  function DecodeSteps(xs: seq<Json>): (r: Option<seq<Step>>)
    ensures r.Some? <==> forall x :: x in xs ==> ValidateStep(x)
    ensures r.Some? ==> |r.value| == |xs|
    ensures r.Some? ==> forall i :: 0 <= i < |xs| ==> DecodeStep(xs[i]) == Some(r.value[i])
  {
    if xs == [] then Some([])
    else
      match (DecodeStep(xs[0]), DecodeSteps(xs[1..]))
      case (Some(s), Some(ss)) => Some([s] + ss)
      case _ => None
  }

  function DecodeRecommendation(v: Json): (r: Option<RecommendedScenario>)
    ensures r.Some? <==> ValidateRecommendedScenario(v)
  {
    match v
    case JObject(f) =>
      if "title" in f && f["title"].JString? then Some(RecommendedScenario(f["title"].str)) else None
    case _ => None
  }

  function DecodeRecommendations(xs: seq<Json>): (r: Option<seq<RecommendedScenario>>)
    ensures r.Some? <==> forall x :: x in xs ==> ValidateRecommendedScenario(x)
    ensures r.Some? ==> |r.value| == |xs|
    ensures r.Some? ==> forall i :: 0 <= i < |xs| ==> DecodeRecommendation(xs[i]) == Some(r.value[i])
  {
    if xs == [] then Some([])
    else
      match (DecodeRecommendation(xs[0]), DecodeRecommendations(xs[1..]))
      case (Some(s), Some(ss)) => Some([s] + ss)
      case _ => None
  }

  /** The meaning of `validateHVACScenario`: it accepts `v` exactly when `v`
      decodes to a typed scenario, and every accepted value carries exactly
      two recommendations. */
  function DecodeScenario(v: Json): (r: Option<HVACScenario>)
    ensures r.Some? <==> ValidateHVACScenario(v)
    ensures r.Some? ==> |r.value.recommendedScenarios| == 2
  {
    if v.JObject? && "scenario" in v.fields && "root_cause_analysis" in v.fields
       && "steps" in v.fields && "recommended_scenarios" in v.fields
       && v.fields["scenario"].JString? && v.fields["root_cause_analysis"].JString?
       && v.fields["steps"].JArray? && v.fields["recommended_scenarios"].JArray?
       && DecodeSteps(v.fields["steps"].items).Some?
       && DecodeRecommendations(v.fields["recommended_scenarios"].items).Some?
       && |v.fields["recommended_scenarios"].items| == 2
    then
      Some(HVACScenario(v.fields["scenario"].str, v.fields["root_cause_analysis"].str,
        DecodeSteps(v.fields["steps"].items).value,
        DecodeRecommendations(v.fields["recommended_scenarios"].items).value))
    else None
  }

  // ------------------------------------------------------------- round trip

  lemma SeverityRoundTrip(sev: Severity)
    ensures DecodeSeverity(SeverityToJson(sev)) == Some(sev)
  {
  }

  lemma OptionRoundTrip(o: IncorrectOption)
    ensures DecodeOption(OptionToJson(o)) == Some(o)
  {
    var f := OptionToJson(o).fields;
    assert "choice" in f && f["choice"] == JString(o.choice);
    assert "feedback" in f && f["feedback"] == JString(o.feedback);
    assert "severity" in f && f["severity"] == SeverityToJson(o.severity);
    SeverityRoundTrip(o.severity);
  }

  lemma {:induction false} OptionsRoundTrip(os: seq<IncorrectOption>)
    ensures DecodeOptions(OptionsToJson(os)) == Some(os)
  {
    if os != [] {
      var h, t := OptionToJson(os[0]), OptionsToJson(os[1..]);
      assert OptionsToJson(os) == [h] + t;
      HeadTail(h, t);
      OptionRoundTrip(os[0]);
      OptionsRoundTrip(os[1..]);
      Recompose(os);
    }
  }

  lemma StepRoundTrip(s: Step)
    ensures DecodeStep(StepToJson(s)) == Some(s)
  {
    var f := StepToJson(s).fields;
    assert "id" in f && f["id"] == JNumber(s.id);
    assert "prompt" in f && f["prompt"] == JString(s.prompt);
    assert "correct_next" in f && f["correct_next"] == CorrectNextToJson(s.correctNext);
    assert "correct_action" in f && f["correct_action"] == JString(s.correctAction);
    assert "incorrect_options" in f && f["incorrect_options"] == JArray(OptionsToJson(s.incorrectOptions));
    assert DecodeCorrectNext(CorrectNextToJson(s.correctNext)) == Some(s.correctNext);
    OptionsRoundTrip(s.incorrectOptions);
  }

  lemma {:induction false} StepsRoundTrip(ss: seq<Step>)
    ensures DecodeSteps(StepsToJson(ss)) == Some(ss)
  {
    if ss != [] {
      var h, t := StepToJson(ss[0]), StepsToJson(ss[1..]);
      assert StepsToJson(ss) == [h] + t;
      HeadTail(h, t);
      StepRoundTrip(ss[0]);
      StepsRoundTrip(ss[1..]);
      Recompose(ss);
    }
  }

  lemma {:induction false} RecommendationsRoundTrip(rs: seq<RecommendedScenario>)
    ensures DecodeRecommendations(RecommendationsToJson(rs)) == Some(rs)
  {
    if rs != [] {
      var h, t := RecommendationToJson(rs[0]), RecommendationsToJson(rs[1..]);
      assert RecommendationsToJson(rs) == [h] + t;
      HeadTail(h, t);
      RecommendationsRoundTrip(rs[1..]);
      Recompose(rs);
    }
  }

  /** Encoding a typed scenario and validating it again gives back the same
      typed scenario, provided it has the two recommendations the guard
      demands; with any other number of them the encoding is rejected. */
  lemma ScenarioRoundTrip(sc: HVACScenario)
    ensures |sc.recommendedScenarios| == 2 ==> DecodeScenario(ScenarioToJson(sc)) == Some(sc)
    ensures ValidateHVACScenario(ScenarioToJson(sc)) <==> |sc.recommendedScenarios| == 2
  {
    var f := ScenarioToJson(sc).fields;
    assert f["scenario"] == JString(sc.scenario);
    assert f["root_cause_analysis"] == JString(sc.rootCauseAnalysis);
    assert f["steps"] == JArray(StepsToJson(sc.steps));
    assert f["recommended_scenarios"] == JArray(RecommendationsToJson(sc.recommendedScenarios));
    StepsRoundTrip(sc.steps);
    RecommendationsRoundTrip(sc.recommendedScenarios);
    assert DecodeScenario(ScenarioToJson(sc)) ==
      if |sc.recommendedScenarios| == 2 then Some(sc) else None;
  }

  // ---------------------------------------------------- no field is lost

  lemma OptionsEncodingExtends(xs: seq<Json>)
    requires DecodeOptions(xs).Some?
    ensures Extends(JArray(OptionsToJson(DecodeOptions(xs).value)), JArray(xs))
  {
    var os := DecodeOptions(xs).value;
    forall i | 0 <= i < |xs| ensures Extends(OptionToJson(os[i]), xs[i]) {
      assert DecodeOption(xs[i]) == Some(os[i]);
    }
  }

  lemma StepEncodingExtends(x: Json)
    requires DecodeStep(x).Some?
    ensures Extends(StepToJson(DecodeStep(x).value), x)
  {
    var st := DecodeStep(x).value;
    var f := x.fields;
    assert f["incorrect_options"].JArray?;
    var xs := f["incorrect_options"].items;
    assert DecodeOptions(xs) == Some(st.incorrectOptions);
    OptionsEncodingExtends(xs);
    var g := StepToJson(st).fields;
    assert g["incorrect_options"] == JArray(OptionsToJson(st.incorrectOptions));
    forall k | k in g ensures k in f && Extends(g[k], f[k]) {
      if k == "incorrect_options" {
      } else {
        assert g[k] == f[k];
      }
    }
  }

  lemma StepsEncodingExtends(xs: seq<Json>)
    requires DecodeSteps(xs).Some?
    ensures Extends(JArray(StepsToJson(DecodeSteps(xs).value)), JArray(xs))
  {
    var ss := DecodeSteps(xs).value;
    forall i | 0 <= i < |xs| ensures Extends(StepToJson(ss[i]), xs[i]) {
      StepEncodingExtends(xs[i]);
      assert DecodeStep(xs[i]) == Some(ss[i]);
    }
  }

  lemma RecommendationsEncodingExtends(xs: seq<Json>)
    requires DecodeRecommendations(xs).Some?
    ensures Extends(JArray(RecommendationsToJson(DecodeRecommendations(xs).value)), JArray(xs))
  {
    var rs := DecodeRecommendations(xs).value;
    forall i | 0 <= i < |xs| ensures Extends(RecommendationToJson(rs[i]), xs[i]) {
      assert DecodeRecommendation(xs[i]) == Some(rs[i]);
    }
  }

  /** Nothing the schema names is lost: every member of the typed scenario's
      encoding is present, with the same content, in the accepted value. */
  lemma DecodeLosesNoField(v: Json)
    requires ValidateHVACScenario(v)
    ensures Extends(ScenarioToJson(DecodeScenario(v).value), v)
  {
    ScenarioEncodingExtends(v, DecodeScenario(v).value);
  }

  lemma ScenarioEncodingExtends(v: Json, sc: HVACScenario)
    requires DecodeScenario(v) == Some(sc)
    ensures Extends(ScenarioToJson(sc), v)
  {
    var f := v.fields;
    var xs, ys := f["steps"].items, f["recommended_scenarios"].items;
    assert DecodeSteps(xs) == Some(sc.steps);
    assert DecodeRecommendations(ys) == Some(sc.recommendedScenarios);
    StepsEncodingExtends(xs);
    RecommendationsEncodingExtends(ys);
    var g := ScenarioToJson(sc).fields;
    forall k | k in g ensures k in f && Extends(g[k], f[k]) {
      if k == "steps" || k == "recommended_scenarios" {
      } else {
        assert g[k] == f[k];
      }
    }
  }

  // ------------------------------------------- extra members change nothing

  lemma OptionExtension(a: Json, b: Json)
    requires Extends(a, b) && DecodeOption(a).Some?
    ensures DecodeOption(b) == DecodeOption(a)
  {
    var f, g := a.fields, b.fields;
    assert f["choice"] == g["choice"] && f["feedback"] == g["feedback"];
    assert f["severity"] == g["severity"];
  }

  lemma {:induction false} OptionsExtension(xs: seq<Json>, ys: seq<Json>)
    requires Extends(JArray(xs), JArray(ys)) && DecodeOptions(xs).Some?
    ensures DecodeOptions(ys) == DecodeOptions(xs)
  {
    if xs != [] {
      OptionExtension(xs[0], ys[0]);
      assert Extends(JArray(xs[1..]), JArray(ys[1..])) by {
        forall i | 0 <= i < |xs| - 1 ensures Extends(xs[1..][i], ys[1..][i]) {
          assert xs[1..][i] == xs[i + 1] && ys[1..][i] == ys[i + 1];
        }
      }
      OptionsExtension(xs[1..], ys[1..]);
    }
  }

  lemma StepExtension(a: Json, b: Json)
    requires Extends(a, b) && DecodeStep(a).Some?
    ensures DecodeStep(b) == DecodeStep(a)
  {
    var f, g := a.fields, b.fields;
    assert f["id"] == g["id"] && f["prompt"] == g["prompt"];
    assert f["correct_next"] == g["correct_next"] && f["correct_action"] == g["correct_action"];
    OptionsExtension(f["incorrect_options"].items, g["incorrect_options"].items);
  }

  lemma {:induction false} StepsExtension(xs: seq<Json>, ys: seq<Json>)
    requires Extends(JArray(xs), JArray(ys)) && DecodeSteps(xs).Some?
    ensures DecodeSteps(ys) == DecodeSteps(xs)
  {
    if xs != [] {
      StepExtension(xs[0], ys[0]);
      assert Extends(JArray(xs[1..]), JArray(ys[1..])) by {
        forall i | 0 <= i < |xs| - 1 ensures Extends(xs[1..][i], ys[1..][i]) {
          assert xs[1..][i] == xs[i + 1] && ys[1..][i] == ys[i + 1];
        }
      }
      StepsExtension(xs[1..], ys[1..]);
    }
  }

  lemma {:induction false} RecommendationsExtension(xs: seq<Json>, ys: seq<Json>)
    requires Extends(JArray(xs), JArray(ys)) && DecodeRecommendations(xs).Some?
    ensures DecodeRecommendations(ys) == DecodeRecommendations(xs)
  {
    if xs != [] {
      assert DecodeRecommendation(xs[0]).Some? && Extends(xs[0], ys[0]);
      assert xs[0].fields["title"] == ys[0].fields["title"];
      assert Extends(JArray(xs[1..]), JArray(ys[1..])) by {
        forall i | 0 <= i < |xs| - 1 ensures Extends(xs[1..][i], ys[1..][i]) {
          assert xs[1..][i] == xs[i + 1] && ys[1..][i] == ys[i + 1];
        }
      }
      RecommendationsExtension(xs[1..], ys[1..]);
    }
  }

  /** Adding members of any name, at any depth, to an accepted value keeps
      it accepted and leaves the typed scenario it stands for unchanged. */
  lemma ScenarioExtension(a: Json, b: Json)
    requires Extends(a, b) && DecodeScenario(a).Some?
    ensures DecodeScenario(b) == DecodeScenario(a)
    ensures ValidateHVACScenario(b)
  {
    var f, g := a.fields, b.fields;
    assert f["scenario"] == g["scenario"] && f["root_cause_analysis"] == g["root_cause_analysis"];
    StepsExtension(f["steps"].items, g["steps"].items);
    RecommendationsExtension(f["recommended_scenarios"].items, g["recommended_scenarios"].items);
  }

  /** The guard checks types only: empty strings, no steps, no incorrect
      options, repeated ids and a `correct_next` that names no step all
      pass. */
  lemma AcceptsDegenerateScenarios()
    ensures ValidateHVACScenario(ScenarioToJson(HVACScenario("", "", [],
      [RecommendedScenario(""), RecommendedScenario("")])))
    ensures ValidateHVACScenario(ScenarioToJson(HVACScenario("", "",
      [Step(1, "", Some(99), "", []), Step(1, "", None, "", [])],
      [RecommendedScenario(""), RecommendedScenario("")])))
  {
    ScenarioRoundTrip(HVACScenario("", "", [], [RecommendedScenario(""), RecommendedScenario("")]));
    ScenarioRoundTrip(HVACScenario("", "",
      [Step(1, "", Some(99), "", []), Step(1, "", None, "", [])],
      [RecommendedScenario(""), RecommendedScenario("")]));
  }
}
