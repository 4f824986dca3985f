/** The pure decisions inside the `POST` handler of the scenario endpoint:
    the check on the incoming query, the prompt it yields, and what is done
    with the model's reply once `JSON.parse` has run on it. The network
    calls, the API key and the logging around them are not part of this
    model; `JSON.parse` is represented by its result, `None` when it throws. */
module ResponseHandler {
  import opened Wrappers
  import opened JsonValue
  import opened ScenarioValidator
  import opened ScenarioSchema
  import opened QueryNormalizer

  const InvalidQueryMessage: string := "Invalid query provided"
  const InvalidJsonMessage: string := "Invalid JSON response from AI"
  const FormatMessage: string := "AI response does not match expected format"

  /** What the handler does with the model's reply: respond with a value, or
      raise an error with a message. */
  datatype Outcome = Respond(body: Json) | Raise(message: string)

  /** `!v` in JavaScript for a JSON value or `undefined` (`None`). */
  predicate IsFalsy(v: Option<Json>)
  {
    v == None || v == Some(JNull) || v == Some(JBool(false)) || v == Some(JNumber(0))
    || v == Some(JString(""))
  }

  /** Lines 171-179: reject a missing, falsy or non-string `query`, otherwise
      build the system prompt from it. */
  function PreparePrompt(template: string, query: Option<Json>): (r: Result<string>)
    ensures r.Success? <==> exists q :: query == Some(JString(q)) && q != ""
    ensures r.Failure? ==> r.error == InvalidQueryMessage
    ensures r.Success? ==> r.value == CustomizePrompt(template, query.value.str)
  {
    if IsFalsy(query) || !query.value.JString? then Failure(InvalidQueryMessage)
    else Success(CustomizePrompt(template, query.value.str))
  }

  /** Lines 206-220, with the validator as a parameter. */
  function Decide(parsed: Option<Json>, accepts: Json -> bool): Outcome
  {
    match parsed
    case None => Raise(InvalidJsonMessage)
    case Some(v) => if !accepts(v) then Raise(FormatMessage) else Respond(v)
  }

  /** The three outcomes: text that did not decode fails with the JSON
      message, a decoded value the guard rejects fails with the format
      message, and only an accepted value is sent back, unchanged, and it
      always stands for a typed scenario. */
  function HandleModelResponse(parsed: Option<Json>): (r: Outcome)
    ensures parsed.None? ==> r == Raise(InvalidJsonMessage)
    ensures parsed.Some? && !ValidateHVACScenario(parsed.value) ==> r == Raise(FormatMessage)
    ensures r.Respond? <==> parsed.Some? && ValidateHVACScenario(parsed.value)
    ensures r.Respond? ==> r.body == parsed.value && DecodeScenario(r.body).Some?
  {
    Decide(parsed, ValidateHVACScenario)
  }

  /** A reply that does not decode never reaches the validator: the outcome
      is the same whatever the validator would say. */
  lemma DecodeFailureSkipsValidation(accepts: Json -> bool, other: Json -> bool)
    ensures Decide(None, accepts) == Decide(None, other) == Raise(InvalidJsonMessage)
  {
  }

  /** Valid JSON that omits `steps` fails with the format message. */
  lemma MissingStepsIsFormatError(v: Json)
    requires v.JObject? && "steps" !in v.fields
    ensures HandleModelResponse(Some(v)) == Raise(FormatMessage)
  {
  }

  /** An accepted reply with extra members anywhere is passed on with them:
      the handler returns the decoded value, not its typed projection. */
  lemma ExtraMembersPassThrough(a: Json, b: Json)
    requires Extends(a, b) && ValidateHVACScenario(a)
    ensures HandleModelResponse(Some(b)) == Respond(b)
  {
    ScenarioExtension(a, b);
  }

  /** An empty query is rejected before it is processed, although
      `processQuery` would have turned it into `?`. */
  lemma EmptyQueryRejected(template: string)
    ensures PreparePrompt(template, Some(JString(""))) == Failure(InvalidQueryMessage)
    ensures PreparePrompt(template, None) == Failure(InvalidQueryMessage)
    ensures PreparePrompt(template, Some(JNumber(7))) == Failure(InvalidQueryMessage)
  {
  }
}
