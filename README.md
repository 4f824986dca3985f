# HVAC troubleshooting scenarios: query handling, reply validation, step parsing

This project is a Dafny model of the pure logic in two parts of an HVAC training
application. The application asks a language model for a troubleshooting
scenario, then checks the model's reply before a learner sees it.

- `src/routes/api/text_response/+server.ts` holds the endpoint that builds the
  scenario. The model covers four parts of it:
  - the type guards (`isValidSeverity`, `validateIncorrectOption`,
    `validateStep`, `validateRecommendedScenario`, `validateHVACScenario`);
  - `processQuery`, which sanitises the learner's query;
  - the replacement of `{QUERY}` in the system prompt;
  - the decision the `POST` handler takes on a reply: decode it, validate it,
    then answer or raise.
- `src/lib/utils/parseSteps.ts` turns a numbered list written as plain text
  into its entries.

The modules are:

- `JsonValue` (`json.dfy`): JSON values as `JSON.parse` returns them, and the
  JavaScript property access the guards use. Arrays are objects to `typeof`,
  but they carry none of the named members.
- `ScenarioValidator` (`validator.dfy`): the guards as predicates, and lemmas
  on what they accept.
- `ScenarioSchema` (`schema.dfy`): the TypeScript interfaces as datatypes, and
  their JSON encoding. It also holds the decoders that give each guard its
  meaning: a guard accepts a value exactly when the value decodes to a typed
  one.
- `JsText` (`js_text.dfy`): the regular-expression classes `\s`, `\w` and `\d`
  without the `u` flag, and `String.prototype.trim`.
- `QueryNormalizer` (`query.dfy`): `processQuery` and the placement of the
  query in the prompt.
- `ResponseHandler` (`response.dfy`): the query check, and the decision on the
  model's reply.
- `StepList` (`parse_steps.dfy`): `parseSteps`.
- `Wrappers` and `SeqFacts`: `Option`/`Result`, and small facts about
  sequences.

`validateStep` accepts `correct_next: null` (line 64), although the `Step`
interface declares a plain number (line 15). The model follows the guard: the
typed `Step` holds an `Option<int>`. The guard also demands exactly two
`recommended_scenarios` (line 99). No variant of the schema without that field
is modelled, because the code has none.

## Model

| member | source | states |
|---|---|---|
| JsonValue.Field | src/routes/api/text_response/+server.ts:39-48 | for the member names the guards read, a property access yields a value exactly when the value is an object holding that member, and it yields that member's value; on arrays and scalars those names yield `undefined` (other names such as `length` are never read) |
| ScenarioValidator.IsValidSeverity | src/routes/api/text_response/+server.ts:34-36 | `isValidSeverity`; its meaning is fixed by ScenarioSchema.DecodeSeverity (accepted exactly when it decodes to one of the three severities) and SeverityDecidesOption |
| ScenarioValidator.ValidateIncorrectOption | src/routes/api/text_response/+server.ts:38-50 | `validateIncorrectOption`; ScenarioSchema.DecodeOption and OptionRoundTrip make it accept exactly the encodings of typed options, with any extra members (OptionExtension) |
| ScenarioValidator.ValidateStep | src/routes/api/text_response/+server.ts:52-69 | `validateStep`; ScenarioSchema.DecodeStep, StepRoundTrip and StepExtension tie it to the typed `Step`, CorrectNextAlternatives and InvalidOptionRejectsStep state its branches |
| ScenarioValidator.ValidateRecommendedScenario | src/routes/api/text_response/+server.ts:72-80 | `validateRecommendedScenario`; ScenarioSchema.DecodeRecommendation and RecommendationsRoundTrip tie it to the typed recommendation |
| ScenarioValidator.ValidateHVACScenario | src/routes/api/text_response/+server.ts:83-104 | `validateHVACScenario`; ScenarioSchema.DecodeScenario, ScenarioRoundTrip, DecodeLosesNoField and ScenarioExtension tie it to the typed scenario in both directions; ArraysRejected, InvalidStepRejectsScenario, UnknownMembersIgnored and RecommendationsExactlyTwo state its branches |
| ScenarioValidator.ArraysRejected | src/routes/api/text_response/+server.ts:38-104 | although `typeof` calls an array an object, none of the four guards accepts an array |
| ScenarioValidator.SeverityDecidesOption | src/routes/api/text_response/+server.ts:34-49 | when `choice` and `feedback` are strings, an option is accepted exactly when its severity is `"low"`, `"medium"` or `"high"` |
| ScenarioValidator.CorrectNextAlternatives | src/routes/api/text_response/+server.ts:59-64 | `correct_next` set to `null` or to any number gives the same verdict; any other value, or a missing member, rejects the step |
| ScenarioValidator.InvalidOptionRejectsStep | src/routes/api/text_response/+server.ts:66-67 | one invalid incorrect option rejects its step |
| ScenarioValidator.InvalidStepRejectsScenario | src/routes/api/text_response/+server.ts:95-97 | one invalid step rejects the whole scenario, whatever the other steps are |
| ScenarioValidator.InvalidOptionRejectsScenario | src/routes/api/text_response/+server.ts:97 | one invalid option in any step rejects the whole scenario |
| ScenarioValidator.StepVerdictIsLocal | src/routes/api/text_response/+server.ts:97 | replacing a step by another with the same verdict leaves the scenario's verdict unchanged |
| ScenarioValidator.UnknownMembersIgnored | src/routes/api/text_response/+server.ts:38-104 | at each of the four object levels, adding or changing a member the guard does not read never changes its verdict |
| ScenarioValidator.RecommendationsExactlyTwo | src/routes/api/text_response/+server.ts:96-99 | an accepted scenario has exactly two recommendations, each an object with a string `title` |
| ScenarioSchema.DecodeSeverity | src/routes/api/text_response/+server.ts:34-36 | a value decodes to a severity exactly when `isValidSeverity` accepts it, and the severity encodes back to that value |
| ScenarioSchema.DecodeOption | src/routes/api/text_response/+server.ts:38-50 | a value decodes to an `IncorrectOption` exactly when `validateIncorrectOption` accepts it |
| ScenarioSchema.DecodeOptions | src/routes/api/text_response/+server.ts:66-67 | an array decodes exactly when every element passes `validateIncorrectOption`; the result has one option per element, and each is that element's decoding |
| ScenarioSchema.DecodeStep | src/routes/api/text_response/+server.ts:52-69 | a value decodes to a `Step` exactly when `validateStep` accepts it |
| ScenarioSchema.DecodeSteps | src/routes/api/text_response/+server.ts:95-97 | an array decodes exactly when every element passes `validateStep`, element by element |
| ScenarioSchema.DecodeRecommendation | src/routes/api/text_response/+server.ts:72-80 | a value decodes to a `RecommendedScenario` exactly when `validateRecommendedScenario` accepts it |
| ScenarioSchema.DecodeRecommendations | src/routes/api/text_response/+server.ts:96-98 | an array decodes exactly when every element passes `validateRecommendedScenario`, element by element |
| ScenarioSchema.DecodeScenario | src/routes/api/text_response/+server.ts:83-104 | a value decodes to an `HVACScenario` exactly when `validateHVACScenario` accepts it, and the result has two recommendations |
| ScenarioSchema.SeverityRoundTrip | src/routes/api/text_response/+server.ts:9 | each of the three severities decodes back from its encoding |
| ScenarioSchema.OptionRoundTrip | src/routes/api/text_response/+server.ts:6-10 | every typed incorrect option decodes back from its encoding |
| ScenarioSchema.OptionsRoundTrip | src/routes/api/text_response/+server.ts:17 | every list of incorrect options decodes back from its encoding |
| ScenarioSchema.StepRoundTrip | src/routes/api/text_response/+server.ts:12-18 | every typed step, with `correct_next` a number or `null`, decodes back from its encoding |
| ScenarioSchema.StepsRoundTrip | src/routes/api/text_response/+server.ts:29 | every list of steps decodes back from its encoding |
| ScenarioSchema.RecommendationsRoundTrip | src/routes/api/text_response/+server.ts:30 | every list of recommendations decodes back from its encoding |
| ScenarioSchema.ScenarioRoundTrip | src/routes/api/text_response/+server.ts:26-31 | a typed scenario with two recommendations decodes back from its encoding; the guard accepts the encoding exactly when there are two |
| ScenarioSchema.OptionsEncodingExtends | src/routes/api/text_response/+server.ts:66-67 | re-encoding decoded incorrect options gives an array that the original extends |
| ScenarioSchema.StepEncodingExtends | src/routes/api/text_response/+server.ts:52-69 | re-encoding a decoded step loses nothing the original holds under the schema's names |
| ScenarioSchema.StepsEncodingExtends | src/routes/api/text_response/+server.ts:95-97 | the same for an array of steps |
| ScenarioSchema.RecommendationsEncodingExtends | src/routes/api/text_response/+server.ts:96-98 | the same for an array of recommendations |
| ScenarioSchema.ScenarioEncodingExtends | src/routes/api/text_response/+server.ts:83-104 | the value an accepted scenario was decoded from extends the typed scenario's encoding |
| ScenarioSchema.DecodeLosesNoField | src/routes/api/text_response/+server.ts:83-104 | every member named by the schema is present, with the same content, in an accepted value |
| ScenarioSchema.OptionExtension | src/routes/api/text_response/+server.ts:38-50 | adding members to a valid option leaves its decoding unchanged |
| ScenarioSchema.OptionsExtension | src/routes/api/text_response/+server.ts:66-67 | the same for an array of options |
| ScenarioSchema.StepExtension | src/routes/api/text_response/+server.ts:52-69 | adding members at any depth to a valid step leaves its decoding unchanged |
| ScenarioSchema.StepsExtension | src/routes/api/text_response/+server.ts:95-97 | the same for an array of steps |
| ScenarioSchema.RecommendationsExtension | src/routes/api/text_response/+server.ts:96-98 | the same for an array of recommendations |
| ScenarioSchema.ScenarioExtension | src/routes/api/text_response/+server.ts:83-104 | adding members at any depth to an accepted value keeps it accepted, with the same typed scenario |
| ScenarioSchema.AcceptsDegenerateScenarios | src/routes/api/text_response/+server.ts:83-104 | the guard checks types only: empty strings, no steps, repeated ids and a `correct_next` naming no step all pass |
| JsText.TrimStart | src/routes/api/text_response/+server.ts:109 | the result is the suffix of the input that starts at its first non-whitespace character; everything before it is whitespace |
| JsText.TrimEnd | src/routes/api/text_response/+server.ts:109 | the result is the prefix of the input that ends at its last non-whitespace character; everything after it is whitespace |
| JsText.Trim | src/routes/api/text_response/+server.ts:109 | `trim` keeps a prefix of the left-trimmed input, cuts only whitespace, and leaves no whitespace at either end |
| JsText.TrimDecomposition | src/routes/api/text_response/+server.ts:109 | the input is its leading whitespace, then the result of `trim`, then its trailing whitespace |
| JsText.TrimKeepsCharacters | src/routes/api/text_response/+server.ts:109 | every character `trim` returns occurs in its input |
| JsText.TrimUnique | src/routes/api/text_response/+server.ts:109 | a string with no whitespace at its ends, surrounded by any whitespace, is exactly what `trim` returns |
| JsText.TrimTrimmed | src/routes/api/text_response/+server.ts:109 | `trim` leaves a string with no whitespace at its ends unchanged |
| JsText.TrimIdempotent | src/routes/api/text_response/+server.ts:109 | `trim` is idempotent |
| JsText.TrimAppendSpace | src/lib/utils/parseSteps.ts:5-7 | whitespace appended to a line, such as a `\r`, does not change what `trim` returns |
| QueryNormalizer.ProcessQuery | src/routes/api/text_response/+server.ts:107-115 | `processQuery`; its output form is ProcessQueryIsCanonical, its fixed points are FixedPoints (an if-and-only-if), and ProcessQueryIdempotent, DisallowedIgnored, NothingLeftGivesQuestionMark and QuestionMarkAppended fix what it does to each input |
| QueryNormalizer.Sanitize | src/routes/api/text_response/+server.ts:109 | the result is no longer than the query and holds only allowed characters |
| QueryNormalizer.SanitizeConcat | src/routes/api/text_response/+server.ts:109 | with the `g` flag, every character is judged on its own: sanitising a concatenation concatenates the results |
| QueryNormalizer.SanitizeKeepsAllowed | src/routes/api/text_response/+server.ts:109 | a query made only of allowed characters is kept whole |
| QueryNormalizer.SanitizeDropsDisallowed | src/routes/api/text_response/+server.ts:109 | a query made only of disallowed characters is deleted entirely |
| QueryNormalizer.DisallowedIgnored | src/routes/api/text_response/+server.ts:109 | disallowed characters change nothing, wherever they stand in the query |
| QueryNormalizer.ProcessQueryIsCanonical | src/routes/api/text_response/+server.ts:107-115 | every processed query is nonempty, ends in `?`, holds only allowed characters and does not start with whitespace |
| QueryNormalizer.FixedPoints | src/routes/api/text_response/+server.ts:107-115 | `processQuery` leaves a query unchanged exactly when the query already has that canonical form |
| QueryNormalizer.ProcessQueryIdempotent | src/routes/api/text_response/+server.ts:107-115 | processing a processed query changes nothing |
| QueryNormalizer.NothingLeftGivesQuestionMark | src/routes/api/text_response/+server.ts:109-112 | a query of only whitespace and disallowed characters, the empty one included, becomes `?` |
| QueryNormalizer.QuestionMarkAppended | src/routes/api/text_response/+server.ts:112 | a clean, trimmed query that does not end in `?` only gains a final `?` |
| QueryNormalizer.NoDollar | src/routes/api/text_response/+server.ts:179 | a processed query holds no `$`; CustomizePrompt uses this to meet ReplaceFirst's requirement, so `replace` inserts the query literally |
| QueryNormalizer.ExampleAlreadyQuestion | src/routes/api/text_response/+server.ts:112 | `already a question?` is returned unchanged |
| QueryNormalizer.ExampleNoPunctuation | src/routes/api/text_response/+server.ts:112 | `no punctuation` becomes `no punctuation?` |
| QueryNormalizer.ExampleWeirdChars | src/routes/api/text_response/+server.ts:109-112 | `weird@#chars!!` becomes `weirdchars!!?` |
| QueryNormalizer.ReplaceFirst | src/routes/api/text_response/+server.ts:179 | `String.prototype.replace` with a string pattern and a replacement free of `$`, which it requires; ReplaceFirstPlaceholder states that only the first occurrence is replaced |
| QueryNormalizer.CustomizePrompt | src/routes/api/text_response/+server.ts:178-179 | the prompt built from the template and the query; it meets ReplaceFirst's `$`-free requirement through NoDollar, and CustomizePromptSplits and CustomizePromptWithoutPlaceholder state the result |
| QueryNormalizer.IndexOf | src/routes/api/text_response/+server.ts:179 | the result is the first position at or after `from` where the pattern occurs, or -1 when there is none |
| QueryNormalizer.ReplaceFirstPlaceholder | src/routes/api/text_response/+server.ts:179 | `replace` with a string pattern and a `$`-free replacement replaces only the first `{QUERY}`; later ones stay |
| QueryNormalizer.CustomizePromptSplits | src/routes/api/text_response/+server.ts:178-179 | the quoted processed query takes the place of the first `{QUERY}`, and the rest of the prompt is unchanged |
| QueryNormalizer.CustomizePromptWithoutPlaceholder | src/routes/api/text_response/+server.ts:179 | a prompt with no `{QUERY}` is sent unchanged |
| ResponseHandler.PreparePrompt | src/routes/api/text_response/+server.ts:171-179 | a prompt is built exactly when `query` is a nonempty string; otherwise the error is `Invalid query provided` |
| ResponseHandler.Decide | src/routes/api/text_response/+server.ts:206-220 | the decision on the parsed reply with the guard as a parameter; DecodeFailureSkipsValidation and the contract of HandleModelResponse state its three outcomes |
| ResponseHandler.HandleModelResponse | src/routes/api/text_response/+server.ts:206-220 | unparseable text raises the JSON error; a parsed value the guard rejects raises the format error; only an accepted value is returned, unchanged, and it decodes to a typed scenario |
| ResponseHandler.DecodeFailureSkipsValidation | src/routes/api/text_response/+server.ts:207-212 | a reply that fails `JSON.parse` never reaches the guard |
| ResponseHandler.MissingStepsIsFormatError | src/routes/api/text_response/+server.ts:215-218 | valid JSON without `steps` raises the format error |
| ResponseHandler.ExtraMembersPassThrough | src/routes/api/text_response/+server.ts:215-220 | a reply that extends an accepted value is returned as it is, extra members included |
| ResponseHandler.EmptyQueryRejected | src/routes/api/text_response/+server.ts:174-176 | the empty string, a missing query and a number are rejected before `processQuery` runs |
| StepList.SplitLines | src/lib/utils/parseSteps.ts:5 | `split(/\r?\n/)`; there is always at least one line, and FirstNewline, LinesHaveNoNewline and SplitLinesConcat fix the lines |
| StepList.FirstNewline | src/lib/utils/parseSteps.ts:5 | the result is the position of the first `\n`, or the length of the text when there is none |
| StepList.LinesHaveNoNewline | src/lib/utils/parseSteps.ts:5 | no line that `split` returns holds a `\n` |
| StepList.SplitLinesConcat | src/lib/utils/parseSteps.ts:5 | the lines of `a + "\n" + b` are the lines of `a`, with one final `\r` dropped from its last line, followed by the lines of `b` |
| StepList.TrimAll | src/lib/utils/parseSteps.ts:7 | `.map(trim)` as a definition: one result per line, in order, each the `Trim` of its line; what trimming does is proved about JsText.Trim (TrimUnique, TrimDecomposition) |
| StepList.TrimAllConcat | src/lib/utils/parseSteps.ts:7 | trimming works line by line over concatenated lists |
| StepList.IsNumbered | src/lib/utils/parseSteps.ts:9 | the filter's test; NumberedIffMarker proves it equal to a match of `/^\d+\./` on a nonempty line, and MarkerOf gives the lines it accepts |
| StepList.DigitRun | src/lib/utils/parseSteps.ts:9 | the result is the length of the longest prefix made of ASCII digits |
| StepList.NumberedIffMarker | src/lib/utils/parseSteps.ts:9 | `/^\d+\./` matches exactly when the run of leading digits is nonempty and followed by a period; the match is unique |
| StepList.KeepNumbered | src/lib/utils/parseSteps.ts:9 | the kept lines are numbered lines of the input, and there are no more of them than input lines |
| StepList.KeepNumberedConcat | src/lib/utils/parseSteps.ts:9 | the filter keeps the lines' order over concatenated lists |
| StepList.StripMarker | src/lib/utils/parseSteps.ts:11 | `replace(/^\d+\.\s*/, '')` on a numbered line; StripMarkerShape and StripMarkerParts fix what it removes and what it keeps |
| StepList.StripMarkerShape | src/lib/utils/parseSteps.ts:11 | `replace(/^\d+\.\s*/, '')` keeps a suffix of the line that does not start with whitespace; between the period and that suffix there is only whitespace |
| StepList.MarkerOf | src/lib/utils/parseSteps.ts:9-11 | digits and a period make a numbered line whatever follows, and the marker ends at that period |
| StepList.StripMarkerParts | src/lib/utils/parseSteps.ts:11 | digits, a period, whitespace and a rest not starting with whitespace: the rest is what remains |
| StepList.Entries | src/lib/utils/parseSteps.ts:7-11 | the chain after the split; EntriesConcat and EntriesSingle characterise it line by line |
| StepList.EntriesConcat | src/lib/utils/parseSteps.ts:7-11 | the chain after `split` treats each line on its own and keeps their order |
| StepList.EntriesSingle | src/lib/utils/parseSteps.ts:7-11 | one line gives one entry, the trimmed line without its marker, exactly when the trimmed line is numbered, and nothing otherwise |
| StepList.DropCrSameEntries | src/lib/utils/parseSteps.ts:5-7 | a line gives the same entries with or without a final `\r` |
| StepList.ParseSteps | src/lib/utils/parseSteps.ts:1-13 | `parseSteps`; ParseStepsConcat and ParseStepsLine characterise it completely, and EntriesAreClean, CrLfSameSteps and ParseStepsBound state its other promises |
| StepList.ParseStepsConcat | src/lib/utils/parseSteps.ts:1-13 | the entries of two texts joined by a newline are the entries of the first followed by those of the second |
| StepList.ParseStepsLine | src/lib/utils/parseSteps.ts:1-13 | a text without a newline gives one entry exactly when, trimmed, it is numbered |
| StepList.ParseStepsBound | src/lib/utils/parseSteps.ts:1-13 | there are never more entries than lines |
| StepList.CrLfSameSteps | src/lib/utils/parseSteps.ts:5 | a text with `\r\n` line endings gives the same entries as with `\n` endings |
| StepList.CrSameSteps | src/lib/utils/parseSteps.ts:5-7 | a line ending in `\r` gives the same entries as without it |
| StepList.ParseStepsNumberedLine | src/lib/utils/parseSteps.ts:1-13 | a line of digits, a period, whitespace and clean text gives exactly that text |
| StepList.ParseStepsCleanLine | src/lib/utils/parseSteps.ts:1-13 | a trimmed numbered line gives exactly its text after the marker |
| StepList.ParseStepsUnnumberedLine | src/lib/utils/parseSteps.ts:9 | a trimmed line that does not start with a digit gives nothing |
| StepList.NumberedListWithInterruption | src/lib/utils/parseSteps.ts:1-13 | `1. a`, `2. b`, an unnumbered line and `3. c` give `[a, b, c]` |
| StepList.HeadlineExample | src/lib/utils/parseSteps.ts:1-13 | `"1. First\n2. Second\nNot numbered\n3. Third"` gives `["First", "Second", "Third"]` |
| StepList.FourLines | src/lib/utils/parseSteps.ts:1-13 | the entries of four joined lines are the entries of each line, in order |
| StepList.EntriesAreClean | src/lib/utils/parseSteps.ts:1-13 | no entry holds a newline or has whitespace at either end |
| StepList.NoNumberedLineNoEntry | src/lib/utils/parseSteps.ts:9 | text in which no trimmed line is numbered gives no entry |
| StepList.EmptyInputNoEntry | src/lib/utils/parseSteps.ts:1-13 | the empty text gives no entry |

## Left out

- The network call to the model's API, the API key, the request headers and body, and the `response.ok` branch (lines 181-203) are not modelled. They are I/O. The model starts from the reply after `JSON.parse`.
- `JSON.parse` is represented by its result: `None` when it throws, otherwise the decoded `Json` value. The parser itself is not modelled.
- ResponseHandler.HandleModelResponse: the HTTP status codes and the error envelope built in the outer `catch` (lines 221-229) are not modelled. The model stops at the raised message. `console.log` and `console.error` are not modelled either.
- ResponseHandler.PreparePrompt: its input is the `query` member itself. Reading the body with `request.json()` (line 170) is not modelled: it throws on a body that is not JSON, and destructuring a `null` body throws a `TypeError` rather than raising `Invalid query provided`.
- The text of the system prompt (lines 118-167) is a parameter of `CustomizePrompt` and `PreparePrompt`. Every property is proved for any template.
- JSON numbers are modelled as integers. The guards only ask whether a value is a number, so the payload never matters, and NaN cannot come out of `JSON.parse`.
- The `try`/`catch` inside `validateHVACScenario` (lines 85-103) is not modelled, because no JSON value from `JSON.parse` has a getter that could throw.
- Strings are sequences of Unicode scalar values, not UTF-16 code units. Characters outside the Basic Multilingual Plane belong to none of `\s`, `\w` and `\d`, so no result here depends on the difference.
- The interfaces' promise that `correct_next` names the `id` of another step is neither checked by the source nor modelled. `AcceptsDegenerateScenarios` records that the guard lets such values through.
- The other files of the repository are not part of this model: the feedback and scenario storage, the API client and the page loaders.
