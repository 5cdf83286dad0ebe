# Recommendation engine: verified model of the LLM output reconcilers

This project is a Dafny model of the response-reconciliation core of
the recommendation engine. The engine is an HTTP service with two endpoints.
One turns a vague objective into refined "defining objectives". The other
turns a domain description into chatbot test cases. Each endpoint calls a
hosted model on Bedrock and must turn the untrusted text that comes back into a
response that matches its schema and its request. The model covers:

- the objective validator and shaper (`_validate_and_shape_output` and its
  identical copy `validate_and_shape_output`), and the two
  `recommend_objective` pipelines around one model call. The two pipelines
  differ in how they treat whitespace-only model text;
- the test-generation reconciler (`_validate_min_counts`,
  `_invoke_bedrock_text`, `_parse_or_repair_json`, `generate_test_cases`, and
  their copies in `rec_test_generation.py`). It generates, rejects empty
  text, parses, repairs at most once through the model, requires enough
  test cases, then overwrites `domain` and `language` with the request's
  values;
- the Pydantic request and response schemas. They become datatypes with
  `Valid()` predicates, default constants, and decoders from JSON that stand
  for the responses' `model_validate`.

Modules:

| file | module | contents |
|---|---|---|
| wrappers.dfy | Wrappers | `Option`, `Result` (with `:-`), `Outcome` |
| errors.dfy | Errors | one constructor per `ValueError` the reconcilers raise, plus client failure, parse failure and schema rejection |
| py_text.dfy | PyText | Python's `str.isspace()` character set and `str.strip()` |
| json.dfy | JsonValues | JSON values (objects are ordered key/value lists, as Python dicts are), `dict.get`, item assignment, list-of-str decoding, Python slicing |
| client.dfy | Bedrock | the model client as an oracle class: canned replies, one per call, and a log of every request |
| models_recommendation.dfy | RecommendationModels | `SimpleContext`, `SimpleObjectiveRequest`, `SimpleRecommendResponse` |
| models_test_generation.dfy | TestGenerationModels | `TestGenContext`, `TestGenerationRequest`, `GeneratedTestCase`, `TestGenerationResponse` |
| recommendation.dfy | Recommendation | the validator and shaper, and the `recommendation.py` pipeline |
| rec_objective.dfy | RecObjective | the `rec_objective.py` pipeline and how it differs from the other one |
| test_generation.dfy | TestGeneration | the test-generation reconciler, shared by both copies |

The reconcilers are modelled in the form of the code. The validators are
pure functions over JSON values. Each pipeline is a `method` that calls
the client object, whose call log it extends. Each method is proved
equal to a specification function of the replies the client gives. The
properties are proved about those functions. The JSON parser
(`safe_json_loads`) is a function parameter `parse: string -> Option<Json>`,
where `None` means the parser raised. The text extractor
(`extract_text_from_anthropic_bedrock`) is folded into the client's reply:
`Answered(Some(t))`, `Answered(None)`, or `Failed` when `invoke_model` raised.
The request's serialised form (`json.dumps(req.model_dump(), ...)`) is the
parameter `requestText`.

The schema predicates are not table rows, because they carry no contract of
their own. `SimpleObjectiveRequest.Valid` requires a non-empty `objective`
and `1 <= numRecommendations <= 5` (src/models/recommendation.py:21-33).
`TestGenContext.Valid` requires a non-empty description, a language of 2 to
16 characters and `1 <= number_of_intents <= 10`
(src/models/test_generation.py:15-17). `TestGenerationRequest.Valid` adds a
non-empty domain (src/models/test_generation.py:22).
`RecommendationModels.AnswersRecommendation` and
`TestGenerationModels.AnswersTestGeneration` say what a response must be
for the request it answers.

## Model

| member | source | states |
|---|---|---|
| Bedrock.ModelClient.InvokeModel | src/inference/recommendation.py:102-104 | each call to `invoke_model` is logged with its model id, prompt, user text and token budget, and gets the next reply of the oracle |
| PyText.Strip | src/inference/test_generation.py:100 | the result of `strip()` is empty exactly when the input is all whitespace, and otherwise starts and ends with a non-whitespace character |
| PyText.StripShape | src/inference/test_generation.py:100 | `strip()` drops leading and trailing whitespace only: the input is whitespace, then the result, then whitespace |
| PyText.StripIdempotent | src/inference/recommendation.py:55 | a stripped string is its own strip |
| JsonValues.Get | src/inference/recommendation.py:46 | `dict.get(key)` finds a value exactly when the key is present |
| JsonValues.GetAt | src/inference/recommendation.py:46 | `dict.get` of a key at its first position returns the value stored there |
| JsonValues.Put | src/inference/test_generation.py:152-153 | `d[key] = value` makes `get(key)` return the value, leaves every other key's value and position alone, and adds the key when it was absent |
| JsonValues.StringsOf | src/models/recommendation.py:41 | a `list[str]` field validates exactly when every element is a str, and then keeps every element in order |
| JsonValues.StringsOfStrArray | src/models/recommendation.py:41 | a list of strs serialised to JSON validates back to the same list |
| JsonValues.PyPrefix | src/inference/recommendation.py:55 | the slice `s[:n]` is a prefix of `s`, of length `n` when `0 <= n <= len(s)`, with Python's meaning for negative `n` |
| JsonValues.RequiredStr | src/models/test_generation.py:31-32 | a required `str` field validates exactly when it is present and a str |
| JsonValues.OptionalStr | src/models/recommendation.py:37-40 | a `str \| None = None` field is None when absent or null, the string when it is a str, and invalid otherwise |
| RecommendationModels.RequestWithDefaults | src/models/recommendation.py:17-33 | a request giving only `objective` has no context, `includeReason` true and `numRecommendations` 3, and is valid exactly when the objective is non-empty |
| RecommendationModels.RecommendResponseFromJson | src/models/recommendation.py:36-41 | `SimpleRecommendResponse.model_validate` succeeds exactly on an object whose `definingObjectives` is a list of strs and whose `reason` is absent, null or a str, and returns those values |
| TestGenerationModels.ContextWithDefaults | src/models/test_generation.py:6-18 | a context giving only `description` has language "en", 3 intents and no variables, and is valid exactly when the description is non-empty |
| TestGenerationModels.DictOrEmpty | src/models/test_generation.py:34 | a `dict` field with `default_factory=dict` is the empty dict when absent, the object when it is one, and invalid otherwise |
| TestGenerationModels.StrListOrEmpty | src/models/test_generation.py:35-36 | a `list[str]` field with `default_factory=list` is empty when absent; a present value is accepted exactly when it is a list whose every element is a str, and then is that list |
| TestGenerationModels.TestCaseFromJson | src/models/test_generation.py:26-36 | a test case validates only from an object whose `name` and `description` are strs, and takes those values |
| TestGenerationModels.TestCaseDefaults | src/models/test_generation.py:31-36 | an object giving only `name` and `description` validates, with no persona and empty variables, steps and expectations |
| TestGenerationModels.TestCaseRoundTrip | src/models/test_generation.py:26-36 | serialising any test case and validating it again gives the same test case |
| TestGenerationModels.TestCaseRequiredFields | src/models/test_generation.py:31-33 | a serialised test case holds its `name`, `description` and `persona` (null when absent) under those keys |
| TestGenerationModels.TestCaseDefaultedFields | src/models/test_generation.py:34-36 | a serialised test case's `userVariables`, `steps` and `expected` read back unchanged |
| TestGenerationModels.TestCasesFromJson | src/models/test_generation.py:42 | a list of test cases validates exactly when every element does, keeps their order and length, and one malformed element rejects the whole list |
| TestGenerationModels.TestGenResponseFromJson | src/models/test_generation.py:39-42 | `TestGenerationResponse.model_validate` succeeds only on an object whose `domain` and `language` are strs and whose `testCases` list validates, and takes those values |
| Recommendation.TrimmedPrefix | src/inference/recommendation.py:55 | `[x.strip() for x in items[:n]]` has exactly `n` elements when `0 <= n <= len(items)`, and element i is item i trimmed |
| Recommendation.TrimmedPrefixClean | src/inference/recommendation.py:47-55 | objectives checked non-blank come out of the trim non-blank and trimmed |
| Recommendation.TrimmedPrefixOfClean | src/inference/recommendation.py:55 | trimming already-trimmed objectives, keeping all of them, changes nothing |
| Recommendation.ShapedDict | src/inference/recommendation.py:57-63 | the output dict holds `definingObjectives`, holds `reason` exactly when a reason is given, and holds no other key |
| Recommendation.ValidateAndShapeOutput | src/inference/recommendation.py:37-66 | a non-object fails; a missing or non-list `definingObjectives`, or any non-str or blank entry in it (also past the cut), fails; fewer entries than requested fails with the count; a missing, non-str or blank `reason` fails when it is asked for; it succeeds exactly when none of these holds, and then returns a fresh object of the first `numRecommendations` entries trimmed, plus the trimmed reason only when it is asked for (the copy at src/inference/rec_objective.py:11-33 has the same branches) |
| Recommendation.ShapedDictDecodes | src/inference/recommendation.py:110-116 | every shaped dict passes `SimpleRecommendResponse.model_validate`, which returns exactly its objectives and reason |
| Recommendation.ShapedDictAnswers | src/inference/recommendation.py:57-66 | a shaped dict of the requested number of clean objectives, with a clean reason exactly when one is asked for, validates into a response that answers the request |
| Recommendation.ShapedOutputAnswers | src/inference/recommendation.py:110-116 | for a valid request, a successful shape always validates into a response with exactly `numRecommendations` non-blank trimmed objectives taken in order from the model's list, and a non-blank trimmed reason exactly when `includeReason` holds |
| Recommendation.ShapedObjectivesWellFormed | src/inference/recommendation.py:46-48 | the objectives of a shaped dict of clean objectives pass the objective check again |
| Recommendation.ShapedReasonWellFormed | src/inference/recommendation.py:60-63 | the reason of a shaped dict with a clean reason passes the reason check again and is unchanged by the trim |
| Recommendation.ShapedDictReshapes | src/inference/recommendation.py:37-66 | a shaped dict of the requested number of clean objectives, with a clean reason exactly when one is asked for, passes the shaper unchanged |
| Recommendation.ShapeIdempotent | src/inference/recommendation.py:37-66 | shaping an already shaped output with the same arguments returns it unchanged |
| Recommendation.ReconcileText | src/inference/recommendation.py:108-116 | text the parser rejects fails with a parse error; parsed text succeeds exactly when the shaper accepts it, and otherwise fails with the shaper's own error; a success answers the request and carries the trimmed prefix of the model's list and, when asked for, the model's trimmed reason |
| Recommendation.RecommendFromReply | src/inference/recommendation.py:102-116 | a failed call propagates; absent or empty text fails before parsing; any other text gives exactly what `ReconcileText` makes of it, so it succeeds whenever it parses into output the shaper accepts; a success answers the request |
| Recommendation.RecommendObjective | src/inference/recommendation.py:69-116 | exactly one call, with the simple-objective prompt, the serialised request and 768 tokens; the result is `RecommendFromReply` of the reply that call got |
| RecObjective.RecommendFromReply | src/inference/rec_objective.py:57-69 | a failed call propagates; absent, empty or whitespace-only text fails before parsing; any other text gives exactly what `Recommendation.ReconcileText` makes of it; a success answers the request |
| RecObjective.TextGuardsDiffer | src/inference/rec_objective.py:58-60 | the two pipelines give the same result on every reply except non-empty whitespace-only text, which this one rejects and `recommendation.py` hands to the parser |
| RecObjective.RecommendObjective | src/inference/rec_objective.py:36-69 | exactly one call, with the objective prompt, the serialised request and 768 tokens; the result is `RecObjective.RecommendFromReply` of the reply that call got |
| TestGeneration.ValidateMinCounts | src/inference/test_generation.py:82-87 | passes exactly when `testCases` is a non-empty list of at least `min_cases` entries; a missing, non-list or empty value fails with one error, a short list with the other, which gives the count (the copy at src/inference/rec_test_generation.py:11-16 has the same branches) |
| TestGeneration.ReplyText | src/inference/test_generation.py:98-100 | a failed call is an upstream error, and any answer gives text |
| TestGeneration.ReplyTextTrimmed | src/inference/test_generation.py:99-100 | the text handed on is the extractor's text with whitespace stripped from both ends, or the empty text when there was none; it is trimmed, and is empty exactly when there was no text or only whitespace |
| TestGeneration.InvokeBedrockText | src/inference/test_generation.py:90-100 | exactly one call with the given prompt, user text and token budget; the result is `ReplyText` of that call's reply |
| TestGeneration.ParseOrRepair | src/inference/test_generation.py:103-123 | a first parse that succeeds is returned unchanged; otherwise a failed repair call propagates, empty repair text fails, a second parse that succeeds is returned, and a failing second parse fails with no further attempt |
| TestGeneration.ParseOrRepairJson | src/inference/test_generation.py:103-123 | no call when the text parses, else exactly one repair call with the repair prompt, the unparsable text and 1400 tokens; the result is `ParseOrRepair` of that call's reply (the copy at src/inference/rec_test_generation.py:32-45 is the same) |
| TestGeneration.RepairCalls | src/inference/test_generation.py:111-120 | no call when the text parses; otherwise exactly one call, with the repair prompt, the unparsable text and 1400 tokens |
| TestGeneration.Requests | src/inference/test_generation.py:135-145 | the client is called once or twice: first the generation call with the copy's generation prompt and 1100 tokens, then a repair call exactly when the generated text is non-empty and does not parse |
| TestGeneration.ModelOutput | src/inference/test_generation.py:135-145 | a failed generation call propagates and empty generated text fails before parsing; any other text is what `ParseOrRepair` makes of it, with the second reply answering the repair call |
| TestGeneration.EnforceTruth | src/inference/test_generation.py:151-153 | after the two assignments `domain` and `language` hold the request's values whatever the model wrote, and every other key, `testCases` among them, is untouched |
| TestGeneration.ReconcileParsed | src/inference/test_generation.py:146-155 | a non-object fails; a failed count check gives its error; otherwise the result is exactly `TestGenerationResponse.model_validate` of the dict after truth enforcement, so a malformed test case gives the schema error; a success answers the request and its test cases are exactly those in the parsed value |
| TestGeneration.GenerateFromReplies | src/inference/test_generation.py:126-155 | a failed generation call propagates; empty generated text fails; any error of the parse-or-repair step (failed repair call, empty repair text, second parse failure) is the result unchanged; otherwise the result is exactly `ReconcileParsed` of the parsed value, so its errors propagate as they are; a success has the request's domain and language, at least `number_of_intents` and at least one test case, and its test cases are exactly those the model produced |
| TestGeneration.GenerateTestCases | src/inference/test_generation.py:126-155 | the calls made are exactly `Requests` of the first reply, and the result is `GenerateFromReplies` of the replies those calls got. The copy at src/inference/rec_test_generation.py:48-76 runs the same code but sends the stricter generation prompt it imports from docs/descriptions.py:203; the `PromptSource` argument picks the prompt (`InlinePrompts` or `SharedPrompts`) |
| TestGeneration.GenerateSucceedsIff | src/inference/test_generation.py:145-155 | generation succeeds exactly when the (possibly repaired) output is an object whose `testCases` is a list of at least one and at least `number_of_intents` well-formed test cases; what the model wrote for domain and language plays no part |
| TestGeneration.ReconcileSucceedsIff | src/inference/test_generation.py:146-155 | the parsed value is accepted exactly when it is an object whose `testCases` is a list of at least one and at least `number_of_intents` well-formed test cases |
| TestGeneration.EnforcedDecodes | src/inference/test_generation.py:151-155 | after the overwrite the response validates exactly when the test cases do, and then has the request's domain and language and exactly those test cases |
| TestGeneration.ParsedTextNeedsNoRepair | src/inference/test_generation.py:111-112 | when the generated text parses, only one call is made and the repair reply plays no part in the result |
| TestGeneration.EmptyGenerationStops | src/inference/test_generation.py:135-143 | empty generated text fails as empty after the one generation call |
| TestGeneration.BlankReplyIsEmptyText | src/inference/test_generation.py:99-100 | an answer with no text or only whitespace becomes the empty text |
| TestGeneration.BlankGenerationNotRepaired | src/inference/test_generation.py:135-143 | a generation answer with no text or only whitespace fails as empty after one call, before any parse or repair |
| TestGeneration.FailedRepairPropagates | src/inference/test_generation.py:113-120 | unparsable generated text leads to exactly two calls, the second a repair of that text, and a failed repair call is the result |
| TestGeneration.RepairedOutputAccepted | src/inference/test_generation.py:113-155 | after two calls, a repaired object with enough well-formed test cases yields exactly those test cases under the request's own domain and language, whatever domain the model named |

## Left out

- Bedrock transport and request bodies: `anthropic_version`, `temperature` and the message envelope are fixed constants that are not modelled. The prompt texts are the `SystemPrompt` constructors, one per distinct text: the two copies of the test-generation reconciler send different generation prompts (`TestGenerationPrompt`, `SharedTestGenerationPrompt`) and the same repair prompt. The serialised request is the `requestText` parameter.
- `safe_json_loads` and `extract_text_from_anthropic_bedrock` live in src/inference/utilities.py, which is not part of this model. The parser is the `parse` parameter and the extractor's result is the client's reply. No property of their internals is stated.
- JSON numbers are integers only. Floats play no part in any branch of the reconcilers.
- Parsed objects are assumed to have distinct keys, as a Python dict does. `Get` takes a key's first occurrence.
- Request validation and coercion by Pydantic (`model_validate(payload)` on a dict, `model_dump`) are not modelled. Requests are typed values, and the recommendation pipelines require `Valid()`, which Pydantic guarantees before they run.
- Exception messages are not modelled as text. Each `ValueError` is an `Error` constructor that carries the counts its message reports.
- In-place update: `generate_test_cases` assigns `parsed["domain"]` and `parsed["language"]` in place. The method reassigns a local value instead. The dict is fresh from the parser, so nothing else can observe the difference.
- None of the modelled files extracts JSON from surrounding plain text, normalises smart quotes or strips trailing commas. Text the parser rejects is an error, or in test generation goes to the one repair call, and the model does the same.
- `SimpleContext` (src/models/recommendation.py:6-14) has five optional fields and no free-form variable mapping, and the model has the same five.
- The web layer (src/main.py: routing, API-key check, config, the mapping of every error to HTTP 502) and the text of the prompt and documentation strings in docs/descriptions.py (only which prompt each call sends is modelled) are not part of this model.
- TestGeneration.ReplyText: its own contract states only the error case. What the text is (the stripped reply text, trimmed, empty exactly when blank) is stated by `TestGeneration.ReplyTextTrimmed`, which keeps the whitespace reasoning out of every caller's proof.
- TestGenerationModels.TestCaseFromJson: its contract names only the required fields. The optional fields are covered by the round trip in `TestGenerationModels.TestCaseRoundTrip`, by the defaults in `TestGenerationModels.TestCaseDefaults`, and by the contracts of the field readers (`DictOrEmpty`, `StrListOrEmpty`, `JsonValues.OptionalStr`), each of which states both when it accepts and what it gives.
