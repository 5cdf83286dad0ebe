/**
 * The test-generation reconciler of src/inference/test_generation.py:
 * generate, reject empty text, parse, repair once through the model when
 * parsing fails, require enough test cases, then overwrite `domain` and
 * `language` with the request's own values. src/inference/rec_test_generation.py
 * is a second copy of the same code, modelled by the same members; the
 * copies differ only in the generation prompt (PromptSource).
 */
module TestGeneration {
  import opened Wrappers
  import opened JsonValues
  import opened PyText
  import opened Errors
  import opened Bedrock
  import opened TestGenerationModels

  /**
   * Which copy of the reconciler runs. The two copies are the same code and
   * differ only in the generation prompt they send: test_generation.py
   * defines its own, rec_test_generation.py imports the stricter one of
   * docs/descriptions.py. Both send the same repair prompt.
   */
  datatype PromptSource = InlinePrompts | SharedPrompts

  /** The generation prompt each copy sends. */
  function GenerationPrompt(prompts: PromptSource): SystemPrompt {
    match prompts
    case InlinePrompts => TestGenerationPrompt
    case SharedPrompts => SharedTestGenerationPrompt
  }

  /** The list under "testCases", when there is one. */
  function TestCasesGiven(parsed: Fields): Option<seq<Json>> {
    if Get(parsed, "testCases").Some? && Get(parsed, "testCases").value.Arr?
    then Some(Get(parsed, "testCases").value.items)
    else None
  }

  /**
   * `_validate_min_counts`: passes exactly when "testCases" is a non-empty
   * list with at least `minCases` entries; a missing, non-list or empty
   * value and a short list fail with their own errors.
   */
  function ValidateMinCounts(parsed: Fields, minCases: int): (r: Outcome<Error>)
    ensures r.Pass? <==> TestCasesGiven(parsed).Some? && |TestCasesGiven(parsed).value| >= 1
                         && |TestCasesGiven(parsed).value| >= minCases
    ensures TestCasesGiven(parsed).None? || TestCasesGiven(parsed).value == [] ==> r == Fail(MissingTestCases)
    ensures TestCasesGiven(parsed).Some? && TestCasesGiven(parsed).value != []
            && |TestCasesGiven(parsed).value| < minCases
            ==> r == Fail(TooFewTestCases(|TestCasesGiven(parsed).value|, minCases))
  {
    var tcs := Get(parsed, "testCases");
    if tcs.None? || !tcs.value.Arr? || tcs.value.items == [] then Fail(MissingTestCases)
    else if |tcs.value.items| < minCases then Fail(TooFewTestCases(|tcs.value.items|, minCases))
    else Pass
  }

  /**
   * What `_invoke_bedrock_text` returns for a reply: `(raw or "").strip()`,
   * or the client's failure. ReplyTextTrimmed states what the text is.
   */
  function ReplyText(reply: Reply): (r: Result<string, Error>)
    ensures r.Err? <==> reply.Failed?
    ensures r.Err? ==> r.error == Upstream
  {
    match reply
    case Failed => Err(Upstream)
    case Answered(raw) => Ok(Strip(raw.GetOr("")))
  }

  /**
   * The text ReplyText hands on is the model's text with Python whitespace
   * stripped from both ends (the empty text when there was none), so it is
   * trimmed, and is empty exactly when the model gave no text or only
   * whitespace. StripShape says where in the model's text it lies.
   */
  lemma ReplyTextTrimmed(reply: Reply)
    requires reply.Answered?
    ensures ReplyText(reply).Ok?
    ensures reply.text.Some? ==> ReplyText(reply).value == Strip(reply.text.value)
    ensures reply.text.None? ==> ReplyText(reply).value == ""
    ensures ReplyText(reply).value == "" <==> reply.text.None? || IsBlank(reply.text.value)
    ensures Strip(ReplyText(reply).value) == ReplyText(reply).value
  {
    var text := reply.text.GetOr("");
    StripIdempotent(text);
    assert reply.text.None? ==> text == "";
  }

  /** `_invoke_bedrock_text`: one call to the client, then ReplyText. */
  method InvokeBedrockText(client: ModelClient, modelId: string, system: SystemPrompt,
                           userText: string, maxTokens: nat)
    returns (r: Result<string, Error>)
    modifies client
    ensures client.calls == old(client.calls) + [InvokeRequest(modelId, system, userText, maxTokens)]
    ensures r == ReplyText(old(client.NextReply()))
  {
    var reply := client.InvokeModel(InvokeRequest(modelId, system, userText, maxTokens));
    if reply.Failed? {
      return Err(Upstream);
    }
    var raw := reply.text;
    r := Ok(Strip(raw.GetOr("")));
  }

  /** The calls `_parse_or_repair_json` makes: none when the text parses, else one repair call. */
  function RepairCalls(rawText: string, modelId: string, parse: string -> Option<Json>): (r: seq<InvokeRequest>)
    ensures r == [] <==> parse(rawText).Some?
    ensures |r| <= 1
    ensures r != [] ==> r[0] == InvokeRequest(modelId, JsonRepairPrompt, rawText, 1400)
  {
    if parse(rawText).Some? then [] else [InvokeRequest(modelId, JsonRepairPrompt, rawText, 1400)]
  }

  /**
   * `_parse_or_repair_json` as a function of the answer to the repair call.
   * A first parse that succeeds is returned as it is. Otherwise the one
   * repair answer decides: a failed call or empty text is an error, a
   * second parse that succeeds is the result, and a second parse that fails
   * is an error too, with no further attempt.
   */
  function ParseOrRepair(rawText: string, repairReply: Reply, parse: string -> Option<Json>)
    : (r: Result<Json, Error>)
    ensures parse(rawText).Some? ==> r == Ok(parse(rawText).value)
    ensures parse(rawText).None? && repairReply.Failed? ==> r == Err(Upstream)
    ensures parse(rawText).None? && ReplyText(repairReply) == Ok("") ==> r == Err(RepairEmpty)
    ensures (&& parse(rawText).None? && ReplyText(repairReply).Ok? && ReplyText(repairReply).value != ""
             && parse(ReplyText(repairReply).value).None?) ==> r == Err(ParseFailed)
    ensures (&& parse(rawText).None? && ReplyText(repairReply).Ok? && ReplyText(repairReply).value != ""
             && parse(ReplyText(repairReply).value).Some?) ==> r == Ok(parse(ReplyText(repairReply).value).value)
  {
    match parse(rawText)
    case Some(parsed) => Ok(parsed)
    case None =>
      var repairedText :- ReplyText(repairReply);
      if repairedText == "" then Err(RepairEmpty)
      else
        match parse(repairedText)
        case None => Err(ParseFailed)
        case Some(parsed) => Ok(parsed)
  }

  /**
   * `_parse_or_repair_json`: the repair call, when there is one, carries the
   * repair prompt, the unparsable text and a 1400-token budget.
   */
  method ParseOrRepairJson(rawText: string, client: ModelClient, modelId: string, parse: string -> Option<Json>)
    returns (r: Result<Json, Error>)
    modifies client
    ensures client.calls == old(client.calls) + RepairCalls(rawText, modelId, parse)
    ensures r == ParseOrRepair(rawText, old(client.NextReply()), parse)
  {
    var first := parse(rawText);
    if first.Some? {
      return Ok(first.value);
    }
    var repairedText := InvokeBedrockText(client, modelId, JsonRepairPrompt, rawText, 1400);
    if repairedText.Err? {
      return Err(repairedText.error);
    }
    if repairedText.value == "" {
      return Err(RepairEmpty);
    }
    var second := parse(repairedText.value);
    if second.None? {
      return Err(ParseFailed);
    }
    r := Ok(second.value);
  }

  /**
   * The calls `generate_test_cases` makes: the generation call, then the
   * repair call exactly when there is non-empty text that does not parse.
   */
  function Requests(prompts: PromptSource, modelId: string, requestText: string, first: Reply, parse: string -> Option<Json>)
    : (r: seq<InvokeRequest>)
    ensures 1 <= |r| <= 2
    ensures r[0] == InvokeRequest(modelId, GenerationPrompt(prompts), requestText, 1100)
    ensures |r| == 2 <==> ReplyText(first).Ok? && ReplyText(first).value != "" && parse(ReplyText(first).value).None?
    ensures |r| == 2 ==> r[1] == InvokeRequest(modelId, JsonRepairPrompt, ReplyText(first).value, 1400)
  {
    [InvokeRequest(modelId, GenerationPrompt(prompts), requestText, 1100)]
      + match ReplyText(first)
        case Err(_) => []
        case Ok(genText) => if genText == "" then [] else RepairCalls(genText, modelId, parse)
  }

  /**
   * The value the parser made of the model's text, after at most one repair:
   * a failed generation call or empty generated text stops before parsing;
   * any other text goes to `_parse_or_repair_json`, with the second reply
   * answering the repair call.
   */
  function ModelOutput(first: Reply, second: Reply, parse: string -> Option<Json>): (r: Result<Json, Error>)
    ensures first.Failed? ==> r == Err(Upstream)
    ensures ReplyText(first) == Ok("") ==> r == Err(ModelOutputEmpty)
    ensures ReplyText(first).Ok? && ReplyText(first).value != ""
            ==> r == ParseOrRepair(ReplyText(first).value, second, parse)
  {
    var genText :- ReplyText(first);
    if genText == "" then Err(ModelOutputEmpty) else ParseOrRepair(genText, second, parse)
  }

  /**
   * Truth enforcement: `parsed["domain"] = req.domain` then
   * `parsed["language"] = req.context.language`. Both keys end up holding the
   * request's values whatever the model wrote; every other key is untouched.
   */
  function EnforceTruth(parsed: Fields, req: TestGenerationRequest): (r: Fields)
    ensures Get(r, "domain") == Some(Str(req.domain))
    ensures Get(r, "language") == Some(Str(req.context.language))
    ensures forall k :: k != "domain" && k != "language" ==> Get(r, k) == Get(parsed, k)
    ensures Keys(r) == Keys(parsed) + {"domain", "language"}
  {
    Put(Put(parsed, "domain", Str(req.domain)), "language", Str(req.context.language))
  }

  /**
   * The tail of `generate_test_cases` once there is a parsed value: reject a
   * non-object, check the counts, enforce the request's truth, then
   * `TestGenerationResponse.model_validate`. A success answers the request,
   * and its test cases are exactly the ones in the parsed value.
   */
  function ReconcileParsed(parsed: Json, req: TestGenerationRequest): (r: Result<TestGenerationResponse, Error>)
    ensures !parsed.Obj? ==> r == Err(NotAnObject)
    ensures parsed.Obj? && ValidateMinCounts(parsed.fields, req.context.numberOfIntents).Fail?
            ==> r == Err(ValidateMinCounts(parsed.fields, req.context.numberOfIntents).error)
    ensures parsed.Obj? && ValidateMinCounts(parsed.fields, req.context.numberOfIntents).Pass?
            ==> r == TestGenResponseFromJson(Obj(EnforceTruth(parsed.fields, req)))
    ensures r.Ok? ==> AnswersTestGeneration(r.value, req)
    ensures r.Ok? ==>
      && parsed.Obj?
      && TestCasesGiven(parsed.fields).Some?
      && TestCasesFromJson(TestCasesGiven(parsed.fields).value) == Ok(r.value.testCases)
  {
    if !parsed.Obj? then Err(NotAnObject)
    else
      match ValidateMinCounts(parsed.fields, req.context.numberOfIntents)
      case Fail(e) => Err(e)
      case Pass =>
        var enforced := EnforceTruth(parsed.fields, req);
        assert Get(enforced, "testCases") == Get(parsed.fields, "testCases");
        TestGenResponseFromJson(Obj(enforced))
  }

  /**
   * `generate_test_cases` as a function of the answers to its (at most two)
   * calls. A success answers the request: the request's domain and
   * language, at least `number_of_intents` test cases, and those test cases
   * are exactly the ones the model produced.
   */
  function GenerateFromReplies(req: TestGenerationRequest, first: Reply, second: Reply, parse: string -> Option<Json>)
    : (r: Result<TestGenerationResponse, Error>)
    ensures first.Failed? ==> r == Err(Upstream)
    ensures ReplyText(first) == Ok("") ==> r == Err(ModelOutputEmpty)
    ensures ModelOutput(first, second, parse).Err? ==> r == Err(ModelOutput(first, second, parse).error)
    ensures ModelOutput(first, second, parse).Ok? ==> r == ReconcileParsed(ModelOutput(first, second, parse).value, req)
    ensures r.Ok? ==> AnswersTestGeneration(r.value, req)
    ensures r.Ok? ==>
      && ModelOutput(first, second, parse).Ok?
      && ModelOutput(first, second, parse).value.Obj?
      && TestCasesGiven(ModelOutput(first, second, parse).value.fields).Some?
      && TestCasesFromJson(TestCasesGiven(ModelOutput(first, second, parse).value.fields).value) == Ok(r.value.testCases)
  {
    var parsed :- ModelOutput(first, second, parse);
    ReconcileParsed(parsed, req)
  }

  /**
   * `generate_test_cases`: the generation call (the copy's generation prompt, the
   * serialised request, 1100 tokens), at most one repair call, validation,
   * then the in-place overwrite of `domain` and `language` before
   * `TestGenerationResponse.model_validate`. `requestText` stands for
   * `json.dumps(req.model_dump(), ...)`.
   */
  method GenerateTestCases(prompts: PromptSource, req: TestGenerationRequest, requestText: string, client: ModelClient,
                           modelId: string, parse: string -> Option<Json>)
    returns (r: Result<TestGenerationResponse, Error>)
    modifies client
    ensures client.calls == old(client.calls) + Requests(prompts, modelId, requestText, old(client.NextReply()), parse)
    ensures r == GenerateFromReplies(req, old(client.NextReply()), client.ReplyAt(|old(client.calls)| + 1), parse)
  {
    ghost var expected := Requests(prompts, modelId, requestText, client.NextReply(), parse);
    var genText := InvokeBedrockText(client, modelId, GenerationPrompt(prompts), requestText, 1100);
    if genText.Err? {
      assert expected == [InvokeRequest(modelId, GenerationPrompt(prompts), requestText, 1100)];
      return Err(genText.error);
    }
    if genText.value == "" {
      assert expected == [InvokeRequest(modelId, GenerationPrompt(prompts), requestText, 1100)];
      return Err(ModelOutputEmpty);
    }
    assert expected == [InvokeRequest(modelId, GenerationPrompt(prompts), requestText, 1100)]
                       + RepairCalls(genText.value, modelId, parse);
    var parsed := ParseOrRepairJson(genText.value, client, modelId, parse);
    assert client.calls == old(client.calls) + expected;
    if parsed.Err? {
      return Err(parsed.error);
    }
    if !parsed.value.Obj? {
      return Err(NotAnObject);
    }
    var fields := parsed.value.fields;
    var check := ValidateMinCounts(fields, req.context.numberOfIntents);
    if check.Fail? {
      return Err(check.error);
    }
    // Force the request's truth over whatever the model said.
    fields := Put(fields, "domain", Str(req.domain));
    fields := Put(fields, "language", Str(req.context.language));
    r := TestGenResponseFromJson(Obj(fields));
  }

  /**
   * Success is decided by the model's test cases alone: the call succeeds
   * exactly when the (possibly repaired) output is an object whose
   * "testCases" is a list of at least one and at least `number_of_intents`
   * well-formed test cases, whatever the model wrote for domain and language.
   */
  lemma GenerateSucceedsIff(req: TestGenerationRequest, first: Reply, second: Reply, parse: string -> Option<Json>)
    ensures GenerateFromReplies(req, first, second, parse).Ok? <==>
      && ModelOutput(first, second, parse).Ok?
      && ModelOutput(first, second, parse).value.Obj?
      && TestCasesGiven(ModelOutput(first, second, parse).value.fields).Some?
      && var items := TestCasesGiven(ModelOutput(first, second, parse).value.fields).value;
         |items| >= 1 && |items| >= req.context.numberOfIntents && TestCasesFromJson(items).Ok?
  {
    var out := ModelOutput(first, second, parse);
    if out.Ok? {
      ReconcileSucceedsIff(out.value, req);
    }
  }

  /** GenerateSucceedsIff for the value the parser produced. */
  lemma ReconcileSucceedsIff(parsed: Json, req: TestGenerationRequest)
    ensures ReconcileParsed(parsed, req).Ok? <==>
      && parsed.Obj?
      && TestCasesGiven(parsed.fields).Some?
      && var items := TestCasesGiven(parsed.fields).value;
         |items| >= 1 && |items| >= req.context.numberOfIntents && TestCasesFromJson(items).Ok?
  {
    if parsed.Obj? && TestCasesGiven(parsed.fields).Some? {
      EnforcedDecodes(parsed.fields, req);
    }
  }

  /**
   * After truth enforcement the response validates exactly when the test
   * cases do, and carries the request's domain and language.
   */
  lemma EnforcedDecodes(fields: Fields, req: TestGenerationRequest)
    requires TestCasesGiven(fields).Some?
    ensures var decoded := TestGenResponseFromJson(Obj(EnforceTruth(fields, req)));
      var cases := TestCasesFromJson(TestCasesGiven(fields).value);
      && (decoded.Ok? <==> cases.Ok?)
      && (decoded.Ok? ==> decoded.value == TestGenerationResponse(req.domain, req.context.language, cases.value))
  {
    var enforced := EnforceTruth(fields, req);
    assert Get(enforced, "testCases") == Get(fields, "testCases");
    assert RequiredStr(Get(enforced, "domain")) == Some(req.domain);
    assert RequiredStr(Get(enforced, "language")) == Some(req.context.language);
  }

  /**
   * When the generated text parses, no repair call is made and the answer
   * the repair call would have had plays no part.
   */
  lemma ParsedTextNeedsNoRepair(req: TestGenerationRequest, prompts: PromptSource, modelId: string, requestText: string,
                                first: Reply, second: Reply, other: Reply, parse: string -> Option<Json>)
    requires ReplyText(first).Ok? && parse(ReplyText(first).value).Some?
    ensures |Requests(prompts, modelId, requestText, first, parse)| == 1
    ensures GenerateFromReplies(req, first, second, parse) == GenerateFromReplies(req, first, other, parse)
  {
    assert ModelOutput(first, second, parse) == ModelOutput(first, other, parse);
  }

  /** Empty generated text stops the run after the generation call. */
  lemma EmptyGenerationStops(req: TestGenerationRequest, prompts: PromptSource, modelId: string, requestText: string,
                             first: Reply, second: Reply, parse: string -> Option<Json>)
    requires ReplyText(first) == Ok("")
    ensures |Requests(prompts, modelId, requestText, first, parse)| == 1
    ensures GenerateFromReplies(req, first, second, parse) == Err(ModelOutputEmpty)
  {
  }

  /** No text, or only whitespace, becomes the empty text. */
  lemma BlankReplyIsEmptyText(reply: Reply)
    requires reply.Answered? && (reply.text.None? || IsBlank(reply.text.value))
    ensures ReplyText(reply) == Ok("")
  {
    ReplyTextTrimmed(reply);
  }

  /**
   * A model answer with no text, or only whitespace, fails with
   * "Bedrock response did not contain model text" after the one generation
   * call, without parse or repair.
   */
  lemma BlankGenerationNotRepaired(req: TestGenerationRequest, prompts: PromptSource, modelId: string, requestText: string,
                                   first: Reply, second: Reply, parse: string -> Option<Json>)
    requires first.Answered? && (first.text.None? || IsBlank(first.text.value))
    ensures |Requests(prompts, modelId, requestText, first, parse)| == 1
    ensures GenerateFromReplies(req, first, second, parse) == Err(ModelOutputEmpty)
  {
    BlankReplyIsEmptyText(first);
    EmptyGenerationStops(req, prompts, modelId, requestText, first, second, parse);
  }

  /**
   * Text that does not parse is repaired once; when that repair call fails
   * the failure is the result, and there is no third call.
   */
  lemma FailedRepairPropagates(req: TestGenerationRequest, prompts: PromptSource, modelId: string, requestText: string,
                               first: Reply, parse: string -> Option<Json>)
    requires ReplyText(first).Ok? && ReplyText(first).value != "" && parse(ReplyText(first).value).None?
    ensures Requests(prompts, modelId, requestText, first, parse) ==
      [ InvokeRequest(modelId, GenerationPrompt(prompts), requestText, 1100),
        InvokeRequest(modelId, JsonRepairPrompt, ReplyText(first).value, 1400) ]
    ensures GenerateFromReplies(req, first, Failed, parse) == Err(Upstream)
  {
  }

  /**
   * Malformed text that the repair call turns into an object with enough
   * well-formed test cases yields those test cases under the request's own
   * domain and language, whatever domain and language the model named,
   * after exactly two calls.
   */
  lemma RepairedOutputAccepted(req: TestGenerationRequest, prompts: PromptSource, modelId: string, requestText: string,
                               first: Reply, second: Reply, parse: string -> Option<Json>,
                               fields: Fields, items: seq<Json>)
    requires ReplyText(first).Ok? && ReplyText(first).value != "" && parse(ReplyText(first).value).None?
    requires ReplyText(second).Ok? && ReplyText(second).value != ""
    requires parse(ReplyText(second).value) == Some(Obj(fields))
    requires Get(fields, "testCases") == Some(Arr(items))
    requires |items| >= 1 && |items| >= req.context.numberOfIntents && TestCasesFromJson(items).Ok?
    ensures |Requests(prompts, modelId, requestText, first, parse)| == 2
    ensures GenerateFromReplies(req, first, second, parse)
            == Ok(TestGenerationResponse(req.domain, req.context.language, TestCasesFromJson(items).value))
  {
    assert ParseOrRepair(ReplyText(first).value, second, parse) == Ok(Obj(fields));
    assert ModelOutput(first, second, parse) == Ok(Obj(fields));
    assert TestCasesGiven(fields) == Some(items);
    EnforcedDecodes(fields, req);
    assert ReconcileParsed(Obj(fields), req)
           == Ok(TestGenerationResponse(req.domain, req.context.language, TestCasesFromJson(items).value));
  }
}
