/**
 * The objective-recommendation reconciler of src/inference/recommendation.py:
 * the validator and shaper of the model's JSON, and the straight-line
 * pipeline around one model call. src/inference/rec_objective.py holds a
 * second, identical copy of the validator; module RecObjective models that
 * file's pipeline, which differs in its text guard.
 */
module Recommendation {
  import opened Wrappers
  import opened JsonValues
  import opened PyText
  import opened Errors
  import opened Bedrock
  import opened RecommendationModels

  /** The list the model gave under "definingObjectives", when it gave a list. */
  function ObjectivesGiven(parsed: Json): Option<seq<Json>> {
    if parsed.Obj? && Get(parsed.fields, "definingObjectives").Some?
       && Get(parsed.fields, "definingObjectives").value.Arr?
    then Some(Get(parsed.fields, "definingObjectives").value.items)
    else None
  }

  /** The model gave a list of objectives, and every entry is a non-blank str. */
  predicate ObjectivesWellFormed(parsed: Json) {
    && ObjectivesGiven(parsed).Some?
    && forall i :: 0 <= i < |ObjectivesGiven(parsed).value| ==>
         ObjectivesGiven(parsed).value[i].Str? && !IsBlank(ObjectivesGiven(parsed).value[i].s)
  }

  /** The model gave a non-blank str under "reason". */
  predicate ReasonWellFormed(parsed: Json) {
    parsed.Obj? && Get(parsed.fields, "reason").Some? && Get(parsed.fields, "reason").value.Str?
    && !IsBlank(Get(parsed.fields, "reason").value.s)
  }

  /** The trimmed reason the model gave, when it gave a str. */
  function ReasonGiven(parsed: Json): Option<string> {
    if parsed.Obj? && Get(parsed.fields, "reason").Some? && Get(parsed.fields, "reason").value.Str?
    then Some(Strip(Get(parsed.fields, "reason").value.s))
    else None
  }

  /**
   * `[x.strip() for x in items[:n]]`: for `0 <= n <= |items|` exactly `n`
   * strings, the i-th being the i-th entry trimmed.
   */
  function TrimmedPrefix(items: seq<Json>, n: int): (r: seq<string>)
    requires forall i :: 0 <= i < |items| ==> items[i].Str?
    ensures |r| <= |items|
    ensures 0 <= n <= |items| ==> |r| == n
    ensures forall i :: 0 <= i < |r| ==> r[i] == Strip(items[i].s)
  {
    var kept := PyPrefix(items, n);
    seq(|kept|, i requires 0 <= i < |kept| => Strip(kept[i].s))
  }

  /** Each string is non-blank and already trimmed. */
  predicate AllClean(ss: seq<string>) {
    forall i :: 0 <= i < |ss| ==> !IsBlank(ss[i]) && Strip(ss[i]) == ss[i]
  }

  /** Trimming non-blank strings leaves them non-blank and trimmed. */
  lemma TrimmedPrefixClean(items: seq<Json>, n: int)
    requires forall i :: 0 <= i < |items| ==> items[i].Str? && !IsBlank(items[i].s)
    ensures AllClean(TrimmedPrefix(items, n))
  {
    var r := TrimmedPrefix(items, n);
    forall i | 0 <= i < |r| ensures !IsBlank(r[i]) && Strip(r[i]) == r[i] {
      StripIdempotent(items[i].s);
    }
  }

  /** Trimming strings that are already trimmed, and keeping all of them, changes nothing. */
  lemma TrimmedPrefixOfClean(objectives: seq<string>)
    requires AllClean(objectives)
    ensures TrimmedPrefix(StrArray(objectives), |objectives|) == objectives
  {
  }

  /**
   * The dict `{"definingObjectives": objectives}`, to which `"reason"` is
   * then added when there is one. It holds those keys and no other.
   */
  function ShapedDict(objectives: seq<string>, reason: Option<string>): (out: Fields)
    ensures Keys(out) == (if reason.Some? then {"definingObjectives", "reason"} else {"definingObjectives"})
    ensures Get(out, "definingObjectives") == Some(Arr(StrArray(objectives)))
    ensures Get(out, "reason") == (if reason.Some? then Some(Str(reason.value)) else None)
  {
    var out := [("definingObjectives", Arr(StrArray(objectives)))];
    assert Keys(out) == {"definingObjectives"};
    assert Get(out, "reason") == None;
    if reason.Some? then Put(out, "reason", Str(reason.value)) else out
  }

  /**
   * `_validate_and_shape_output`: check the model's object against the
   * request and build a fresh dict holding exactly the first
   * `numRecommendations` objectives, trimmed, and (only when asked for) the
   * trimmed reason. Every objective is checked, also those past the cut.
   */
  function ValidateAndShapeOutput(parsed: Json, includeReason: bool, numRecommendations: int): (r: Result<Json, Error>)
    ensures !parsed.Obj? ==> r == Err(NotAnObject)
    ensures parsed.Obj? && !ObjectivesWellFormed(parsed) ==> r == Err(BadObjectives)
    ensures ObjectivesWellFormed(parsed) && |ObjectivesGiven(parsed).value| < numRecommendations
            ==> r == Err(TooFewObjectives(|ObjectivesGiven(parsed).value|, numRecommendations))
    ensures ObjectivesWellFormed(parsed) && |ObjectivesGiven(parsed).value| >= numRecommendations
            && includeReason && !ReasonWellFormed(parsed)
            ==> r == Err(MissingReason)
    ensures r.Ok? <==> ObjectivesWellFormed(parsed) && |ObjectivesGiven(parsed).value| >= numRecommendations
                       && (includeReason ==> ReasonWellFormed(parsed))
    ensures r.Ok? ==>
      r.value == Obj(ShapedDict(TrimmedPrefix(ObjectivesGiven(parsed).value, numRecommendations),
                                if includeReason then ReasonGiven(parsed) else None))
  {
    // `x.strip()` is truthy exactly when `x` is not blank (Strip's contract),
    // so the two checks are stated with ObjectivesWellFormed and ReasonWellFormed.
    if !parsed.Obj? then Err(NotAnObject)
    else if !ObjectivesWellFormed(parsed) then Err(BadObjectives)
    else
      var items := ObjectivesGiven(parsed).value;
      if |items| < numRecommendations then Err(TooFewObjectives(|items|, numRecommendations))
      else
        var objectives := TrimmedPrefix(items, numRecommendations);
        if !includeReason then Ok(Obj(ShapedDict(objectives, None)))
        else if !ReasonWellFormed(parsed) then Err(MissingReason)
        else Ok(Obj(ShapedDict(objectives, ReasonGiven(parsed))))
  }

  /** A shaped dict passes `SimpleRecommendResponse.model_validate` and decodes to its parts. */
  lemma ShapedDictDecodes(objectives: seq<string>, reason: Option<string>)
    ensures RecommendResponseFromJson(Obj(ShapedDict(objectives, reason)))
            == Ok(SimpleRecommendResponse(reason, objectives))
  {
    StringsOfStrArray(objectives);
  }

  /**
   * A shaped dict of clean objectives, of the requested number, with a clean
   * reason exactly when one is asked for, validates into a response that
   * answers the request.
   */
  lemma ShapedDictAnswers(objectives: seq<string>, reason: Option<string>, req: SimpleObjectiveRequest)
    requires AllClean(objectives) && |objectives| == req.numRecommendations
    requires reason.Some? <==> req.includeReason
    requires reason.Some? ==> !IsBlank(reason.value) && Strip(reason.value) == reason.value
    ensures RecommendResponseFromJson(Obj(ShapedDict(objectives, reason))).Ok?
    ensures AnswersRecommendation(RecommendResponseFromJson(Obj(ShapedDict(objectives, reason))).value, req)
  {
    ShapedDictDecodes(objectives, reason);
  }

  /**
   * What the shaper returns always passes `SimpleRecommendResponse.model_validate`,
   * and the response answers the request: `numRecommendations` trimmed,
   * non-blank objectives taken in order from the model's list, and a trimmed,
   * non-blank reason exactly when `includeReason` holds.
   */
  lemma ShapedOutputAnswers(parsed: Json, req: SimpleObjectiveRequest)
    requires req.Valid()
    requires ValidateAndShapeOutput(parsed, req.includeReason, req.numRecommendations).Ok?
    ensures var shaped := ValidateAndShapeOutput(parsed, req.includeReason, req.numRecommendations).value;
      var resp := RecommendResponseFromJson(shaped);
      && resp.Ok?
      && AnswersRecommendation(resp.value, req)
      && resp.value.definingObjectives == TrimmedPrefix(ObjectivesGiven(parsed).value, req.numRecommendations)
  {
    var given := ObjectivesGiven(parsed).value;
    var objectives := TrimmedPrefix(given, req.numRecommendations);
    var reason := if req.includeReason then ReasonGiven(parsed) else None;
    TrimmedPrefixClean(given, req.numRecommendations);
    if req.includeReason {
      StripIdempotent(Get(parsed.fields, "reason").value.s);
    }
    ShapedDictAnswers(objectives, reason, req);
    ShapedDictDecodes(objectives, reason);
  }

  /**
   * A shaped dict of clean objectives, of the requested number, with a clean
   * reason exactly when one is asked for, passes the shaper unchanged.
   */
  lemma ShapedDictReshapes(objectives: seq<string>, reason: Option<string>, includeReason: bool, numRecommendations: int)
    requires AllClean(objectives) && |objectives| == numRecommendations
    requires reason.Some? <==> includeReason
    requires reason.Some? ==> !IsBlank(reason.value) && Strip(reason.value) == reason.value
    ensures var shaped := Obj(ShapedDict(objectives, reason));
      ValidateAndShapeOutput(shaped, includeReason, numRecommendations) == Ok(shaped)
  {
    ShapedObjectivesWellFormed(objectives, reason);
    TrimmedPrefixOfClean(objectives);
    if includeReason {
      ShapedReasonWellFormed(objectives, reason);
    }
  }

  /** The objectives of a shaped dict of clean objectives pass the check again. */
  lemma ShapedObjectivesWellFormed(objectives: seq<string>, reason: Option<string>)
    requires AllClean(objectives)
    ensures ObjectivesGiven(Obj(ShapedDict(objectives, reason))) == Some(StrArray(objectives))
    ensures ObjectivesWellFormed(Obj(ShapedDict(objectives, reason)))
  {
    assert ObjectivesGiven(Obj(ShapedDict(objectives, reason))) == Some(StrArray(objectives));
  }

  /** The reason of a shaped dict with a clean reason passes the check again, unchanged. */
  lemma ShapedReasonWellFormed(objectives: seq<string>, reason: Option<string>)
    requires reason.Some? && !IsBlank(reason.value) && Strip(reason.value) == reason.value
    ensures ReasonWellFormed(Obj(ShapedDict(objectives, reason)))
    ensures ReasonGiven(Obj(ShapedDict(objectives, reason))) == reason
  {
  }

  /**
   * Shaping is idempotent: a shaped output, shaped again with the same
   * arguments, is returned unchanged (nothing left to trim or cut).
   */
  lemma ShapeIdempotent(parsed: Json, includeReason: bool, numRecommendations: int)
    requires numRecommendations >= 0
    requires ValidateAndShapeOutput(parsed, includeReason, numRecommendations).Ok?
    ensures var shaped := ValidateAndShapeOutput(parsed, includeReason, numRecommendations).value;
      ValidateAndShapeOutput(shaped, includeReason, numRecommendations) == Ok(shaped)
  {
    var given := ObjectivesGiven(parsed).value;
    var objectives := TrimmedPrefix(given, numRecommendations);
    var reason := if includeReason then ReasonGiven(parsed) else None;
    TrimmedPrefixClean(given, numRecommendations);
    if includeReason {
      StripIdempotent(Get(parsed.fields, "reason").value.s);
    }
    ShapedDictReshapes(objectives, reason, includeReason, numRecommendations);
  }

  /**
   * The tail of `recommend_objective` once there is model text: parse it,
   * validate and shape, then `SimpleRecommendResponse.model_validate`.
   * Text that parses into output the shaper accepts always succeeds, with the
   * trimmed head of the model's list and, when asked for, its trimmed reason;
   * output the shaper rejects fails with the shaper's own error.
   */
  function ReconcileText(req: SimpleObjectiveRequest, rawText: string, parse: string -> Option<Json>)
    : (r: Result<SimpleRecommendResponse, Error>)
    requires req.Valid()
    ensures parse(rawText).None? ==> r == Err(ParseFailed)
    ensures parse(rawText).Some? ==>
      (r.Ok? <==> ValidateAndShapeOutput(parse(rawText).value, req.includeReason, req.numRecommendations).Ok?)
    ensures parse(rawText).Some? && ValidateAndShapeOutput(parse(rawText).value, req.includeReason, req.numRecommendations).Err?
            ==> r == Err(ValidateAndShapeOutput(parse(rawText).value, req.includeReason, req.numRecommendations).error)
    ensures r.Ok? ==> r.value.reason == (if req.includeReason then ReasonGiven(parse(rawText).value) else None)
    ensures r.Ok? ==> AnswersRecommendation(r.value, req)
    ensures r.Ok? ==>
      && parse(rawText).Some?
      && ObjectivesWellFormed(parse(rawText).value)
      && r.value.definingObjectives == TrimmedPrefix(ObjectivesGiven(parse(rawText).value).value, req.numRecommendations)
  {
    match parse(rawText)
    case None => Err(ParseFailed)
    case Some(parsed) =>
      var shaped :- ValidateAndShapeOutput(parsed, req.includeReason, req.numRecommendations);
      ShapedOutputAnswers(parsed, req);
      ShapedDictDecodes(TrimmedPrefix(ObjectivesGiven(parsed).value, req.numRecommendations),
                        if req.includeReason then ReasonGiven(parsed) else None);
      RecommendResponseFromJson(shaped)
  }

  /**
   * `recommend_objective` after the one model call, as a function of the
   * reply: a failed call propagates, absent or empty text fails before any
   * parsing, any other text is reconciled, and a success answers the request.
   */
  function RecommendFromReply(req: SimpleObjectiveRequest, reply: Reply, parse: string -> Option<Json>)
    : (r: Result<SimpleRecommendResponse, Error>)
    requires req.Valid()
    ensures reply.Failed? ==> r == Err(Upstream)
    ensures reply == Answered(None) || reply == Answered(Some("")) ==> r == Err(ModelOutputEmpty)
    ensures reply.Answered? && reply.text.Some? && reply.text.value != ""
            ==> r == ReconcileText(req, reply.text.value, parse)
    ensures r.Ok? ==> AnswersRecommendation(r.value, req)
    ensures r.Ok? ==> reply.Answered? && reply.text.Some? && r == ReconcileText(req, reply.text.value, parse)
  {
    match reply
    case Failed => Err(Upstream)
    case Answered(rawText) =>
      if rawText.None? || rawText.value == "" then Err(ModelOutputEmpty)
      else ReconcileText(req, rawText.value, parse)
  }

  /**
   * `recommend_objective`: one call to the client with the simple objective
   * prompt, the serialised request as user text and at most 768 tokens.
   * `requestText` stands for `json.dumps(req.model_dump(), ...)`.
   */
  method RecommendObjective(req: SimpleObjectiveRequest, requestText: string, client: ModelClient,
                            modelId: string, parse: string -> Option<Json>)
    returns (r: Result<SimpleRecommendResponse, Error>)
    requires req.Valid()
    modifies client
    ensures client.calls == old(client.calls) + [InvokeRequest(modelId, SimpleObjectivePrompt, requestText, 768)]
    ensures r == RecommendFromReply(req, old(client.NextReply()), parse)
  {
    var reply := client.InvokeModel(InvokeRequest(modelId, SimpleObjectivePrompt, requestText, 768));
    r := RecommendFromReply(req, reply, parse);
  }
}
