/**
 * The second recommendation pipeline, src/inference/rec_objective.py. Its
 * `validate_and_shape_output` is the same code as recommendation.py's
 * `_validate_and_shape_output` and is modelled once, as
 * Recommendation.ValidateAndShapeOutput. The pipeline differs in two ways:
 * it sends the objective prompt, and it rejects model text that is empty
 * or only whitespace before parsing.
 */
module RecObjective {
  import opened Wrappers
  import opened JsonValues
  import opened PyText
  import opened Errors
  import opened Bedrock
  import opened RecommendationModels
  import Recommendation

  /**
   * `recommend_objective` after its one model call: a failed call
   * propagates, absent or blank text fails before any parsing, any other
   * text is reconciled, and a success answers the request with the trimmed
   * head of the model's list.
   */
  function RecommendFromReply(req: SimpleObjectiveRequest, reply: Reply, parse: string -> Option<Json>)
    : (r: Result<SimpleRecommendResponse, Error>)
    requires req.Valid()
    ensures reply.Failed? ==> r == Err(Upstream)
    ensures reply.Answered? && (reply.text.None? || IsBlank(reply.text.value)) ==> r == Err(ModelOutputEmpty)
    ensures reply.Answered? && reply.text.Some? && !IsBlank(reply.text.value)
            ==> r == Recommendation.ReconcileText(req, reply.text.value, parse)
    ensures r.Ok? ==> AnswersRecommendation(r.value, req)
    ensures r.Ok? ==> reply.Answered? && reply.text.Some? && !IsBlank(reply.text.value)
                      && r == Recommendation.ReconcileText(req, reply.text.value, parse)
  {
    match reply
    case Failed => Err(Upstream)
    case Answered(rawText) =>
      if rawText.None? || rawText.value == "" || Strip(rawText.value) == "" then Err(ModelOutputEmpty)
      else Recommendation.ReconcileText(req, rawText.value, parse)
  }

  /**
   * The two pipelines agree on every reply except one whose text is
   * non-empty whitespace: this one rejects it, recommendation.py hands it
   * to the parser.
   */
  lemma TextGuardsDiffer(req: SimpleObjectiveRequest, reply: Reply, parse: string -> Option<Json>)
    requires req.Valid()
    ensures reply.Answered? && reply.text.Some? && reply.text.value != "" && IsBlank(reply.text.value) ==>
      && RecommendFromReply(req, reply, parse) == Err(ModelOutputEmpty)
      && Recommendation.RecommendFromReply(req, reply, parse) == Recommendation.ReconcileText(req, reply.text.value, parse)
    ensures !(reply.Answered? && reply.text.Some? && reply.text.value != "" && IsBlank(reply.text.value)) ==>
      RecommendFromReply(req, reply, parse) == Recommendation.RecommendFromReply(req, reply, parse)
  {
  }

  /**
   * `recommend_objective`: one call to the client with the objective prompt,
   * the serialised request as user text and at most 768 tokens.
   * `requestText` stands for `json.dumps(req.model_dump(), ...)`.
   */
  method RecommendObjective(req: SimpleObjectiveRequest, requestText: string, client: ModelClient,
                            modelId: string, parse: string -> Option<Json>)
    returns (r: Result<SimpleRecommendResponse, Error>)
    requires req.Valid()
    modifies client
    ensures client.calls == old(client.calls) + [InvokeRequest(modelId, ObjectivePrompt, requestText, 768)]
    ensures r == RecommendFromReply(req, old(client.NextReply()), parse)
  {
    var reply := client.InvokeModel(InvokeRequest(modelId, ObjectivePrompt, requestText, 768));
    r := RecommendFromReply(req, reply, parse);
  }
}
