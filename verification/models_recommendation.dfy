/**
 * The request and response schemas of the recommendation endpoint
 * (`SimpleContext`, `SimpleObjectiveRequest`, `SimpleRecommendResponse`).
 * Pydantic's field constraints become validity predicates, its defaults
 * constants, and `SimpleRecommendResponse.model_validate` a decoder from JSON.
 */
module RecommendationModels {
  import opened Wrappers
  import opened JsonValues
  import opened PyText
  import opened Errors

  /** Optional context; every field may be absent (None). */
  datatype SimpleContext = SimpleContext(
    persona: Option<string>,
    domain: Option<string>,
    instructions: Option<string>,
    satisfactionCriteria: Option<seq<string>>,
    extraNotes: Option<string>)

  const DefaultIncludeReason := true
  const DefaultNumRecommendations := 3

  datatype SimpleObjectiveRequest = SimpleObjectiveRequest(
    objective: string,
    context: Option<SimpleContext>,
    includeReason: bool,
    numRecommendations: int)
  {
    /** `objective` has min_length 1; `numRecommendations` has ge=1, le=5. */
    predicate Valid() {
      |objective| >= 1 && 1 <= numRecommendations <= 5
    }
  }

  /** The request Pydantic builds from a payload that gives only `objective`. */
  function RequestWithDefaults(objective: string): (r: SimpleObjectiveRequest)
    ensures r.objective == objective && r.context.None?
    ensures r.includeReason && r.numRecommendations == 3
    ensures r.Valid() <==> objective != ""
  {
    SimpleObjectiveRequest(objective, None, DefaultIncludeReason, DefaultNumRecommendations)
  }

  /** `reason` is optional (default None); `definingObjectives` is a required list of str. */
  datatype SimpleRecommendResponse = SimpleRecommendResponse(
    reason: Option<string>,
    definingObjectives: seq<string>)

  /**
   * What a response must be for the request it answers: exactly
   * `numRecommendations` trimmed, non-blank objectives, and a trimmed
   * non-blank reason present exactly when `includeReason` holds.
   */
  predicate AnswersRecommendation(resp: SimpleRecommendResponse, req: SimpleObjectiveRequest) {
    && |resp.definingObjectives| == req.numRecommendations
    && (forall i :: 0 <= i < |resp.definingObjectives| ==>
          !IsBlank(resp.definingObjectives[i]) && Strip(resp.definingObjectives[i]) == resp.definingObjectives[i])
    && (resp.reason.Some? <==> req.includeReason)
    && (resp.reason.Some? ==> !IsBlank(resp.reason.value) && Strip(resp.reason.value) == resp.reason.value)
  }

  /** `SimpleRecommendResponse.model_validate(j)`; unknown keys are ignored. */
  function RecommendResponseFromJson(j: Json): (r: Result<SimpleRecommendResponse, Error>)
    ensures r.Err? ==> r.error == SchemaInvalid
    ensures r.Ok? ==> j.Obj? && Get(j.fields, "definingObjectives") == Some(Arr(StrArray(r.value.definingObjectives)))
    ensures r.Ok? ==> OptionalStr(Get(j.fields, "reason")) == Some(r.value.reason)
    ensures j.Obj? && Get(j.fields, "definingObjectives").Some? && Get(j.fields, "definingObjectives").value.Arr?
            && StringsOf(Get(j.fields, "definingObjectives").value.items).Some?
            && OptionalStr(Get(j.fields, "reason")).Some?
            ==> r.Ok?
  {
    if !j.Obj? then Err(SchemaInvalid)
    else
      var defining := Get(j.fields, "definingObjectives");
      var reason := OptionalStr(Get(j.fields, "reason"));
      if defining.None? || !defining.value.Arr? || reason.None? then Err(SchemaInvalid)
      else
        match StringsOf(defining.value.items)
        case None => Err(SchemaInvalid)
        case Some(objectives) =>
          assert StrArray(objectives) == defining.value.items;
          Ok(SimpleRecommendResponse(reason.value, objectives))
  }
}
