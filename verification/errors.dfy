/**
 * The failures the reconcilers raise. In the service every one of them is a
 * `ValueError` (or an exception of a collaborator) with a message; the model
 * keeps one constructor per distinct message so that contracts can say which
 * check fired.
 */
module Errors {

  datatype Error =
    /** The model client's `invoke_model` raised (transport or provider failure). */
    | Upstream
    /** "Bedrock response did not contain model text" */
    | ModelOutputEmpty
    /** `safe_json_loads` raised: the text is not JSON. */
    | ParseFailed
    /** "Model returned invalid JSON and repair step returned empty text." */
    | RepairEmpty
    /** "Model output must be a JSON object" */
    | NotAnObject
    /** "Model output 'definingObjectives' must be a non-empty list of strings" */
    | BadObjectives
    /** "Model returned {returned} definingObjectives but numRecommendations={requested}" */
    | TooFewObjectives(returned: nat, requested: int)
    /** "Model output missing required non-empty 'reason'" */
    | MissingReason
    /** "Model output must include non-empty 'testCases' list" */
    | MissingTestCases
    /** "Model returned {returned} testCases but minimum required is {minimum}" */
    | TooFewTestCases(returned: nat, minimum: int)
    /** Pydantic's `model_validate` rejected the response object. */
    | SchemaInvalid
}
