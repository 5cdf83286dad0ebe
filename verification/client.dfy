/**
 * The Bedrock model client as the reconcilers see it: `invoke_model` takes a
 * model id and a request body and either raises or returns an envelope from
 * which `extract_text_from_anthropic_bedrock` pulls the text, or nothing.
 *
 * The client is an oracle: it answers from a fixed list of replies, one per
 * call, and logs every request it receives. The number of calls made is the
 * length of the log. Once the replies are used up every further call fails,
 * as a client whose transport has given up would.
 */
module Bedrock {
  import opened Wrappers

  /** The system prompts the reconcilers send; their text is not modelled. */
  datatype SystemPrompt =
    | ObjectivePrompt        // SYSTEM_PROMPT_OBJECTIVE, used by rec_objective.py
    | SimpleObjectivePrompt  // SYSTEM_PROMPT_SIMPLE, used by recommendation.py
    | TestGenerationPrompt   // SYSTEM_PROMPT_TEST_GENERATION of test_generation.py
    | SharedTestGenerationPrompt
      // SYSTEM_PROMPT_TEST_GENERATION of docs/descriptions.py, used by
      // rec_test_generation.py: the same rules plus one demanding that the
      // text start with '{' and end with '}'
    | JsonRepairPrompt       // SYSTEM_PROMPT_JSON_REPAIR

  /**
   * The part of a request body the reconcilers vary. Every body also carries
   * anthropic_version "bedrock-2023-05-31" and temperature 0.0.
   */
  datatype InvokeRequest = InvokeRequest(modelId: string, system: SystemPrompt, userText: string, maxTokens: nat)

  /**
   * One answer of the client: `Answered(t)` when `invoke_model` returned and
   * the extractor found `t` (None when it found no text), `Failed` when
   * `invoke_model` raised.
   */
  datatype Reply = Answered(text: Option<string>) | Failed

  class ModelClient {
    /** The replies the client gives, in order. */
    const replies: seq<Reply>
    /** Every request received so far, in order. */
    var calls: seq<InvokeRequest>

    constructor (replies: seq<Reply>)
      ensures this.replies == replies && calls == []
    {
      this.replies := replies;
      calls := [];
    }

    /** The answer to the call with index `i` (counting from 0). */
    function ReplyAt(i: nat): Reply {
      if i < |replies| then replies[i] else Failed
    }

    /** The answer the next call will get. */
    function NextReply(): Reply
      reads this
    {
      ReplyAt(|calls|)
    }

    method InvokeModel(request: InvokeRequest) returns (reply: Reply)
      modifies this
      ensures calls == old(calls) + [request]
      ensures reply == old(NextReply())
    {
      reply := NextReply();
      calls := calls + [request];
    }
  }
}
