/** The shapes through which the backend talks to its external services.
    The services themselves (the Anthropic model, OCR, PDF rendering, document
    conversion, embeddings, the Qdrant client, S3) are function-typed
    parameters: the model knows what is sent to them and what they may answer,
    never how they compute it. */
module Collaborators {
  import opened Wrappers

  /** File contents, as read from an upload. */
  type Bytes = seq<bv8>

  /** One `client.messages.create(...)` call: model id, `max_tokens`,
      `temperature` and the single user message. */
  datatype Request = Request(model: string, maxTokens: nat, temperature: real, prompt: string)

  /** A content block of a reply: a text block, or any block without a `text` attribute. */
  datatype Block = TextBlock(text: string) | OtherBlock

  /** What a `messages.create` call gives back: it raised, or it returned a reply. */
  datatype Reply = CallFailed | Replied(content: seq<Block>)

  /** The text-generation service. */
  type Generator = Request -> Reply

  /** Failures that the service layer lets escape. */
  datatype ServiceError =
    | GenerationFailed    // messages.create raised
    | UnreadableReply     // result.content[0].text raised (no block, or no text attribute)
    | CollectionNotFound  // retrieval from a collection the vector store does not hold

  /** `result.content[0].text`, or None where Python raises: a failed call,
      an empty content list, or a first block that is not text. */
  function FirstText(reply: Reply): (r: Option<string>)
    ensures reply.CallFailed? || reply == Replied([]) ==> r.None?
    ensures r.Some? <==> reply.Replied? && |reply.content| > 0 && reply.content[0].TextBlock?
    ensures r.Some? ==> TextBlock(r.value) == reply.content[0]
  {
    if reply.Replied? && |reply.content| > 0 && reply.content[0].TextBlock?
    then Some(reply.content[0].text)
    else None
  }
}
