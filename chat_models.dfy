/**
  The shapes the chat code passes around: the agent SDK's message envelopes (a request
  or a response, each a list of typed parts), the `ChatMessage` and `Conversations`
  records of models/chat.py, the `ConversationScehma` row of schemas/supabase.py, and
  the SDK's JSON codec for a message history, which this model does not define.
 */
module ChatModels {
  import opened Results

  /** The parts a request to the model can carry. Timestamps are the ISO-8601 text
      `isoformat()` gives for them. */
  datatype RequestPart =
    | SystemPromptPart(content: string)
    | UserPromptPart(content: string, timestamp: string)
    | ToolReturnPart(toolName: string, content: string, timestamp: string)
    | RetryPromptPart(content: string, timestamp: string)

  /** The parts a model response can carry. */
  datatype ResponsePart =
    | TextPart(content: string)
    | ToolCallPart(toolName: string, args: string)

  /** `ModelMessage`: a `ModelRequest` or a `ModelResponse`. */
  datatype ModelMessage =
    | ModelRequest(requestParts: seq<RequestPart>)
    | ModelResponse(responseParts: seq<ResponsePart>, timestamp: string)

  /** `Literal["user", "model"]`. */
  datatype Role = User | Model

  /** `ChatMessage`: what the chat front end shows for one message. */
  datatype ChatMessage = ChatMessage(role: Role, timestamp: string, content: string)

  /** `Conversations`: one entry of the conversation list. */
  datatype Conversations = Conversations(id: int, title: string, updatedAt: string)

  /** `ConversationScehma`: the row written for a conversation; `id` is None for a new one. */
  datatype ConversationSchema = ConversationSchema(
    id: Option<int>, title: string, userId: string, messages: string, updatedAt: string)

  /** `ModelMessagesTypeAdapter`: the SDK's JSON codec for a message history. `validate`
      fails with the text of the validation error. */
  datatype Codec = Codec(
    dump: seq<ModelMessage> -> string,
    validate: string -> Result<seq<ModelMessage>, string>)

  /** The codec reads back whatever it wrote. This is a property of the SDK, assumed
      where it is needed and never proved here. */
  ghost predicate RoundTrips(codec: Codec) {
    forall h :: codec.validate(codec.dump(h)) == Success(h)
  }
}
