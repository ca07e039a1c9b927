/** The records the application passes around (types/index.ts), without the
    `Date` timestamps, which come from the clock. */
module Types {

  datatype Option<+T> = None | Some(value: T)

  /** An embedding vector as the provider returns it. */
  type Embedding = seq<real>

  datatype ChunkMetadata = ChunkMetadata(source: string, page: Option<nat>, section: Option<string>)

  /** One stored fragment of a document; `embedding` is empty until computed. */
  datatype DocumentChunk = DocumentChunk(id: string, content: string, embedding: Embedding, metadata: ChunkMetadata)

  /** An uploaded document; `mediaType` is the `type` field of the source. */
  datatype Document = Document(id: string, name: string, content: string, chunks: seq<DocumentChunk>, size: nat, mediaType: string)

  /** One entry of the persisted conversation log. */
  datatype Message = Message(id: string, text: string, isUser: bool, sources: Option<seq<string>>, isError: Option<bool>)

  /** The body of a chat-completion request: model, the system and user
      messages, `max_tokens` and `temperature`. */
  datatype CompletionRequest = CompletionRequest(model: string, systemPrompt: string, userPrompt: string, maxTokens: nat, temperature: real)

  /** How a `fetch` to the chat-completion endpoint ends, as the callers see it:
      it throws (a network failure, a body that is not JSON, or a body without
      a `choices` list), it answers with a non-OK status and a JSON body whose
      `error.message` may be present, or it answers OK with the content of
      the first choice (`None` when there is no first choice or it carries no
      content). */
  datatype HttpOutcome =
    | Threw(message: string)
    | NotOk(status: nat, errorMessage: Option<string>)
    | Ok(content: Option<string>)
}
