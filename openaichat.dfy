/** `chatWithOpenAI` of lib/opeanai.ts, used by the chat tab: with a stored
    API key it sends one chat-completion request whose user prompt carries
    the retrieved context and the question, and turns the outcome into a
    `ChatResponse`. The stored key is a parameter (`None` when nothing is
    stored) and the endpoint is the oracle `send`. */
module OpenAIChat {
  import opened Types
  import opened Text

  /** The result of `chatWithOpenAI`: the text shown, the source labels, and
      the error label when something went wrong. */
  datatype ChatResponse = ChatResponse(response: string, sources: seq<string>, error: Option<string>)

  /** A response together with the request sent for it, if any. */
  datatype ChatExchange = ChatExchange(result: ChatResponse, request: Option<CompletionRequest>)

  const NoKeyResponse := "Please configure your OpenAI API key in Settings first."
  const NoKeyError := "No API key configured"
  const ApiErrorResponse := "Sorry, I encountered an error with the OpenAI API. Please check your API key and try again."
  const ApiError := "OpenAI API error"
  const NetworkErrorResponse := "Sorry, I encountered an error. Please try again."
  const NetworkError := "Network or API error"
  const EmptyReplyFallback := "No response generated"
  const ContextSource := "Document context"

  const SystemPrompt := "You are a helpful assistant that answers questions based on provided context. If the context doesn't contain relevant information, acknowledge this and provide a helpful general response."
  const PromptSuffix := "\n\nIf the context doesn't contain relevant information to answer the question, please say so and provide a general response based on your knowledge."
  const ChatModel := "gpt-3.5-turbo"
  const MaxTokens := 1000
  const Temperature := 0.7

  /** `!apiKey`: nothing stored, or the empty string. */
  predicate HasKey(apiKey: Option<string>) {
    apiKey.Some? && apiKey.value != ""
  }

  /** The context block that opens the prompt; empty without context. */
  function ContextText(context: seq<string>): (r: string)
    ensures r == "" <==> context == []
  {
    if |context| > 0 then "Based on the following context:\n\n" + Join(context, "\n\n") + "\n\n" else ""
  }

  /** The user prompt: the context block, the question, the fixed suffix. */
  function Prompt(message: string, context: seq<string>): string {
    ContextText(context) + "Please answer the following question: " + message + PromptSuffix
  }

  /** The request `chatWithOpenAI` sends. */
  function ChatRequestFor(message: string, context: seq<string>): CompletionRequest {
    CompletionRequest(ChatModel, SystemPrompt, Prompt(message, context), MaxTokens, Temperature)
  }

  /** The prompt includes the question and every context entry. */
  lemma PromptCarriesContext(message: string, context: seq<string>)
    ensures Contains(Prompt(message, context), message)
    ensures forall k :: 0 <= k < |context| ==> Contains(Prompt(message, context), context[k])
  {
    var head := ContextText(context) + "Please answer the following question: ";
    ContainsMiddle(head, message, PromptSuffix);
    forall k | 0 <= k < |context| ensures Contains(Prompt(message, context), context[k]) {
      JoinContainsPart(context, "\n\n", k);
      ContainsWithin("Based on the following context:\n\n", Join(context, "\n\n"), "\n\n", context[k]);
      ContainsExtend(ContextText(context), "Please answer the following question: ", context[k]);
      ContainsExtend(head, message, context[k]);
      ContainsExtend(head + message, PromptSuffix, context[k]);
    }
  }

  /** The response for one outcome of the request. */
  function ResponseFor(outcome: HttpOutcome, context: seq<string>): ChatResponse {
    match outcome
    case Threw(_) => ChatResponse(NetworkErrorResponse, [], Some(NetworkError))
    case NotOk(_, _) => ChatResponse(ApiErrorResponse, [], Some(ApiError))
    case Ok(content) =>
      ChatResponse(if content.Some? && content.value != "" then content.value else EmptyReplyFallback,
                   if |context| > 0 then [ContextSource] else [],
                   None)
  }

  /** `chatWithOpenAI(message, context)`. Without a key it answers at once and
      sends nothing. Otherwise it sends one request; a thrown failure gives the
      network error, a non-OK status the API error, and an OK reply its
      non-empty content (or the fallback text) with the "Document context"
      source exactly when there was context. An error never comes with
      sources, success never with an error, and the text is never empty. */
  function ChatWithOpenAI(apiKey: Option<string>, message: string, context: seq<string>,
                          send: CompletionRequest -> HttpOutcome): (x: ChatExchange)
    ensures !HasKey(apiKey) ==>
      x == ChatExchange(ChatResponse(NoKeyResponse, [], Some(NoKeyError)), None)
    ensures HasKey(apiKey) ==> x.request == Some(ChatRequestFor(message, context))
    ensures HasKey(apiKey) && send(ChatRequestFor(message, context)).Threw? ==>
      x.result == ChatResponse(NetworkErrorResponse, [], Some(NetworkError))
    ensures HasKey(apiKey) && send(ChatRequestFor(message, context)).NotOk? ==>
      x.result == ChatResponse(ApiErrorResponse, [], Some(ApiError))
    ensures HasKey(apiKey) && send(ChatRequestFor(message, context)).Ok? ==>
      var content := send(ChatRequestFor(message, context)).content;
      && x.result.error == None
      && (x.result.sources == [ContextSource] <==> context != [])
      && (context == [] ==> x.result.sources == [])
      && (content.Some? && content.value != "" ==> x.result.response == content.value)
      && (content.None? || content.value == "" ==> x.result.response == EmptyReplyFallback)
    ensures x.result.error.Some? ==> x.result.sources == []
    ensures x.result.error.None? <==> x.request.Some? && send(x.request.value).Ok?
    ensures x.result.response != ""
  {
    if !HasKey(apiKey) then ChatExchange(ChatResponse(NoKeyResponse, [], Some(NoKeyError)), None)
    else
      var request := ChatRequestFor(message, context);
      ChatExchange(ResponseFor(send(request), context), Some(request))
  }
}
