/** The chat screen of app/index.tsx: how `generateResponse` builds the
    chat-completion request and turns its outcome into the bot's reply, and
    the screen's state (`messages`, `inputText`, `documentChunks`,
    `documentName`, `apiKey`, `showApiModal`, `tempApiKey`) as updated by
    `saveApiKey`, `handleSendMessage`, `processDocument`, `clearChat` and
    `resetApiKey`. The embedding provider, the similarity of two embeddings
    and the chat-completion endpoint are parameters. */
module ChatApp {
  import opened Types
  import opened Text
  import opened Ingestion
  import opened Retrieval

  /** The first sentence of every system prompt. */
  const BasePrompt := "You are a helpful AI assistant that answers questions based on provided context."
  /** Appended to the system prompt when document context is sent. */
  const ContextInstruction := " Answer the user's question based on the following document context. If the context doesn't contain relevant information, say so clearly."
  /** Appended to the system prompt when no document context is sent. */
  const GeneralInstruction := " Answer the user's question using your general knowledge. Be helpful and informative."

  const ChatModel := "gpt-3.5-turbo"
  const MaxTokens := 500
  const Temperature := 0.7

  /** The reply when the failure mentions the API key. */
  const ApiKeyApology := "There seems to be an issue with the API key. Please check your OpenAI API key and try again."
  /** The reply for every other failure. */
  const GenericApology := "I apologize, but I encountered an error while generating a response. Please try again."

  const Greeting := "Hello! I'm your advanced RAG chatbot powered by OpenAI. You can ask me questions about any topic, or upload a document (PDF, TXT, DOCX) for me to analyze and answer questions about it."
  const ClearedGreeting := "Chat cleared! How can I help you?"
  const MissingKeyAlert := "Please enter your OpenAI API key"

  /** The texts of the retrieved chunks, in retrieval order. */
  function ChunkTexts(chunks: seq<ScoredChunk>): (texts: seq<string>)
    ensures |texts| == |chunks|
    ensures forall i :: 0 <= i < |chunks| ==> texts[i] == chunks[i].chunk.text
  {
    seq(|chunks|, i requires 0 <= i < |chunks| => chunks[i].chunk.text)
  }

  /** The system prompt, with or without document context. */
  function SystemPrompt(withContext: bool): string {
    BasePrompt + (if withContext then ContextInstruction else GeneralInstruction)
  }

  /** The user prompt: the bare query, or the query after the chunk texts. */
  function UserPrompt(query: string, texts: seq<string>): string {
    if texts == [] then query
    else "Context from document:\n" + Join(texts, "\n\n") + "\n\nQuestion: " + query
  }

  /** The chat-completion request `generateResponse` sends. */
  function RequestFor(query: string, texts: seq<string>): CompletionRequest {
    CompletionRequest(ChatModel, SystemPrompt(texts != []), UserPrompt(query, texts), MaxTokens, Temperature)
  }

  /** With context the user prompt includes every chunk text and ends with the
      question; without context it is the question itself. */
  lemma UserPromptCarriesContext(query: string, texts: seq<string>)
    ensures var p := UserPrompt(query, texts);
      && |query| <= |p| && p[|p| - |query|..] == query
      && (texts == [] <==> p == query)
      && (forall k :: 0 <= k < |texts| ==> Contains(p, texts[k]))
  {
    var p := UserPrompt(query, texts);
    if texts != [] {
      var head := "Context from document:\n";
      var body := Join(texts, "\n\n");
      var tail := "\n\nQuestion: " + query;
      assert p == head + body + tail;
      assert |p| > |query|;
      assert p[|p| - |query|..] == query;
      forall k | 0 <= k < |texts| ensures Contains(p, texts[k]) {
        JoinContainsPart(texts, "\n\n", k);
        ContainsWithin(head, body, tail, texts[k]);
      }
    }
  }

  /** `generateResponse`, up to the request: the prompts are built by
      appending to `systemPrompt` and reassigning `userPrompt`. */
  method BuildRequest(query: string, relevantChunks: seq<ScoredChunk>) returns (request: CompletionRequest)
    ensures request == RequestFor(query, ChunkTexts(relevantChunks))
  {
    var systemPrompt := BasePrompt;
    var userPrompt := query;
    if |relevantChunks| > 0 {
      var context := Join(ChunkTexts(relevantChunks), "\n\n");
      systemPrompt := systemPrompt + ContextInstruction;
      userPrompt := "Context from document:\n" + context + "\n\nQuestion: " + query;
    } else {
      systemPrompt := systemPrompt + GeneralInstruction;
    }
    request := CompletionRequest(ChatModel, systemPrompt, userPrompt, MaxTokens, Temperature);
  }

  /** The message of the error `generateResponse` catches: the thrown message,
      the `error.message` of a non-OK body when it is a non-empty string, and
      otherwise the status text. */
  function FailureMessage(outcome: HttpOutcome): string
    requires !outcome.Ok?
  {
    match outcome
    case Threw(message) => message
    case NotOk(status, errorMessage) =>
      if errorMessage.Some? && errorMessage.value != "" then errorMessage.value
      else "HTTP error! status: " + NatToString(status)
  }

  /** The apology for a failure with message `message`. */
  function Apology(message: string): (reply: string)
    ensures reply == ApiKeyApology <==> Contains(message, "API key")
    ensures reply == ApiKeyApology || reply == GenericApology
  {
    if Contains(message, "API key") then ApiKeyApology else GenericApology
  }

  /** The bot's reply for one outcome of the request: the content of the first
      choice, or an apology. A reply without a first choice fails inside the
      `try`, with a runtime error that does not mention the API key. */
  function ReplyFor(outcome: HttpOutcome): (reply: string)
    ensures outcome.Ok? && outcome.content.Some? ==> reply == outcome.content.value
    ensures outcome.Ok? && outcome.content.None? ==> reply == GenericApology
    ensures !outcome.Ok? ==> (reply == ApiKeyApology <==> Contains(FailureMessage(outcome), "API key"))
    ensures !(outcome.Ok? && outcome.content.Some?) ==> reply == ApiKeyApology || reply == GenericApology
  {
    match outcome
    case Ok(content) => if content.Some? then content.value else GenericApology
    case _ => Apology(FailureMessage(outcome))
  }

  /** A non-OK answer whose body carries no error message gets the generic
      apology: the status text never mentions the API key. */
  lemma StatusOnlyFailureIsGeneric(status: nat, errorMessage: Option<string>)
    requires errorMessage == None || errorMessage == Some("")
    ensures ReplyFor(NotOk(status, errorMessage)) == GenericApology
  {
    var m := "HTTP error! status: " + NatToString(status);
    assert FailureMessage(NotOk(status, errorMessage)) == m;
    forall j | 0 <= j < |m| ensures m[j] != 'A' {
      if j >= 20 {
        assert m[j] == NatToString(status)[j - 20];
      }
    }
    MissingCharNotContained(m, "API key", 0);
  }

  /** `generateResponse(query, relevantChunks)`: one request to `complete`,
      and the reply for its outcome. */
  method GenerateResponse(query: string, relevantChunks: seq<ScoredChunk>, complete: CompletionRequest -> HttpOutcome)
    returns (reply: string, request: CompletionRequest)
    ensures request == RequestFor(query, ChunkTexts(relevantChunks))
    ensures reply == ReplyFor(complete(request))
  {
    request := BuildRequest(query, relevantChunks);
    reply := ReplyFor(complete(request));
  }

  /** The steps of `handleSendMessage` after the user's message is posted:
      the top 3 stored chunks for the message become the context of one
      request, and the reply is the one for its outcome. */
  method Answer(documentChunks: seq<EmbeddedChunk>, query: string,
                embed: string -> Option<Embedding>,
                similarity: (Embedding, Embedding) -> real,
                complete: CompletionRequest -> HttpOutcome)
    returns (reply: string, request: CompletionRequest)
    ensures request == RequestFor(query, ChunkTexts(FindRelevantChunks(documentChunks, query, DefaultTopK, embed, similarity).results))
    ensures reply == ReplyFor(complete(request))
  {
    var relevant := FindRelevantChunks(documentChunks, query, DefaultTopK, embed, similarity).results;
    reply, request := GenerateResponse(query, relevant, complete);
  }

  datatype Sender = User | Bot

  /** One entry of the screen's conversation (its id and timestamp come from
      the clock). */
  datatype ScreenMessage = ScreenMessage(text: string, sender: Sender)

  /** `s` neither starts nor ends with whitespace, so trimming keeps it. */
  predicate Trimmed(s: string) {
    s == [] || (!IsWhitespace(s[0]) && !IsWhitespace(s[|s| - 1]))
  }

  /** The state of the `AdvancedRAGChatbot` screen. */
  class ChatScreen {
    var messages: seq<ScreenMessage>
    var inputText: string
    var documentChunks: seq<EmbeddedChunk>
    var documentName: string
    var apiKey: string
    var showApiModal: bool
    var tempApiKey: string

    /** The key dialog is shown exactly while no key is set, a set key is
        trimmed, and the stored chunks are in chunk order. */
    predicate Valid()
      reads this
    {
      && (showApiModal <==> apiKey == "")
      && Trimmed(apiKey)
      && InChunkOrder(documentChunks)
    }

    /** The screen as first rendered: no key, the key dialog open. */
    constructor ()
      ensures Valid()
      ensures messages == [] && inputText == "" && documentChunks == [] && documentName == ""
      ensures apiKey == "" && showApiModal && tempApiKey == ""
    {
      messages := [];
      inputText := "";
      documentChunks := [];
      documentName := "";
      apiKey := "";
      showApiModal := true;
      tempApiKey := "";
    }

    /** Typing into the key dialog. */
    method EditApiKey(text: string)
      requires Valid()
      modifies this
      ensures Valid()
      ensures tempApiKey == text
      ensures messages == old(messages) && inputText == old(inputText)
      ensures documentChunks == old(documentChunks) && documentName == old(documentName)
      ensures apiKey == old(apiKey) && showApiModal == old(showApiModal)
    {
      tempApiKey := text;
    }

    /** Typing into the message box. */
    method EditInput(text: string)
      requires Valid()
      modifies this
      ensures Valid()
      ensures inputText == text
      ensures messages == old(messages) && tempApiKey == old(tempApiKey)
      ensures documentChunks == old(documentChunks) && documentName == old(documentName)
      ensures apiKey == old(apiKey) && showApiModal == old(showApiModal)
    {
      inputText := text;
    }

    /** `saveApiKey`: a blank entry only raises the alert; otherwise the
        trimmed entry becomes the key, the dialog closes and the entry is
        cleared. When the key changes, the `[apiKey]` effect replaces the
        conversation with the greeting. */
    method SaveApiKey() returns (alert: Option<string>)
      requires Valid()
      modifies this
      ensures Valid()
      ensures Trim(old(tempApiKey)) == "" ==>
        && alert == Some(MissingKeyAlert)
        && messages == old(messages) && inputText == old(inputText) && tempApiKey == old(tempApiKey)
        && documentChunks == old(documentChunks) && documentName == old(documentName)
        && apiKey == old(apiKey) && showApiModal == old(showApiModal)
      ensures Trim(old(tempApiKey)) != "" ==>
        && alert == None
        && apiKey == Trim(old(tempApiKey)) && !showApiModal && tempApiKey == ""
        && messages == (if apiKey != old(apiKey) then [ScreenMessage(Greeting, Bot)] else old(messages))
        && inputText == old(inputText)
        && documentChunks == old(documentChunks) && documentName == old(documentName)
    {
      var entered := Trim(tempApiKey);
      if entered == "" {
        alert := Some(MissingKeyAlert);
        return;
      }
      alert := None;
      var previous := apiKey;
      TrimShape(tempApiKey);
      apiKey := entered;
      showApiModal := false;
      tempApiKey := "";
      if apiKey != previous {
        messages := [ScreenMessage(Greeting, Bot)];
      }
    }

    /** The part of `processDocument` after the text is read: the content is
        chunked at 800 characters, at most 10 chunks are embedded, and the
        ones with an embedding become the stored chunks. Returns their number
        and the texts sent to the embedding provider. */
    method ProcessDocument(content: string, embed: string -> Option<Embedding>) returns (count: nat, sent: seq<string>)
      requires Valid()
      modifies this
      ensures Valid()
      ensures documentChunks == Ingested(content, embed)
      ensures count == |documentChunks| && count <= MaxEmbeddedChunks
      ensures sent == EmbeddingRequests(content)
      ensures messages == old(messages) && inputText == old(inputText) && tempApiKey == old(tempApiKey)
      ensures documentName == old(documentName)
      ensures apiKey == old(apiKey) && showApiModal == old(showApiModal)
    {
      var kept;
      kept, count, sent := Ingest(content, embed);
      documentChunks := kept;
    }

    /** `handleSendMessage`: nothing happens for blank input or without a key.
        Otherwise the trimmed input is posted as the user's message, the box
        is cleared, the top 3 stored chunks for it are retrieved, one request
        is sent, and the reply is posted as the bot's message. Returns the
        request sent, if any. */
    method HandleSendMessage(embed: string -> Option<Embedding>,
                             similarity: (Embedding, Embedding) -> real,
                             complete: CompletionRequest -> HttpOutcome)
      returns (sent: Option<CompletionRequest>)
      requires Valid()
      modifies this
      ensures Valid()
      ensures Trim(old(inputText)) == "" || old(apiKey) == "" ==>
        && sent == None
        && messages == old(messages) && inputText == old(inputText)
      ensures Trim(old(inputText)) != "" && old(apiKey) != "" ==>
        var userMessage := Trim(old(inputText));
        var relevant := FindRelevantChunks(old(documentChunks), userMessage, DefaultTopK, embed, similarity).results;
        && sent == Some(RequestFor(userMessage, ChunkTexts(relevant)))
        && inputText == ""
        && messages == old(messages) + [ScreenMessage(userMessage, User), ScreenMessage(ReplyFor(complete(sent.value)), Bot)]
      ensures tempApiKey == old(tempApiKey)
      ensures documentChunks == old(documentChunks) && documentName == old(documentName)
      ensures apiKey == old(apiKey) && showApiModal == old(showApiModal)
    {
      if Trim(inputText) == "" || apiKey == "" {
        sent := None;
        return;
      }
      var userMessage := Trim(inputText);
      inputText := "";
      messages := messages + [ScreenMessage(userMessage, User)];
      var reply, request := Answer(documentChunks, userMessage, embed, similarity, complete);
      messages := messages + [ScreenMessage(reply, Bot)];
      sent := Some(request);
    }

    /** `clearChat`: the conversation becomes the one "cleared" greeting. */
    method ClearChat()
      requires Valid()
      modifies this
      ensures Valid()
      ensures messages == [ScreenMessage(ClearedGreeting, Bot)]
      ensures inputText == old(inputText) && tempApiKey == old(tempApiKey)
      ensures documentChunks == old(documentChunks) && documentName == old(documentName)
      ensures apiKey == old(apiKey) && showApiModal == old(showApiModal)
    {
      messages := [ScreenMessage(ClearedGreeting, Bot)];
    }

    /** `resetApiKey`: the key, the conversation and the document are dropped
        and the key dialog opens again. */
    method ResetApiKey()
      requires Valid()
      modifies this
      ensures Valid()
      ensures apiKey == "" && showApiModal
      ensures messages == [] && documentChunks == [] && documentName == ""
      ensures inputText == old(inputText) && tempApiKey == old(tempApiKey)
    {
      apiKey := "";
      showApiModal := true;
      messages := [];
      documentChunks := [];
      documentName := "";
    }
  }
}
