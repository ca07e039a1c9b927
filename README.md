# A verified model of the ExpoRAGChatBot retrieval pipeline

ExpoRAGChatBot is a React Native chat app that answers questions about an
uploaded document with retrieval-augmented generation. This project models
the core of that pipeline in Dafny and proves properties of the model.

The main chat screen (`app/index.tsx`) does the following:

- It cuts the document text into sentence-aware chunks (`chunkText`).
- It embeds the first ten chunks and keeps the ones whose embedding came back (`processDocument`).
- It ranks the stored chunks against the embedded question and keeps the top three (`findRelevantChunks`).
- It builds the chat-completion request and maps its outcome to the bot's reply (`generateResponse`).
- It guards its state changes (`saveApiKey`, `handleSendMessage`, `clearChat`, `resetApiKey`).

The document library hook (`hooks/useDocuments.ts`) does the following:

- It cuts uploads into fixed 1000-character chunks.
- It appends documents on upload and filters them on delete.
- It searches by lower-cased keyword inclusion.

The chat tab's `chatWithOpenAI` (`lib/opeanai.ts`) is modelled as a pure
function of the stored key, the message, the context and the endpoint's
answer.

Outside services become parameters:

- the embedding endpoint is `embed: string -> Option<Embedding>`;
- the similarity score of two embeddings is `similarity`;
- the chat-completion endpoint is `complete` or `send: CompletionRequest -> HttpOutcome`.

An `HttpOutcome` is one of three cases:

- `Threw`: the fetch or the JSON parsing threw;
- `NotOk`: a non-OK status, with the optional `error.message` of its body;
- `Ok`: an OK answer, with the content of the first choice.

Modules, one file each:

- `Text`: the JavaScript string operations the code relies on (`trim`, `join`, `includes`, `toLowerCase`, `split(" ")`, decimal rendering).
- `Types`: the records of `types/index.ts` and the HTTP outcome.
- `Chunker`: `chunkText`.
- `Ingestion`: the embedding loop of `processDocument`.
- `Retrieval`: `findRelevantChunks`.
- `ChatApp`: `generateResponse` and the `ChatScreen` class holding the screen's state.
- `DocumentStore`: the document hook, with the `DocumentLibrary` class.
- `OpenAIChat`: `chatWithOpenAI`.

Behaviour of the code that the model keeps, and that a reader might not
expect:

- The keyword search splits the query on a single space character, not on
  whitespace in general, so an empty query or a run of spaces produces an
  empty query word. An empty word matches every chunk (`EmptyWordQueries`).
- The size test of `chunkText` adds the buffer length and the sentence
  length but not the ". " joiner, so a chunk of several sentences can be up
  to `maxChunkSize + 2` long (`MultiSentenceChunkBound`). A single sentence
  longer than `maxChunkSize` becomes a chunk of its own, however long
  (`LongSentenceAlone`).
- Cosine similarity divides by the product of the vector lengths, so a zero
  vector gives NaN. Scores are abstract here, so this is not modelled (see
  "Left out").

## Model

| member | source | states |
|---|---|---|
| Chunker.ChunkText | app/index.tsx:62-81 | The loop returns exactly `ChunkSpec(text, maxChunkSize)`: the greedy packing of the non-blank sentences, each chunk joined by ". " and trimmed. |
| Chunker.SplitSentences | app/index.tsx:63 | Splitting at maximal runs of `.`, `!`, `?` yields at least one piece, and no piece contains a break character. |
| Chunker.SplitSentencesRoundTrip | app/index.tsx:63 | Between each pair of consecutive pieces lies one separator run: non-empty and made of break characters only. Putting the runs back between the pieces gives the text. Every piece other than the first and the last is non-empty, so the runs are maximal. The first piece is non-empty when there are several pieces and the text does not start with a break. |
| Chunker.SplitSentencesConcat | app/index.tsx:63 | Concatenating the pieces gives back the text with exactly its break characters removed, so no other character is lost or reordered. |
| Chunker.NonBlank | app/index.tsx:63 | Filtering on `s.trim()` keeps only non-blank pieces, each one taken from the input. |
| Chunker.NonBlankSingle | app/index.tsx:63 | A single piece is kept exactly when it is not blank. |
| Chunker.NonBlankAppend | app/index.tsx:63 | Filtering a concatenation filters each part in turn, so the kept pieces keep their order. |
| Chunker.NonBlankComplete | app/index.tsx:63 | Every non-blank piece is kept. |
| Chunker.NonBlankEmptyIff | app/index.tsx:63 | The filter leaves nothing exactly when every piece is blank. |
| Chunker.SentencesNonEmpty | app/index.tsx:63 | Every sentence that survives the filter is non-empty. |
| Chunker.PackIsGreedy | app/index.tsx:64-74 | The packing meets the reference definition of greedy packing. The groups are non-empty and hold the sentences in order. Each sentence that joined a group fitted: buffer length plus sentence length is at most the maximum. Each new group was opened because its first sentence did not fit in the previous group. |
| Chunker.ChunksPartitionSentences | app/index.tsx:64-78 | The groups flatten back to the sentence list. Chunk k is the trimmed join of group k. There are at most as many chunks as sentences, and at least one chunk when there is a sentence. |
| Chunker.MultiSentenceChunkBound | app/index.tsx:68-72 | A chunk with two or more sentences is at most `max + 2` long, because the size test does not count the ". " joiner. |
| Chunker.GroupFitsBounds | app/index.tsx:68-72 | In a greedily packed group, every sentence after the first is at most `max` long, and the first two sentences together are at most `max` long. |
| Chunker.LongSentenceAlone | app/index.tsx:68-70 | A sentence longer than `max` forms a chunk on its own, which is that sentence trimmed. |
| Chunker.ChunksTrimmed | app/index.tsx:69-77 | Every chunk is non-empty and neither starts nor ends with whitespace. |
| Chunker.NoChunksIffBlank | app/index.tsx:63-79 | No chunk is produced exactly when every split piece is blank; the empty text gives no chunks. |
| Ingestion.EmbedLimit | app/index.tsx:158 | The loop bound is the smaller of the chunk count and 10. |
| Ingestion.KeptCount | app/index.tsx:157-168 | The number of kept chunks equals the number of positions whose embedding succeeded. |
| Ingestion.KeptEntries | app/index.tsx:161-166 | Every kept entry carries a position below the bound, the chunk text at that position, and the embedding the provider returned for it. |
| Ingestion.KeptIncreasing | app/index.tsx:158-167 | Kept entries are in strictly increasing chunk position. |
| Ingestion.KeptComplete | app/index.tsx:158-167 | A position below the bound is kept if and only if its embedding succeeded. |
| Ingestion.KeptFaithful | app/index.tsx:157-168 | All four facts above, for one bound. |
| Ingestion.CountEmbeddedBound | app/index.tsx:158-167 | At most one chunk is kept per embedded position. |
| Ingestion.EmbedChunks | app/index.tsx:157-168 | The loop returns exactly the kept entries for the smaller of the chunk count and 10. It also returns the texts sent to the provider: each of those first chunks once, in order, failures included. |
| Ingestion.Ingest | app/index.tsx:153-171 | Chunking at 800 and embedding return the ingested entries, in increasing position with indices below 10. The count returned is their number, at most 10. The texts sent are the first chunks, at most 10 of them. |
| Ingestion.KeptInChunkOrder | app/index.tsx:158-167 | The loop's entries have positions below 10, strictly increasing. |
| Ingestion.IngestedInChunkOrder | app/index.tsx:153-170 | The stored chunks have positions below 10, strictly increasing. |
| Ingestion.IngestedWereSent | app/index.tsx:154-167 | Every stored chunk is the text sent at its position, with the embedding returned for that text. A text sent is stored exactly when its embedding came back. |
| Ingestion.EmbeddingRequests | app/index.tsx:158-160 | No more than 10 texts are sent for embedding. |
| Retrieval.InsertRanked | app/index.tsx:241-242 | Inserting a position grows the order by one and adds exactly that position. |
| Retrieval.InsertRankedKeepsOrder | app/index.tsx:241-242 | Inserting a later position after every position whose score is not lower keeps the order ranked: higher score first, ties in input order. |
| Retrieval.Rank | app/index.tsx:241-242 | Ranking the first n positions gives n positions, all below n. |
| Retrieval.RankIsStableDescending | app/index.tsx:241-242 | The ranking is the stable descending order of the scores, which is what the stable `toSorted` with `b.similarity - a.similarity` produces. |
| Retrieval.FindRelevantChunks | app/index.tsx:230-244 | With no stored chunks, the result is empty and nothing is sent for embedding. Otherwise the query is sent for embedding exactly once. A failed query embedding gives an empty result. There are never more than `topK` results. |
| Retrieval.RetrievalRanksTopK | app/index.tsx:236-243 | The result has as many entries as the smaller of `topK` and the number of stored chunks. They are the first entries of a stable descending order of all scored chunks. Each is a stored chunk with its own score, and the scores do not increase. |
| Retrieval.TiesKeepChunkOrder | app/index.tsx:241-243 | For chunks already in position order, equal scores come out in position order. |
| Retrieval.IngestedTiesKeepChunkOrder | app/index.tsx:158-243 | For the chunks that ingestion stored, equal scores come out in position order. |
| ChatApp.ChunkTexts | app/index.tsx:253-254 | The context texts are the retrieved chunks' texts, one per chunk, in order. |
| ChatApp.UserPromptCarriesContext | app/index.tsx:250-258 | The user prompt ends with the question. It equals the bare question exactly when there is no context. It contains every context text. |
| ChatApp.BuildRequest | app/index.tsx:248-279 | Building the prompts step by step gives the request for the query and the chunk texts. The model is gpt-3.5-turbo, with 500 tokens and temperature 0.7. The system prompt carries the context or the general-knowledge instruction. |
| ChatApp.Apology | app/index.tsx:290-295 | The reply is the API-key apology exactly when the error message contains "API key", and the generic apology otherwise. |
| ChatApp.ReplyFor | app/index.tsx:281-295 | An OK answer with content gives that content. An OK answer without a first choice gives the generic apology. A failure gives the API-key apology exactly when its message contains "API key" (the body's `error.message`, or the status text when that is missing or empty). Every non-content outcome is one of the two apologies. |
| ChatApp.StatusOnlyFailureIsGeneric | app/index.tsx:281-285 | A non-OK answer without an error message gets the generic apology, since "HTTP error! status: N" never contains "API key". |
| ChatApp.GenerateResponse | app/index.tsx:246-297 | One request is sent, the one the prompts define, and the reply is the mapping of its outcome. |
| ChatApp.Answer | app/index.tsx:307-313 | The request holds the texts of the top three retrieved chunks, and the reply is the mapping of the endpoint's answer. |
| ChatApp.ChatScreen.constructor | app/index.tsx:23-31 | The initial state: no messages or chunks, an empty key, and the key dialog shown. |
| ChatApp.ChatScreen.EditApiKey | app/index.tsx:360-363 | Typing in the key dialog changes only `tempApiKey`. |
| ChatApp.ChatScreen.EditInput | app/index.tsx:450-453 | Typing in the message box changes only `inputText`. |
| ChatApp.ChatScreen.SaveApiKey | app/index.tsx:39-60 | Blank entry: the alert is returned and nothing else changes. Otherwise the key becomes the trimmed entry, the dialog closes, the entry is cleared, and the conversation becomes the greeting when the key changed. The dialog is shown exactly while the key is empty. |
| ChatApp.ChatScreen.ProcessDocument | app/index.tsx:153-171 | The stored chunks become the ingested entries of the text, and the count returned is their number (at most 10). The texts sent for embedding are returned, and nothing else changes. |
| ChatApp.ChatScreen.HandleSendMessage | app/index.tsx:299-313 | With a blank input or no key, nothing is sent and nothing changes. Otherwise the input is cleared, and the conversation gains the trimmed user message and the reply to the one request sent. Key, dialog and chunks stay as they were. |
| ChatApp.ChatScreen.ClearChat | app/index.tsx:325-334 | The conversation becomes the single "Chat cleared!" greeting; nothing else changes. |
| ChatApp.ChatScreen.ResetApiKey | app/index.tsx:340-346 | The key is cleared, the dialog is shown, and the conversation, the chunks and the document name are emptied. |
| DocumentStore.DocumentChunksOf | hooks/useDocuments.ts:118-140 | One chunk per 1000-character window. Chunk k starts at 1000·k and spans up to 1000 characters. Its id is `name-chunk-<offset>`, its embedding is empty, and it is labelled "Part k+1". |
| DocumentStore.CreateDocumentChunks | hooks/useDocuments.ts:118-140 | The loop with steps of 1000 returns exactly those chunks. |
| DocumentStore.WindowPrefixConcat | hooks/useDocuments.ts:125-126 | The first k windows concatenate to the first 1000·k characters of the content (all of it when it is shorter). |
| DocumentStore.ChunksRebuildContent | hooks/useDocuments.ts:125-126 | The chunk contents concatenate back to the whole document. |
| DocumentStore.ChunkSizes | hooks/useDocuments.ts:122-130 | There are chunks exactly when the content is non-empty. Every chunk but the last has 1000 characters, and the last has between 1 and 1000. |
| DocumentStore.ScorePositiveIff | hooks/useDocuments.ts:91-95 | The relevance score is positive exactly when some query word occurs in the chunk content. |
| DocumentStore.SearchSpec | hooks/useDocuments.ts:81-106 | A search returns at most 5 texts. |
| DocumentStore.SearchDocuments | hooks/useDocuments.ts:81-106 | The nested loops return exactly the first 5 matching chunk texts, in document and chunk order. |
| DocumentStore.MatchingMembers | hooks/useDocuments.ts:88-97 | A text is collected exactly when it is the content of a chunk that some lower-cased query word occurs in. |
| DocumentStore.MatchingAppend | hooks/useDocuments.ts:88-99 | Collecting over two chunk lists is collecting over each in turn. |
| DocumentStore.AllChunksAppend | hooks/useDocuments.ts:88-89 | The chunks of two document lists are the chunks of each in turn. |
| DocumentStore.SearchSound | hooks/useDocuments.ts:86-101 | Every result is the content of a stored chunk of some document that contains a query word, after lower-casing both. |
| DocumentStore.SearchInDocumentOrder | hooks/useDocuments.ts:88-101 | Searching documents `a + b` gives the first 5 of a's hits followed by b's hits, and gives all of them when there are at most 5. |
| DocumentStore.EmptyWordMatchesAll | hooks/useDocuments.ts:91-95 | An empty query word makes every chunk relevant. |
| DocumentStore.DoubledSeparatorGivesEmptyPiece | hooks/useDocuments.ts:86 | Two adjacent spaces in a query produce an empty word. |
| DocumentStore.EmptyWordQueries | hooks/useDocuments.ts:86-101 | An empty query, or one containing two adjacent spaces, returns the first 5 stored chunk texts whatever they contain. |
| DocumentStore.WithoutIdMembers | hooks/useDocuments.ts:72 | After deletion, the remaining documents are exactly the stored ones with another id. |
| DocumentStore.WithoutIdAppend | hooks/useDocuments.ts:72 | Deletion distributes over concatenation, so order is kept. |
| DocumentStore.WithoutAbsentId | hooks/useDocuments.ts:72 | Deleting an id no document has changes nothing. |
| DocumentStore.UploadThenDelete | hooks/useDocuments.ts:59-72 | Deleting a freshly uploaded document, whose id is new, restores the previous list. |
| DocumentStore.DocumentLibrary.constructor | hooks/useDocuments.ts:6-8 | The library starts empty. |
| DocumentStore.DocumentLibrary.UploadDocument | hooks/useDocuments.ts:41-63 | The new document holds the name, content and fixed-width chunks, with size falling back to 0 and type falling back to "text/plain". It is appended to the list and returned. |
| DocumentStore.DocumentLibrary.DeleteDocument | hooks/useDocuments.ts:70-74 | The list becomes the documents whose id differs. |
| DocumentStore.DocumentLibrary.Search | hooks/useDocuments.ts:81-101 | The search over the current list returns the search specification and leaves the list unchanged. |
| OpenAIChat.ContextText | lib/opeanai.ts:31-34 | The context preamble is empty exactly when there is no context. |
| OpenAIChat.PromptCarriesContext | lib/opeanai.ts:31-39 | The prompt contains the message and every context entry. |
| OpenAIChat.ChatWithOpenAI | lib/opeanai.ts:14-96 | Without a stored non-empty key, the "configure your key" response is returned and no request is sent. With a key, exactly the request for the prompt is sent. A throw gives the network-error response and a non-OK status gives the API-error response, both with no sources. An OK answer has no error; its sources are ["Document context"] exactly when there is context; its content passes through, or "No response generated" when missing or empty. The error is absent exactly when a request was sent and answered OK. The response is never empty. |
| Text.TrimShape | app/index.tsx:53-57 | The trimmed text is the input with a blank prefix and a blank suffix cut off, so only whitespace is removed. It has no whitespace at either end, and it is empty exactly when the input is blank. |
| Text.SplitOnChar | hooks/useDocuments.ts:86 | `split` on one character gives at least one piece, no piece contains the separator, and joining the pieces with it gives back the input. |

## Left out

- Cosine similarity: the floating-point score is the abstract parameter `similarity`, so NaN on a zero vector and rounding are not modelled. The ranking is proved for any real scores.
- `getEmbedding` and the two fetch calls of the app: the network, the request headers (the `Authorization` bearer key) and the JSON parsing are the oracles `embed` and `complete`/`send`. The model records the texts sent for embedding: the first ten chunks during ingestion (`EmbedChunks`, `Ingest`, `ChatScreen.ProcessDocument`) and the query during retrieval (`FindRelevantChunks`). It also records the completion request that was sent.
- ChatApp.ReplyFor: `Ok(None)` stands for both an empty `choices` list, which throws and gets the generic apology, and a first choice without content, where the code returns `undefined` as the bot text. The model gives the generic apology in both cases.
- Reading files: `FileSystem.readAsStringAsync`, the media-type dispatch of `processDocument` with its placeholder texts for PDF and Word files, and the document picker (`pickDocument` with its progress messages and alerts). The ingested text is a parameter.
- Persistence: the AsyncStorage load and save of `useDocuments` and `useMessages`, and the key lookup in `chatWithOpenAI`, which is a parameter. A failure of that lookup, which would give the network-error response, is not modelled.
- Clocks: `Date.now()` ids and timestamps. The document id is a parameter and screen messages carry no id or timestamp.
- The `isLoading` and `isProcessing` flags, rendering, navigation and the components (MessageBubble, DocumentCard, TypingIndicator, UploadProgress).
- Concurrency: the async interleaving of React state updates is not modelled. Each operation runs to completion on the state it starts from.
- The outer `catch` of `handleSendMessage` and the `catch` of `searchDocuments` are left out: the modelled functions never throw, so neither handler can run.
- Text.ToLower: only ASCII `A`–`Z` are lowered. Full Unicode case mapping is not modelled.
- String lengths count Dafny characters, while JavaScript counts UTF-16 code units. The two differ only for characters outside the Basic Multilingual Plane.
