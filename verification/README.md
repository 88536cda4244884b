# private-agent pipeline core in Dafny

This project models the core of *private-agent*, a local retrieval-augmented chat service.
Its pieces are:

- **Agent manager.** It keeps a registry of agents. It assembles the context block, the
  system prompt and the windowed conversation prompt. It formats the answer's sources. It
  writes each exchange back into the vector store on a best-effort basis. `ask_agent` ties
  these steps together.
- **Vector-store adapter.** It ingests a document as chunk records, queries and lists the
  records, deletes one record, and clears the store. The store is modelled as a sequence
  of `(id, text, metadata, embedding)` records.
- **Embedding adapter.** A lazy-load state machine: `Unloaded` or `Loaded(handle)`.
- **Generation client.** It builds the request payload, consumes a streamed reply line by
  line, reads a non-streamed reply, and maps failures to messages. It also runs the
  server's health probe.
- **Upload endpoints.** Their ordered validation, the temporary file and the shape of the
  response.
- **Health endpoint.** Its status table.

Every external capability is a parameter of the model: the text splitters, the Chroma
collection's search ranking and faults, the sentence-transformer loader and encoder, the
model server's replies, uuid generation and the clock. All operations are pure functions
of these parameters and of the modelled state.

Modules, one per source file:

- `Wrappers`: `Option` and `Result`.
- `Text`: Python string behaviour the code relies on. This covers `strip`, `lower`,
  `os.path.splitext`, `os.path.basename`, `join`, decimal rendering and
  slicing-with-ellipsis. It also has a newline `Split`, which the code never calls. It is
  there only to state that the newline join can be undone (`SplitJoin`,
  `ConversationLines`).
- `Schemas`: record shapes and configuration defaults.
- `Embeddings`
- `ChromaStore`
- `OllamaClient`
- `AgentManager`
- `Upload`
- `Health`
- `MemoryApi`: only the delete route, which the finding below concerns.

Notes on the code as written:

- `delete_memory` reports success for an id that was never stored. It returns false only
  when the underlying delete raises. Its caller, the delete route at
  `private-agent/backend/app/api/memory.py:31-33`, turns false into a 404 "not found", so
  it evidently expects false for an unknown id. See "## Findings".
- The conversation write-back uses a splitter built without the newline separator. It is
  modelled as its own oracle, distinct from the ingestion splitter.
- The write-back is not idempotent. Every call appends new records, under the ids the id
  source yields for that call.
- Only the local encoder backend exists. There is no remote embedding backend.
- The document upload's response `filename` is ingestion's basename of the temporary
  file, such as "tmpab12cd.pdf", not the name the client uploaded.
- The upload response's `file_size` is ingestion's count of characters of the extracted
  text. The ingestion metadata's `file_size` is the byte length of the upload.
- `private-agent/backend/app/core/ollama_client.py` does not import as written. `List` is
  used but never imported, and the `generate` coroutine both yields and returns a value.
  Its streamed and non-streamed branches are therefore modelled as two separate functions
  (`GenerateStream`, `Generate`), each with the logic the code states. `ask_agent` is
  modelled as calling the non-streamed one.

## Model

| member | source | states |
|---|---|---|
| `Schemas.GetMeta` | private-agent/backend/app/core/agent_manager.py:87-88 | `metadata.get(key, default)`: the stored value when the key is present, the default otherwise |
| `Text.StripEmptyIffBlank` | private-agent/backend/app/core/chroma_store.py:61-62 | `not text.strip()` holds exactly when every character is whitespace |
| `Text.SplitExt` | private-agent/backend/app/core/chroma_store.py:183 | `os.path.splitext`: the two parts concatenate back to the path; the extension is empty or a dot with no further dot or slash; it is non-empty exactly when the last component has a dot preceded by a non-dot |
| `Text.Basename` | private-agent/backend/app/core/chroma_store.py:77 | `os.path.basename`: a suffix of the path that contains no slash |
| `Text.BasenameIsLastComponent` | private-agent/backend/app/core/chroma_store.py:77 | the basename is preceded by a slash in the path, or is the whole path when it has no slash, so it is the longest slash-free suffix |
| `Text.BasenameOfJoin` | private-agent/backend/app/core/chroma_store.py:77 | the basename of "dir/name" is name for a slash-free name |
| `Text.Truncate` | private-agent/backend/app/core/agent_manager.py:89 | text of at most n characters is unchanged; longer text becomes its first n characters followed by "..." |
| `Text.Join` | private-agent/backend/app/core/agent_manager.py:92 | `sep.join(parts)` starts with the first part and ends with the last |
| `Text.SplitJoin` | private-agent/backend/app/core/agent_manager.py:110 | splitting a newline-joined list of newline-free parts at newlines gives the parts back |
| `Text.NatToString` | private-agent/backend/app/core/chroma_store.py:78 | the decimal rendering of a number is a non-empty string of digits, one digit long exactly below 10 |
| `Text.NatToStringInjective` | private-agent/backend/app/core/chroma_store.py:78 | different numbers render differently |
| `Embeddings.LoadModel` | private-agent/backend/app/core/embeddings.py:17-30 | the loader is consulted only while unloaded; success caches the handle; a missing library gives "Embedding model not available" and any other failure "Failed to load embedding model: ...", both leaving the adapter unloaded |
| `Embeddings.GetEmbeddings` | private-agent/backend/app/core/embeddings.py:32-52 | an empty batch returns [] without loading; otherwise load errors propagate as they are, the encoder's vectors are returned unchanged (one per text when the encoder promises so), and an encoder failure becomes "Embedding generation failed: ..." with no partial result |
| `Embeddings.GetEmbeddingDimension` | private-agent/backend/app/core/embeddings.py:54-59 | the length of the first vector of a one-text probe, 0 when none comes back; succeeds exactly when loaded and the probe encodes |
| `Embeddings.LoadedIsFinal` | private-agent/backend/app/core/embeddings.py:17-19 | once loaded, no sequence of calls loads again |
| `Embeddings.AtMostOneLoad` | private-agent/backend/app/core/embeddings.py:14-24 | any sequence of calls loads the model at most once, and never when it starts loaded |
| `ChromaStore.Batch` | private-agent/backend/app/core/chroma_store.py:87-92 | a batch of equal-length lists makes one record per position, pairing id, document, metadata and embedding of that position |
| `ChromaStore.Add` | private-agent/backend/app/core/chroma_store.py:87-92 | `collection.add` appends the whole batch exactly when it does not raise and the four lists have equal length; otherwise nothing is added |
| `ChromaStore.Dispatch` | private-agent/backend/app/core/chroma_store.py:183-213 | ".txt" selects the text reader, ".pdf" the PDF reader, ".docx" and ".doc" the Word reader; any other extension is "Unsupported file format: <ext>" |
| `ChromaStore.ExtractText` | private-agent/backend/app/core/chroma_store.py:181-213 | the lower-cased extension decides: an unsupported one fails before any reader runs, a supported one gives that reader's outcome |
| `ChromaStore.ChunkBaseValues` | private-agent/backend/app/core/chroma_store.py:76-81 | chunk i of n carries filename = basename, chunk_id = "chunk_i", chunk_index = i, total_chunks = n and file_path |
| `ChromaStore.ChunkMetadata` | private-agent/backend/app/core/chroma_store.py:75-84 | the chunk keys merged with the caller's metadata, the caller's value winning on a clash |
| `ChromaStore.ChunkLabelsDistinct` | private-agent/backend/app/core/chroma_store.py:78 | different chunks of one document get different chunk_id labels |
| `ChromaStore.ChunkIds` | private-agent/backend/app/core/chroma_store.py:72 | the i-th id of the batch is the i-th id the id source yields for that call, one per chunk, in chunk order; the conversation write-back draws its ids the same way |
| `ChromaStore.ChunkMetadatas` | private-agent/backend/app/core/chroma_store.py:75-84 | one metadata per chunk, in chunk order |
| `ChromaStore.IngestDocument` | private-agent/backend/app/core/chroma_store.py:56-103 | every failure leaves the collection unchanged and reads "Document ingestion failed: ..."; blank text fails with "No text content found in file" before embedding; on success the n chunks are appended in one batch with their ids, vectors and metadata, and the summary is (n, basename, length of the text) |
| `ChromaStore.IngestSucceedsWhenStepsSucceed` | private-agent/backend/app/core/chroma_store.py:56-103 | ingestion succeeds whenever the file is read, its text is not blank, the encoder returns one vector per chunk, and the add does not raise |
| `ChromaStore.BlankFileRejected` | private-agent/backend/app/core/chroma_store.py:60-62 | whitespace-only text fails without touching the encoder or the store |
| `ChromaStore.FormatQuery` | private-agent/backend/app/core/chroma_store.py:119-126 | one hit per document of the first row, with metadata and distance of the same position and distance 0.0 when none came back; no documents gives []; a shorter metadata or distance row is an index error |
| `ChromaStore.Query` | private-agent/backend/app/core/chroma_store.py:105-133 | embeds the query once; succeeds exactly when embedding returns a vector and the search does not raise, and then returns the ranked records as hits in rank order; failures read "Query failed: ..." |
| `ChromaStore.QueryEmptyCollection` | private-agent/backend/app/core/chroma_store.py:119-129 | querying an empty collection returns no hits rather than an error |
| `ChromaStore.QueryReturnsRankedRecords` | private-agent/backend/app/core/chroma_store.py:109-126 | with a search that honours n_results, query returns at most top_k hits, each a stored record with its distance |
| `ChromaStore.Fetch` | private-agent/backend/app/core/chroma_store.py:138 | `collection.get` returns ids, documents and metadatas index-aligned with the stored records |
| `ChromaStore.FormatMemories` | private-agent/backend/app/core/chroma_store.py:140-147 | one memory per document with the id and metadata of the same position; a shorter id or metadata list is an index error |
| `ChromaStore.ListMemories` | private-agent/backend/app/core/chroma_store.py:135-154 | every stored record once, in store order, as (id, text, metadata); an empty store gives []; a fault reads "Failed to list memories: ..." |
| `ChromaStore.WithoutId` | private-agent/backend/app/core/chroma_store.py:159 | deleting by id keeps exactly the records with other ids |
| `ChromaStore.DeleteMemory` | private-agent/backend/app/core/chroma_store.py:156-164 | true exactly when the delete does not raise, and then the id's records are gone; false leaves the store as it was |
| `ChromaStore.DeleteUnknownIdSucceeds` | private-agent/backend/app/core/chroma_store.py:156-161 | deleting an id that is not stored returns true and changes nothing |
| `ChromaStore.DeleteStoredMemory` | private-agent/backend/app/api/memory.py:31-33 | the delete as its caller reads it: true exactly when the id was stored and the delete does not raise, and then the store shrinks by the id's records; false leaves the store as it was |
| `ChromaStore.WithoutIdShrinks` | private-agent/backend/app/core/chroma_store.py:159 | deleting an id that occurs makes the store strictly smaller |
| `ChromaStore.ListAfterDelete` | private-agent/backend/app/core/chroma_store.py:156-164 | after a successful delete, listing omits the id and keeps every other record |
| `ChromaStore.ClearStore` | private-agent/backend/app/core/chroma_store.py:166-179 | true exactly when both steps succeed, leaving an empty collection of the same name; a failed drop changes nothing; a failed recreation has already discarded the records |
| `ChromaStore.ClearThenListAndAdd` | private-agent/backend/app/core/chroma_store.py:166-179 | a cleared store lists nothing, and a later add stores exactly the new batch |
| `OllamaClient.ChooseModel` | private-agent/backend/app/core/ollama_client.py:39 | `model_name or self.model`: the given name when non-empty, the default otherwise |
| `OllamaClient.BuildPayload` | private-agent/backend/app/core/ollama_client.py:29-56 | the payload always carries model, prompt, stream, num_predict (the caller's limit, 512 when none is given), temperature 0.7 and top_p 0.9; "system" exactly when the system prompt is non-empty; "stop" exactly when the stop list is non-empty |
| `OllamaClient.Consumed` | private-agent/backend/app/core/ollama_client.py:67-77 | the loop reads lines through the first done record, or all of them when none is done |
| `OllamaClient.StreamStopsAtDone` | private-agent/backend/app/core/ollama_client.py:67-77 | the yielded fragments are the responses of the records up to and including the first done record, in order |
| `OllamaClient.LinesAfterDoneIgnored` | private-agent/backend/app/core/ollama_client.py:74-75 | lines after a done record never reach the caller |
| `OllamaClient.HandleLine` | private-agent/backend/app/core/ollama_client.py:68-77 | a blank or malformed line is skipped; a record yields its response if present and stops the loop if done |
| `OllamaClient.ConsumeStream` | private-agent/backend/app/core/ollama_client.py:67-77 | the loop's fragments and the number of lines it reads agree with the stream definition |
| `OllamaClient.ConsumedCharacterised` | private-agent/backend/app/core/ollama_client.py:67-77 | the read count is the first position after a done record, or the end |
| `OllamaClient.MessagesDistinguishKinds` | private-agent/backend/app/core/ollama_client.py:87-95 | each message starts with its own class's leading words ("Request timed out", "Ollama API error: ", "Failed to generate response: ") and with neither of the others', so a caller tells the three apart |
| `OllamaClient.Generate` | private-agent/backend/app/core/ollama_client.py:78-95 | a 2xx JSON object gives its "response" field or "" when absent; a 2xx body that is not JSON or not an object fails with the parser's or lookup's message; a non-2xx status is "Ollama API error: <code>"; a timeout and any other failure map to their own classes |
| `OllamaClient.GenerateStream` | private-agent/backend/app/core/ollama_client.py:59-77 | a non-2xx status yields nothing and is an API error; otherwise the stream loop's fragments; a connection failure is raised exactly when no done record came before it, and a cleanly ended stream raises nothing |
| `OllamaClient.HealthCheck` | private-agent/backend/app/core/ollama_client.py:19-27 | true exactly when the probe answers status 200; false for other statuses and for any exception |
| `AgentManager.InitialRegistry` | private-agent/backend/app/core/agent_manager.py:15-23 | the registry starts with exactly the "default" agent and no model override |
| `AgentManager.CreateAgent` | private-agent/backend/app/core/agent_manager.py:162-175 | an existing id fails with "Agent <id> already exists" and leaves the registry unchanged; a new id is added last, every other agent is untouched, and the registry stays well formed |
| `AgentManager.GetAgent` | private-agent/backend/app/core/agent_manager.py:190-192 | the stored configuration, or None exactly for an unknown id |
| `AgentManager.ListAgents` | private-agent/backend/app/core/agent_manager.py:177-188 | one entry per registered agent, in insertion order, each with its own id and configuration |
| `AgentManager.ListedExactlyOnce` | private-agent/backend/app/core/agent_manager.py:177-188 | every registered agent appears once in the listing, and no unregistered id appears |
| `AgentManager.ListAfterCreate` | private-agent/backend/app/core/agent_manager.py:162-188 | creating an agent appends exactly its entry to the listing |
| `AgentManager.ContextEntries` | private-agent/backend/app/core/agent_manager.py:86-90 | one context line per hit, numbered from 1 in hit order |
| `AgentManager.BuildContext` | private-agent/backend/app/core/agent_manager.py:80-92 | the fixed "No relevant documents ..." sentence exactly when there are no hits; otherwise the header, a blank line, then the numbered lines separated by blank lines |
| `AgentManager.BuildContextAppend` | private-agent/backend/app/core/agent_manager.py:85-92 | one more hit adds one more numbered line at the end, so hit order is kept |
| `AgentManager.ContextEntryText` | private-agent/backend/app/core/agent_manager.py:89-90 | a context line ends with the hit's text when that has at most 500 characters, else with its first 500 characters and "..." |
| `AgentManager.BuildSystemPrompt` | private-agent/backend/app/core/agent_manager.py:94-96 | the base prompt, a blank line, then the context |
| `AgentManager.Window` | private-agent/backend/app/core/agent_manager.py:104 | the last min(5, n) turns, in their original order |
| `AgentManager.HistoryLines` | private-agent/backend/app/core/agent_manager.py:103-109 | each window turn rendered as "role: content", then "user: <input>" |
| `AgentManager.BuildConversationHistory` | private-agent/backend/app/core/agent_manager.py:98-110 | the bare input for an empty history; otherwise the window's turns joined by newlines, oldest first, then a newline and "user: <input>" |
| `AgentManager.OlderTurnsDropped` | private-agent/backend/app/core/agent_manager.py:104 | with more than five turns, the oldest turn does not affect the prompt |
| `AgentManager.LastFiveTurnsSuffice` | private-agent/backend/app/core/agent_manager.py:104 | the prompt for any history of at least five turns equals the prompt for its last five |
| `AgentManager.ConversationLines` | private-agent/backend/app/core/agent_manager.py:103-110 | when nothing contains a newline, the prompt's lines are exactly the window's turns, oldest first, then the input |
| `AgentManager.FormatSources` | private-agent/backend/app/core/agent_manager.py:112-122 | one source per hit in hit order, with "unknown" for missing filename or chunk_id, text cut to 200 characters plus "...", and distance 0.0 when absent |
| `AgentManager.ConversationMetadata` | private-agent/backend/app/core/agent_manager.py:144-150 | chunk i of an exchange is tagged type "conversation", the agent id, its timestamp, filename "conversation" and chunk_id "conv_i" |
| `AgentManager.ConversationMetadatas` | private-agent/backend/app/core/agent_manager.py:144-150 | one metadata per chunk, each with its own clock reading |
| `AgentManager.StoreConversation` | private-agent/backend/app/core/agent_manager.py:124-160 | the chunks of "User: x\nAssistant: y" are appended in one batch, under the ids the id source yields, with their vectors and conversation metadata, exactly when embedding gives one vector per chunk and the add does not raise; otherwise the failure is swallowed and the store is unchanged |
| `AgentManager.ConversationLabelsDistinct` | private-agent/backend/app/core/agent_manager.py:149 | different chunks of one exchange get different chunk_id labels |
| `AgentManager.AskAgent` | private-agent/backend/app/core/agent_manager.py:25-78 | an unknown agent fails with "Agent query failed: Agent <id> not found" and nothing changes; every failure reads "Agent query failed: ..." and leaves the store as it was; a failed retrieval fails before any request is sent; after a successful one, the request is built from the agent, the hits, the history and the input, and the call succeeds exactly when generation does; a generation failure reads "Agent query failed: " followed by that failure's message; success carries the generated text, the formatted sources, the agent's model and the clock reading |
| `AgentManager.AnswerIndependentOfWriteBack` | private-agent/backend/app/core/agent_manager.py:63-64 | whatever the write-back does, the answer is the same |
| `AgentManager.AskPayloadShape` | private-agent/backend/app/core/agent_manager.py:48-61 | the request carries the conversation prompt, the agent's override when non-empty (else the default model), the 4000-token budget, no streaming, and the system prompt with the retrieved context |
| `AgentManager.AskWithEmptyStore` | private-agent/backend/app/core/agent_manager.py:42-67 | with an empty store, the request `ask_agent` sends has the default prompt and the "No relevant documents" sentence as its system prompt and the bare input as its prompt; when the model answers, the call succeeds with that answer and no sources |
| `Upload.IngestTemp` | private-agent/backend/app/api/upload.py:44-66 | the temporary file is always removed after ingestion; an ingestion failure is a 500 with the store unchanged; a success is shaped from ingestion's summary |
| `Upload.DocumentMetadata` | private-agent/backend/app/api/upload.py:46-50 | the upload adds original_filename and file_size = byte length of the content |
| `Upload.UploadDocument` | private-agent/backend/app/api/upload.py:16-72 | a missing filename, then an unsupported extension, then content over 10 MB, each gives 400 with no effect; past validation every failure is a 500, a write fault or a failed clock reading with "Upload failed: " and its message; success copies chunks_created, filename and file_size from ingestion of a temporary file with the same extension |
| `Upload.TextMetadata` | private-agent/backend/app/api/upload.py:87-92 | the text upload adds original_filename, file_size = length of the text, and type "text_input" |
| `Upload.UploadText` | private-agent/backend/app/api/upload.py:74-113 | blank text is a 400 with no effect, and only blank text is; for other text every failure is a 500, a write fault or a failed clock reading with "Text upload failed: " and its message; success reports the caller's filename ("text_input.txt" when none is given) with ingestion's counts |
| `Upload.TempFileRemoved` | private-agent/backend/app/api/upload.py:20-66 | the file system is touched exactly when validation passes (so content of exactly 10 MB is accepted), and a created temporary file is removed unless writing it failed |
| `Upload.TextTempFileRemoved` | private-agent/backend/app/api/upload.py:78-107 | text is written out exactly when it is not blank, and the ".txt" file is removed unless the write failed |
| `Upload.AllowedAreSupported` | private-agent/backend/app/api/upload.py:13 | the accepted extensions are exactly the ones ingestion can read, and each is already lower case |
| `Upload.TempPathKeepsExtension` | private-agent/backend/app/api/upload.py:24-42 | the temporary file's extension is the upload's, so ingestion dispatches it to a reader |
| `Upload.UploadReportsIngestion` | private-agent/backend/app/api/upload.py:52-59 | an accepted upload succeeds exactly when its ingestion does; an ingestion failure is a 500 "Upload failed: " with ingestion's message; the store is ingestion's |
| `Upload.UploadReportsBasename` | private-agent/backend/app/api/upload.py:52-59 | a successful upload reports the basename of the temporary file ingestion read |
| `Upload.TempPathBasename` | private-agent/backend/app/api/upload.py:40-42 | the temporary file's basename is "tmp", the random part and the extension |
| `Upload.DocumentResponseNamesTempFile` | private-agent/backend/app/api/upload.py:52-59 | the response's filename is the temporary file's name, not the uploaded file's |
| `Upload.UploadTextReportsIngestion` | private-agent/backend/app/api/upload.py:81-107 | non-blank text that is written out succeeds exactly when its ingestion does; an ingestion failure is a 500 "Text upload failed: ..."; the store is ingestion's |
| `Health.StatusName` | private-agent/backend/app/api/health.py:25-45 | each status has its own spelling: "healthy", "degraded", "unhealthy" or "error" |
| `Health.Classify` | private-agent/backend/app/api/health.py:25-30 | healthy exactly when both services are up, degraded exactly when one is, unhealthy exactly when neither is |
| `Health.HealthCheck` | private-agent/backend/app/api/health.py:10-45 | the model server is connected exactly when its probe answers 200, the store exactly when listing does not raise; an unexpected exception gives "error" with both flags false |
| `Health.StatusMatchesFlags` | private-agent/backend/app/api/health.py:14-30 | status and probe outcomes determine each other |
| `MemoryApi.Respond` | private-agent/backend/app/api/memory.py:31-35 | true from the adapter becomes "Memory <id> deleted successfully", false becomes a 404 "Memory <id> not found" |
| `MemoryApi.DeleteRouteAsWritten` | private-agent/backend/app/api/memory.py:27-39 | over the adapter as written, the route answers 404 exactly when the delete raises |
| `MemoryApi.UnknownIdReportedDeleted` | private-agent/backend/app/api/memory.py:31-35 | over the adapter as written, an id that was never stored is answered "deleted successfully" |
| `MemoryApi.DeleteRoute` | private-agent/backend/app/api/memory.py:27-39 | over the corrected adapter, 404 exactly for an id not stored or a raising delete; otherwise the id's records are gone |
| `MemoryApi.UnknownIdNotFound` | private-agent/backend/app/api/memory.py:31-33 | over the corrected adapter, an id that was never stored is answered with 404 |

## Left out

- Text splitting: langchain's `CharacterTextSplitter` is an opaque function. Its chunk
  size (500) and overlap (50) are internal to it, and no bound on chunk length is asserted.
- Nearest-neighbour search, persistence and client setup of ChromaDB: the ranking and the
  distances come from a search parameter. Each Chroma call that can raise has a fault
  parameter.
- Sentence-transformer encoding and numpy conversion: the encoder is a parameter.
  Embedding components are opaque reals.
- The bodies of the PDF and Word readers, and all file reads and writes: the reader's
  outcome is a parameter. The temporary file appears only as its path and a log of effects.
- httpx transport, async/await, and the 600 s and 10 s timeouts: a reply or a failure is a
  parameter.
- Floating-point numerics: temperature 0.7, top_p 0.9 and distances are real constants,
  and nothing is computed with them.
- uuid generation and `datetime.now()`: the i-th id of a call and each clock reading are
  parameters. Ids are not asserted fresh across calls.
- FastAPI routing, configuration parsing from the environment, the chat and agents
  endpoints, the memory listing and clearing routes, and the demo and setup scripts: the configuration defaults are constants.
- The stale collection handle after a `clear_store` whose recreation fails: later
  operations would use the dropped collection. The model shows the records as gone.
- A `None` history is treated the same as an empty one. A `None` where a list is expected
  raises a `TypeError`, whose wording is not modelled.
- Metadata values are strings or integers only. The caller's metadata is not checked for
  Chroma's type restrictions.
- Concurrency between requests: every operation is one atomic step on the state.
- `Text.Lower`: lowers ASCII letters only. The extensions compared against it are ASCII.
- `Upload.NotSupported`: the allowed extensions are listed in a fixed order. Python's
  iteration order over the set is unspecified.
- `Upload.UploadDocument`: a failure of `os.unlink` is only logged, so it has no effect on
  the result and is not modelled.

## Findings

| source | as written | input that shows it | evidently intended | confidence | as-written member | corrected member |
|---|---|---|---|---|---|---|
| private-agent/backend/app/core/chroma_store.py:156-164 | `delete_memory` returns true whenever `collection.delete` does not raise, which it does not for an unknown id | `DELETE /memory/x` on a store holding no record with id "x": the route answers "Memory x deleted successfully" | false for an id that is not stored, so that the route's 404 "Memory x not found" (private-agent/backend/app/api/memory.py:31-33) fires for it | medium, not executed | `MemoryApi.UnknownIdReportedDeleted` | `MemoryApi.UnknownIdNotFound` |
