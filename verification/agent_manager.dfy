/**
 * The agent manager (app/core/agent_manager.py): the in-memory agent registry, the
 * prompt builders, the best-effort write-back of each exchange into the store, and the
 * `ask_agent` orchestration that ties retrieval, prompting and generation together.
 */
module AgentManager {
  import opened Wrappers
  import opened Text
  import opened Schemas
  import Embeddings
  import ChromaStore
  import OllamaClient

  // ---------------------------------------------------------------- registry

  /** An agent's configuration as the registry stores it. */
  datatype Agent = Agent(name: string, systemPrompt: string, modelOverride: Option<string>,
                         createdAt: Timestamp)

  /** An agent as `list_agents` reports it, paired with its id. */
  datatype AgentInfo = AgentInfo(agentId: string, name: string, systemPrompt: string,
                                 modelOverride: Option<string>, createdAt: Timestamp)

  /** The registry dictionary: agents by id, and the ids in insertion order. */
  datatype Registry = Registry(order: seq<string>, agents: map<string, Agent>)

  /** The insertion order lists every registered id exactly once. */
  ghost predicate Valid(reg: Registry) {
    && (forall i, j :: 0 <= i < j < |reg.order| ==> reg.order[i] != reg.order[j])
    && (forall id :: id in reg.agents <==> id in reg.order)
  }

  const DefaultAgentId: string := "default"
  const DefaultAgentName: string := "Default Assistant"
  const DefaultSystemPrompt: string :=
    "You are a helpful private assistant. Use only explicitly provided documents and knowledge "
    + "from the private vector store to answer user queries. If the information is missing, say "
    + "you don't know and ask clarifying questions. When you include facts from documents, "
    + "annotate each answer with a \"SOURCES:\" section listing the filename and chunk id used."

  /** The registry a new manager starts with: only the default agent, created at `now`. */
  function InitialRegistry(now: Timestamp): (reg: Registry)
    ensures Valid(reg)
    ensures reg.agents.Keys == {DefaultAgentId} && reg.order == [DefaultAgentId]
    ensures reg.agents[DefaultAgentId] == Agent(DefaultAgentName, DefaultSystemPrompt, None, now)
  {
    Registry([DefaultAgentId], map[DefaultAgentId := Agent(DefaultAgentName, DefaultSystemPrompt, None, now)])
  }

  function AlreadyExists(agentId: string): string {
    "Agent " + agentId + " already exists"
  }

  /** The registry after `create_agent`, with the new agent or the error raised. */
  datatype Created = Created(registry: Registry, result: Result<Agent, string>)

  /**
   * `create_agent`: an existing id raises and leaves the registry as it was; a new id is
   * added last, and every other agent is untouched.
   */
  function CreateAgent(reg: Registry, agentId: string, name: string, systemPrompt: string,
                       modelOverride: Option<string>, now: Timestamp): (r: Created)
    ensures agentId in reg.agents ==> r == Created(reg, Err(AlreadyExists(agentId)))
    ensures agentId !in reg.agents ==>
      && r.result == Ok(Agent(name, systemPrompt, modelOverride, now))
      && r.registry.order == reg.order + [agentId]
      && r.registry.agents.Keys == reg.agents.Keys + {agentId}
      && r.registry.agents[agentId] == r.result.value
      && forall id :: id in reg.agents ==> r.registry.agents[id] == reg.agents[id]
    ensures Valid(reg) ==> Valid(r.registry)
  {
    if agentId in reg.agents then Created(reg, Err(AlreadyExists(agentId)))
    else
      var agent := Agent(name, systemPrompt, modelOverride, now);
      Created(Registry(reg.order + [agentId], reg.agents[agentId := agent]), Ok(agent))
  }

  /** `get_agent`: the agent's configuration, or `None` for an unknown id. */
  function GetAgent(reg: Registry, agentId: string): (r: Option<Agent>)
    ensures r.None? <==> agentId !in reg.agents
    ensures r.Some? ==> r.value == reg.agents[agentId]
  {
    if agentId in reg.agents then Some(reg.agents[agentId]) else None
  }

  function InfoOf(agentId: string, agent: Agent): AgentInfo {
    AgentInfo(agentId, agent.name, agent.systemPrompt, agent.modelOverride, agent.createdAt)
  }

  /** `list_agents`: every registered agent, in insertion order, with its own id. */
  function ListAgents(reg: Registry): (r: seq<AgentInfo>)
    requires Valid(reg)
    ensures |r| == |reg.order|
    ensures forall i :: 0 <= i < |r| ==> r[i].agentId == reg.order[i] && r[i] == InfoOf(reg.order[i], reg.agents[reg.order[i]])
  {
    seq(|reg.order|, i requires 0 <= i < |reg.order| => InfoOf(reg.order[i], reg.agents[reg.order[i]]))
  }

  /** Every registered agent is listed exactly once, and nothing else is listed. */
  lemma ListedExactlyOnce(reg: Registry, agentId: string)
    requires Valid(reg)
    ensures agentId in reg.agents ==>
      exists i :: 0 <= i < |ListAgents(reg)| && ListAgents(reg)[i] == InfoOf(agentId, reg.agents[agentId])
    ensures forall i, j ::
      && 0 <= i < |ListAgents(reg)| && 0 <= j < |ListAgents(reg)|
      && ListAgents(reg)[i].agentId == agentId && ListAgents(reg)[j].agentId == agentId
      ==> i == j
    ensures agentId !in reg.agents ==> forall i :: 0 <= i < |ListAgents(reg)| ==> ListAgents(reg)[i].agentId != agentId
  {
    if agentId in reg.agents {
      var i :| 0 <= i < |reg.order| && reg.order[i] == agentId;
      assert ListAgents(reg)[i] == InfoOf(agentId, reg.agents[agentId]);
    }
  }

  /** Creating a new agent appends exactly its entry to the listing. */
  lemma ListAfterCreate(reg: Registry, agentId: string, name: string, systemPrompt: string,
                        modelOverride: Option<string>, now: Timestamp)
    requires Valid(reg) && agentId !in reg.agents
    ensures
      var after := CreateAgent(reg, agentId, name, systemPrompt, modelOverride, now).registry;
      Valid(after) &&
      ListAgents(after) == ListAgents(reg) + [AgentInfo(agentId, name, systemPrompt, modelOverride, now)]
  {
    var after := CreateAgent(reg, agentId, name, systemPrompt, modelOverride, now).registry;
    assert forall i :: 0 <= i < |reg.order| ==> reg.order[i] in reg.agents;
  }

  // ---------------------------------------------------------------- prompt assembly

  /** Written in parts so that the verifier sees the leading words. */
  const NoDocuments: string := "No relevant documents" + " found in the knowledge base."
  const ContextHeader: string := "Relevant documents" + " from knowledge base:"

  /** The rendering of a missing `filename` or `chunk_id`. */
  const Unknown: MetaValue := MStr("unknown")

  const ContextTextLimit: nat := 500
  const SourceTextLimit: nat := 200
  const HistoryWindow: nat := 5
  const RetrievalTopK: nat := 5

  /** The context line for the `n`-th hit: number, source file, chunk label and truncated text. */
  function ContextEntry(n: nat, hit: Hit): string {
    NatToString(n) + ". From " + Show(GetMeta(hit.metadata, "filename", Unknown))
      + " (chunk " + Show(GetMeta(hit.metadata, "chunk_id", Unknown)) + "): "
      + Truncate(hit.text, ContextTextLimit)
  }

  /** The context lines of all hits, numbered from 1 in hit order. */
  function ContextEntries(hits: seq<Hit>): (es: seq<string>)
    ensures |es| == |hits| && forall i :: 0 <= i < |hits| ==> es[i] == ContextEntry(i + 1, hits[i])
  {
    seq(|hits|, i requires 0 <= i < |hits| => ContextEntry(i + 1, hits[i]))
  }

  /**
   * `_build_context`: a fixed sentence when nothing was retrieved; otherwise the header and
   * one numbered line per hit, separated by blank lines.
   */
  function BuildContext(hits: seq<Hit>): (r: string)
    ensures |hits| == 0 <==> r == NoDocuments
    ensures |hits| > 0 ==> ContextHeader + "\n\n" <= r
    ensures |hits| > 0 ==> r[|ContextHeader| + 2..] == Join("\n\n", ContextEntries(hits))
  {
    if |hits| == 0 then NoDocuments
    else
      var r := Join("\n\n", [ContextHeader] + ContextEntries(hits));
      assert ([ContextHeader] + ContextEntries(hits))[1..] == ContextEntries(hits);
      assert r == ContextHeader + "\n\n" + Join("\n\n", ContextEntries(hits));
      assert r[0] == ContextHeader[0] != NoDocuments[0];
      r
  }

  /** One more hit adds one more numbered line at the end: hit order is kept. */
  lemma BuildContextAppend(hits: seq<Hit>, hit: Hit)
    requires |hits| > 0
    ensures BuildContext(hits + [hit]) == BuildContext(hits) + "\n\n" + ContextEntry(|hits| + 1, hit)
  {
    assert ContextEntries(hits + [hit]) == ContextEntries(hits) + [ContextEntry(|hits| + 1, hit)];
    assert [ContextHeader] + ContextEntries(hits + [hit]) == ([ContextHeader] + ContextEntries(hits)) + [ContextEntry(|hits| + 1, hit)];
    JoinAppend("\n\n", [ContextHeader] + ContextEntries(hits), ContextEntry(|hits| + 1, hit));
  }

  /** A hit's text of at most 500 characters appears whole; a longer one is cut to 500 plus "...". */
  lemma ContextEntryText(n: nat, hit: Hit)
    ensures |hit.text| <= ContextTextLimit ==> ContextEntry(n, hit)[|ContextEntry(n, hit)| - |hit.text|..] == hit.text
    ensures |hit.text| > ContextTextLimit ==>
      ContextEntry(n, hit)[|ContextEntry(n, hit)| - 503..] == hit.text[..500] + "..."
  {
  }

  /** `_build_system_prompt`: the agent's prompt, a blank line, then the context. */
  function BuildSystemPrompt(base: string, context: string): (r: string)
    ensures |r| == |base| + 2 + |context|
    ensures r[..|base|] == base && r[|base|..|base| + 2] == "\n\n" && r[|base| + 2..] == context
  {
    base + "\n\n" + context
  }

  /** One turn of the caller's history; either key may be missing. */
  datatype Turn = Turn(role: Option<string>, content: Option<string>)

  /** A turn as "role: content", with role defaulting to "user" and content to "". */
  function RenderTurn(t: Turn): string {
    t.role.GetOr("user") + ": " + t.content.GetOr("")
  }

  /** `history[-5:]`: the last five turns, or all of them when there are fewer. */
  function Window(history: seq<Turn>): (w: seq<Turn>)
    ensures |w| == if |history| < HistoryWindow then |history| else HistoryWindow
    ensures w == history[|history| - |w|..]
  {
    if |history| <= HistoryWindow then history else history[|history| - HistoryWindow..]
  }

  /** Each turn rendered as one line, in order. */
  function RenderTurns(turns: seq<Turn>): (lines: seq<string>)
    ensures |lines| == |turns| && forall i :: 0 <= i < |turns| ==> lines[i] == RenderTurn(turns[i])
  {
    seq(|turns|, i requires 0 <= i < |turns| => RenderTurn(turns[i]))
  }

  /** The lines of the conversation prompt: the window's turns, then the current input. */
  function HistoryLines(history: seq<Turn>, input: string): (lines: seq<string>)
    ensures |lines| == |Window(history)| + 1
    ensures forall i :: 0 <= i < |Window(history)| ==> lines[i] == RenderTurn(Window(history)[i])
    ensures lines[|lines| - 1] == "user: " + input
  {
    RenderTurns(Window(history)) + ["user: " + input]
  }

  /**
   * `_build_conversation_history`: the bare input when there is no history; otherwise the
   * last five turns, oldest first, and then "user: <input>", one per line.
   */
  function BuildConversationHistory(history: seq<Turn>, input: string): (r: string)
    ensures |history| == 0 ==> r == input
    ensures |history| > 0 ==> RenderTurn(Window(history)[0]) <= r
    ensures |history| > 0 ==> |"user: " + input| <= |r| && r[|r| - |"user: " + input|..] == "user: " + input
    ensures |history| > 0 ==> r == Join("\n", RenderTurns(Window(history))) + "\n" + "user: " + input
  {
    if |history| == 0 then input
    else
      JoinAppend("\n", RenderTurns(Window(history)), "user: " + input);
      Join("\n", HistoryLines(history, input))
  }

  /** Turns older than the last five never reach the prompt. */
  lemma OlderTurnsDropped(history: seq<Turn>, input: string)
    requires |history| > HistoryWindow
    ensures BuildConversationHistory(history, input) == BuildConversationHistory(history[1..], input)
  {
    assert Window(history) == Window(history[1..]);
  }

  /** Only the last five turns matter: the prompt for any history equals that for its last five. */
  lemma {:induction false} LastFiveTurnsSuffice(history: seq<Turn>, input: string)
    requires |history| >= HistoryWindow
    ensures BuildConversationHistory(history, input)
         == BuildConversationHistory(history[|history| - HistoryWindow..], input)
    decreases |history|
  {
    if |history| > HistoryWindow {
      OlderTurnsDropped(history, input);
      LastFiveTurnsSuffice(history[1..], input);
      assert history[1..][|history| - 1 - HistoryWindow..] == history[|history| - HistoryWindow..];
    }
  }

  /**
   * When no role, content or input contains a newline, the prompt's lines are exactly the
   * window's turns, oldest first, followed by the current input.
   */
  lemma {:induction false} ConversationLines(history: seq<Turn>, input: string)
    requires |history| > 0
    requires forall i :: 0 <= i < |history| ==> '\n' !in RenderTurn(history[i])
    requires '\n' !in input
    ensures Split(BuildConversationHistory(history, input), '\n') == HistoryLines(history, input)
  {
    HistoryLinesNewlineFree(history, input);
    SplitJoin(HistoryLines(history, input), '\n');
  }

  /** No line of the conversation prompt contains a newline when no turn or input does. */
  lemma {:induction false} HistoryLinesNewlineFree(history: seq<Turn>, input: string)
    requires forall i :: 0 <= i < |history| ==> '\n' !in RenderTurn(history[i])
    requires '\n' !in input
    ensures forall k :: 0 <= k < |HistoryLines(history, input)| ==> '\n' !in HistoryLines(history, input)[k]
  {
    var w := Window(history);
    assert forall i :: 0 <= i < |w| ==> '\n' !in RenderTurn(w[i]) by {
      forall i | 0 <= i < |w|
        ensures '\n' !in RenderTurn(w[i])
      {
        assert w[i] == history[|history| - |w| + i];
      }
    }
    var front := RenderTurns(w);
    var last := "user: " + input;
    InputLineNewlineFree(input);
    assert HistoryLines(history, input) == front + [last];
    AppendNewlineFree(front, last);
  }

  /** Appending a newline-free line to newline-free lines keeps every line newline-free. */
  lemma AppendNewlineFree(front: seq<string>, last: string)
    requires forall k :: 0 <= k < |front| ==> '\n' !in front[k]
    requires '\n' !in last
    ensures forall k :: 0 <= k < |front + [last]| ==> '\n' !in (front + [last])[k]
  {
  }

  /** The line for the current input has no newline when the input has none. */
  lemma InputLineNewlineFree(input: string)
    requires '\n' !in input
    ensures '\n' !in "user: " + input
  {
    assert forall k :: 0 <= k < |"user: "| ==> "user: "[k] != '\n';
  }

  /** One entry of the response's `sources`. */
  datatype Source = Source(filename: MetaValue, chunkId: MetaValue, text: string, distance: real)

  function SourceOf(hit: Hit): Source {
    Source(GetMeta(hit.metadata, "filename", Unknown), GetMeta(hit.metadata, "chunk_id", Unknown),
           Truncate(hit.text, SourceTextLimit), hit.distance.GetOr(0.0))
  }

  /**
   * `_format_sources`: one source per hit, in hit order; text of more than 200 characters
   * is cut to 200 plus "...", and a missing distance is 0.0.
   */
  function FormatSources(hits: seq<Hit>): (r: seq<Source>)
    ensures |r| == |hits|
    ensures forall i :: 0 <= i < |hits| ==>
      && r[i].filename == GetMeta(hits[i].metadata, "filename", Unknown)
      && r[i].chunkId == GetMeta(hits[i].metadata, "chunk_id", Unknown)
      && (|hits[i].text| <= SourceTextLimit ==> r[i].text == hits[i].text)
      && (|hits[i].text| > SourceTextLimit ==> r[i].text == hits[i].text[..SourceTextLimit] + "...")
      && (hits[i].distance.None? ==> r[i].distance == 0.0)
      && (hits[i].distance.Some? ==> r[i].distance == hits[i].distance.value)
  {
    seq(|hits|, i requires 0 <= i < |hits| => SourceOf(hits[i]))
  }

  // ---------------------------------------------------------------- conversation write-back

  /** The exchange as it is written back. */
  function ExchangeText(input: string, answer: string): string {
    "User: " + input + "\nAssistant: " + answer
  }

  /** The `chunk_id` label of the `i`-th chunk of a written-back exchange. */
  function ConversationLabel(i: nat): string {
    "conv_" + NatToString(i)
  }

  /** The metadata of the `i`-th chunk of a written-back exchange. */
  function ConversationMetadata(agentId: string, i: nat, stamp: Timestamp): (m: Metadata)
    ensures m.Keys == {"type", "agent_id", "timestamp", "filename", "chunk_id"}
    ensures m["type"] == MStr("conversation") && m["agent_id"] == MStr(agentId)
    ensures m["timestamp"] == MStr(stamp) && m["filename"] == MStr("conversation")
    ensures m["chunk_id"] == MStr(ConversationLabel(i))
  {
    map["type" := MStr("conversation"),
        "agent_id" := MStr(agentId),
        "timestamp" := MStr(stamp),
        "filename" := MStr("conversation"),
        "chunk_id" := MStr(ConversationLabel(i))]
  }

  /** The collaborators the write-back calls out to. */
  datatype WriteBackEnv = WriteBackEnv(
    split: string -> seq<string>,      // the CharacterTextSplitter built without a separator
    newId: nat -> string,              // the uuid4 drawn for chunk i
    clock: nat -> Timestamp,           // the clock reading taken for chunk i's metadata
    addFault: Option<string>)          // whether collection.add raises

  function ConversationMetadatas(agentId: string, clock: nat -> Timestamp, n: nat): (ms: seq<Metadata>)
    ensures |ms| == n && forall i :: 0 <= i < n ==> ms[i] == ConversationMetadata(agentId, i, clock(i))
  {
    seq(n, i requires 0 <= i < n => ConversationMetadata(agentId, i, clock(i)))
  }

  /**
   * `_store_conversation`: split, embed and add the exchange in one batch. Any failure is
   * swallowed: the collection is then left as it was.
   */
  function StoreConversation(c: ChromaStore.Collection, e: Embeddings.Embedder, agentId: string,
                             input: string, answer: string, load: Embeddings.LoadOutcome,
                             encode: Embeddings.Encoder, wb: WriteBackEnv)
    : (r: (ChromaStore.Collection, Embeddings.Embedder))
    ensures r.0.name == c.name && |c.records| <= |r.0.records| && r.0.records[..|c.records|] == c.records
    ensures
      var chunks := wb.split(ExchangeText(input, answer));
      var embedded := Embeddings.GetEmbeddings(e, chunks, load, encode);
      && r.1 == embedded.embedder
      && (embedded.result.Ok? && |embedded.result.value| == |chunks| && wb.addFault.None? ==>
            r.0 == ChromaStore.Collection(c.name, c.records + ChromaStore.Batch(
                     ChromaStore.ChunkIds(wb.newId, |chunks|), embedded.result.value, chunks,
                     ConversationMetadatas(agentId, wb.clock, |chunks|))))
      && (!(embedded.result.Ok? && |embedded.result.value| == |chunks| && wb.addFault.None?) ==> r.0 == c)
  {
    var chunks := wb.split(ExchangeText(input, answer));
    var embedded := Embeddings.GetEmbeddings(e, chunks, load, encode);
    match embedded.result
    case Err(_) => (c, embedded.embedder)
    case Ok(vectors) =>
      var n := |chunks|;
      match ChromaStore.Add(c, ChromaStore.ChunkIds(wb.newId, n), vectors, chunks,
                            ConversationMetadatas(agentId, wb.clock, n), wb.addFault)
      case Err(_) => (c, embedded.embedder)
      case Ok(c') => (c', embedded.embedder)
  }

  /** Different chunks of one exchange carry different `chunk_id` labels. */
  lemma ConversationLabelsDistinct(i: nat, j: nat)
    requires i != j
    ensures ConversationLabel(i) != ConversationLabel(j)
  {
    if ConversationLabel(i) == ConversationLabel(j) {
      assert ConversationLabel(i)[5..] == NatToString(i);
      assert ConversationLabel(j)[5..] == NatToString(j);
      NatToStringInjective(i, j);
    }
  }

  // ---------------------------------------------------------------- ask_agent

  /** The collaborators `ask_agent` calls out to. */
  datatype AskEnv = AskEnv(
    load: Embeddings.LoadOutcome,
    encode: Embeddings.Encoder,
    search: ChromaStore.Searcher,
    queryFault: Option<string>,                            // whether collection.query raises
    send: OllamaClient.Payload -> OllamaClient.Exchange,   // the model server's reply to a payload
    writeBack: WriteBackEnv,
    now: Timestamp)                                        // the clock reading for the response

  /** What `ask_agent` returns. */
  datatype ChatAnswer = ChatAnswer(answer: string, sources: seq<Source>, model: string, timestamp: Timestamp)

  /**
   * The store and adapter state after `ask_agent`, the generation request it sent (none
   * when it failed before generating), and its answer or error.
   */
  datatype Asked = Asked(store: ChromaStore.Collection, embedder: Embeddings.Embedder,
                         request: Option<OllamaClient.Payload>, result: Result<ChatAnswer, string>)

  function AgentQueryFailed(message: string): string {
    "Agent query failed: " + message
  }

  function AgentNotFound(agentId: string): string {
    "Agent " + agentId + " not found"
  }

  /** `agent_config.get("model_override") or settings.OLLAMA_MODEL`. */
  function ModelFor(agent: Agent): string {
    OllamaClient.ChooseModel(agent.modelOverride, OllamaModel)
  }

  /** The generation request `ask_agent` sends for an agent, its hits, the history and the input. */
  function AskPayload(agent: Agent, hits: seq<Hit>, history: seq<Turn>, input: string): OllamaClient.Payload {
    OllamaClient.BuildPayload(BuildConversationHistory(history, input), Some(ModelFor(agent)), OllamaModel,
                              Some(MaxContextTokens), false,
                              Some(BuildSystemPrompt(agent.systemPrompt, BuildContext(hits))), None)
  }

  /**
   * `ask_agent`: look the agent up, retrieve the top five hits, build both prompts,
   * generate, write the exchange back (best effort), and answer with the generated text,
   * the formatted sources and the model used. Every failure is reported as
   * "Agent query failed: ...".
   */
  function AskAgent(reg: Registry, c: ChromaStore.Collection, e: Embeddings.Embedder, agentId: string,
                    input: string, history: seq<Turn>, env: AskEnv): (r: Asked)
    ensures agentId !in reg.agents ==> r == Asked(c, e, None, Err(AgentQueryFailed(AgentNotFound(agentId))))
    ensures r.result.Err? ==> r.store == c && exists m :: r.result.error == AgentQueryFailed(m)
    ensures r.store.name == c.name
    ensures agentId in reg.agents ==>
      var q := ChromaStore.Query(c, e, input, RetrievalTopK, env.load, env.encode, env.search, env.queryFault);
      && (q.result.Err? ==> r == Asked(c, q.embedder, None, Err(AgentQueryFailed(q.result.error))))
      && (q.result.Ok? ==>
            && r.request == Some(AskPayload(reg.agents[agentId], q.result.value, history, input))
            && (OllamaClient.Generate(env.send(r.request.value)).Ok? <==> r.result.Ok?))
    ensures agentId in reg.agents && r.request.Some? && OllamaClient.Generate(env.send(r.request.value)).Err? ==>
      r.result == Err(AgentQueryFailed(OllamaClient.ErrorMessage(OllamaClient.Generate(env.send(r.request.value)).error)))
    ensures r.result.Ok? ==>
      && agentId in reg.agents
      && var agent := reg.agents[agentId];
         var q := ChromaStore.Query(c, e, input, RetrievalTopK, env.load, env.encode, env.search, env.queryFault);
         && q.result.Ok?
         && var reply := OllamaClient.Generate(env.send(AskPayload(agent, q.result.value, history, input)));
            && reply.Ok?
            && r.result.value == ChatAnswer(reply.value, FormatSources(q.result.value), ModelFor(agent), env.now)
            && r.store == StoreConversation(c, q.embedder, agentId, input, reply.value,
                                            env.load, env.encode, env.writeBack).0
  {
    match GetAgent(reg, agentId)
    case None => Asked(c, e, None, Err(AgentQueryFailed(AgentNotFound(agentId))))
    case Some(agent) =>
      var q := ChromaStore.Query(c, e, input, RetrievalTopK, env.load, env.encode, env.search, env.queryFault);
      match q.result
      case Err(m) => Asked(c, q.embedder, None, Err(AgentQueryFailed(m)))
      case Ok(hits) =>
        var request := AskPayload(agent, hits, history, input);
        match OllamaClient.Generate(env.send(request))
        case Err(g) => Asked(c, q.embedder, Some(request), Err(AgentQueryFailed(OllamaClient.ErrorMessage(g))))
        case Ok(text) =>
          var stored := StoreConversation(c, q.embedder, agentId, input, text, env.load, env.encode, env.writeBack);
          Asked(stored.0, stored.1, Some(request), Ok(ChatAnswer(text, FormatSources(hits), ModelFor(agent), env.now)))
  }

  /** The write-back's outcome never changes what `ask_agent` returns. */
  lemma AnswerIndependentOfWriteBack(reg: Registry, c: ChromaStore.Collection, e: Embeddings.Embedder,
                                     agentId: string, input: string, history: seq<Turn>,
                                     env: AskEnv, wb: WriteBackEnv)
    ensures AskAgent(reg, c, e, agentId, input, history, env).result
         == AskAgent(reg, c, e, agentId, input, history, env.(writeBack := wb)).result
  {
  }

  /**
   * The generation request carries the conversation prompt, the agent's model, the token
   * budget, no streaming, and the system prompt built from the agent's prompt and the
   * retrieved context; the answer names the same model the request used.
   */
  lemma AskPayloadShape(agent: Agent, hits: seq<Hit>, history: seq<Turn>, input: string)
    ensures
      var p := AskPayload(agent, hits, history, input);
      && p.prompt == BuildConversationHistory(history, input)
      && p.model == ModelFor(agent)
      && p.options.numPredict == MaxContextTokens && !p.stream
      && p.system == Some(agent.systemPrompt + "\n\n" + BuildContext(hits))
      && p.options.stop.None?
    ensures OllamaClient.Truthy(agent.modelOverride) ==> ModelFor(agent) == agent.modelOverride.value
    ensures !OllamaClient.Truthy(agent.modelOverride) ==> ModelFor(agent) == OllamaModel
  {
    var sp := BuildSystemPrompt(agent.systemPrompt, BuildContext(hits));
    assert sp[|agent.systemPrompt|] == '\n';
    assert OllamaClient.Truthy(Some(sp));
    assert OllamaModel != [];
  }

  /**
   * Asking the default agent with an empty store: the request it sends tells the model
   * that no documents were found, and once the model answers, the answer lists no sources.
   */
  lemma AskWithEmptyStore(now: Timestamp, name: string, e: Embeddings.Embedder, input: string,
                          env: AskEnv)
    requires Embeddings.GetEmbeddings(e, [input], env.load, env.encode).result.Ok?
    requires |Embeddings.GetEmbeddings(e, [input], env.load, env.encode).result.value| > 0
    requires env.queryFault.None?
    ensures
      var r := AskAgent(InitialRegistry(now), ChromaStore.Collection(name, []), e, DefaultAgentId, input, [], env);
      && r.request.Some?
      && r.request.value.system == Some(DefaultSystemPrompt + "\n\n" + NoDocuments)
      && r.request.value.prompt == input
      && (OllamaClient.Generate(env.send(r.request.value)).Ok? ==>
            && r.result.Ok?
            && r.result.value.sources == []
            && r.result.value.answer == OllamaClient.Generate(env.send(r.request.value)).value)
  {
    ChromaStore.QueryEmptyCollection(name, e, input, RetrievalTopK, env.load, env.encode, env.search);
    AskPayloadShape(InitialRegistry(now).agents[DefaultAgentId], [], [], input);
  }
}
