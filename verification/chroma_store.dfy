/**
 * The vector-store adapter (app/core/chroma_store.py). The Chroma collection is a
 * sequence of records; its nearest-neighbour search is an oracle returning a ranking of
 * record positions with distances; the text splitter, the file readers and uuid
 * generation are oracles as well. Every Chroma call may raise, which the model takes as
 * an optional fault message.
 */
module ChromaStore {
  import opened Wrappers
  import opened Text
  import opened Schemas
  import Embeddings

  const CollectionName: string := "private_agent"

  /** The adapter's single named collection. */
  datatype Collection = Collection(name: string, records: seq<Record>)

  /** The collection as created on first use. */
  const Empty: Collection := Collection(CollectionName, [])

  /** Chroma's refusal of a batch whose id, embedding, document and metadata lists differ in length. */
  const UnequalBatch: string := "Unequal lengths for fields"

  /** The message of Python's `IndexError` when a result list is shorter than another. */
  const IndexOutOfRange: string := "list index out of range"

  // ---------------------------------------------------------------- collection.add

  /** The records a batch `add` appends, one per position. */
  function Batch(ids: seq<string>, embeddings: seq<Vector>, documents: seq<string>, metadatas: seq<Metadata>)
    : (b: seq<Record>)
    requires |ids| == |embeddings| == |documents| == |metadatas|
    ensures |b| == |ids|
    ensures forall i :: 0 <= i < |b| ==> b[i] == Record(ids[i], documents[i], metadatas[i], embeddings[i])
  {
    seq(|ids|, i requires 0 <= i < |ids| => Record(ids[i], documents[i], metadatas[i], embeddings[i]))
  }

  /** `collection.add`: one call appends the whole batch, or raises and appends nothing. */
  function Add(c: Collection, ids: seq<string>, embeddings: seq<Vector>, documents: seq<string>,
               metadatas: seq<Metadata>, fault: Option<string>): (r: Result<Collection, string>)
    ensures r.Ok? <==> fault.None? && |ids| == |embeddings| == |documents| == |metadatas|
    ensures r.Ok? ==> r.value == Collection(c.name, c.records + Batch(ids, embeddings, documents, metadatas))
    ensures fault.Some? ==> r == Err(fault.value)
  {
    if fault.Some? then Err(fault.value)
    else if !(|ids| == |embeddings| == |documents| == |metadatas|) then Err(UnequalBatch)
    else Ok(Collection(c.name, c.records + Batch(ids, embeddings, documents, metadatas)))
  }

  // ---------------------------------------------------------------- text extraction

  /** The readers `_extract_text_from_file` chooses between. */
  datatype FileKind = PlainText | Pdf | Word

  const SupportedExtensions: set<string> := {".txt", ".pdf", ".docx", ".doc"}

  /** `os.path.splitext(path)[1].lower()`. */
  function FileExtension(path: string): string {
    Lower(SplitExt(path).1)
  }

  function UnsupportedFormat(ext: string): string {
    "Unsupported file format: " + ext
  }

  /** The extension dispatch of `_extract_text_from_file`. */
  function Dispatch(ext: string): (r: Result<FileKind, string>)
    ensures r.Ok? <==> ext in SupportedExtensions
    ensures r.Err? ==> r.error == UnsupportedFormat(ext)
    ensures ext == ".txt" <==> r == Ok(PlainText)
    ensures ext == ".pdf" <==> r == Ok(Pdf)
    ensures ext == ".docx" || ext == ".doc" <==> r == Ok(Word)
  {
    if ext == ".txt" then Ok(PlainText)
    else if ext == ".pdf" then Ok(Pdf)
    else if ext == ".docx" || ext == ".doc" then Ok(Word)
    else Err(UnsupportedFormat(ext))
  }

  /** Reading a file of a given kind: its text, or the reader's error message. */
  type Extractor = (string, FileKind) -> Result<string, string>

  /** `_extract_text_from_file`: the reader runs only for a supported extension. */
  function ExtractText(path: string, extract: Extractor): (r: Result<string, string>)
    ensures FileExtension(path) !in SupportedExtensions ==>
      r == Err(UnsupportedFormat(FileExtension(path)))
    ensures FileExtension(path) in SupportedExtensions ==>
      r == extract(path, Dispatch(FileExtension(path)).value)
  {
    match Dispatch(FileExtension(path))
    case Err(m) => Err(m)
    case Ok(kind) => extract(path, kind)
  }

  // ---------------------------------------------------------------- ingest_document

  /** The metadata keys ingestion writes for every chunk before the caller's keys. */
  const ChunkKeys: set<string> := {"filename", "chunk_id", "chunk_index", "total_chunks", "file_path"}

  /** The `chunk_id` label of the chunk at position `i`. */
  function ChunkLabel(i: nat): string {
    "chunk_" + NatToString(i)
  }

  /** The five keys ingestion writes for chunk `i` of `n` of the file at `path`. */
  function ChunkBase(path: string, i: nat, n: nat): Metadata {
    map["filename" := MStr(Basename(path)),
        "chunk_id" := MStr(ChunkLabel(i)),
        "chunk_index" := MInt(i),
        "total_chunks" := MInt(n),
        "file_path" := MStr(path)]
  }

  /** The chunk keys hold the basename, the label, the position, the count and the path. */
  lemma ChunkBaseValues(path: string, i: nat, n: nat)
    ensures ChunkBase(path, i, n).Keys == ChunkKeys
    ensures ChunkBase(path, i, n)["filename"] == MStr(Basename(path))
    ensures ChunkBase(path, i, n)["chunk_id"] == MStr(ChunkLabel(i))
    ensures ChunkBase(path, i, n)["chunk_index"] == MInt(i)
    ensures ChunkBase(path, i, n)["total_chunks"] == MInt(n)
    ensures ChunkBase(path, i, n)["file_path"] == MStr(path)
  {
  }

  /** Chunk `i` of `n`'s metadata: the chunk keys, then the caller's keys, which win on a clash. */
  function ChunkMetadata(path: string, i: nat, n: nat, caller: Metadata): (m: Metadata)
    ensures m.Keys == ChunkBase(path, i, n).Keys + caller.Keys
    ensures forall k :: k in caller ==> m[k] == caller[k]
    ensures forall k :: k in ChunkBase(path, i, n) && k !in caller ==> m[k] == ChunkBase(path, i, n)[k]
  {
    ChunkBase(path, i, n) + caller
  }

  /** Different chunks of one document carry different `chunk_id` labels. */
  lemma ChunkLabelsDistinct(i: nat, j: nat)
    requires i != j
    ensures ChunkLabel(i) != ChunkLabel(j)
  {
    if ChunkLabel(i) == ChunkLabel(j) {
      assert ChunkLabel(i)[6..] == NatToString(i);
      assert ChunkLabel(j)[6..] == NatToString(j);
      NatToStringInjective(i, j);
    }
  }

  /** The collaborators ingestion calls out to. */
  datatype IngestEnv = IngestEnv(
    extract: Extractor,                     // file readers
    split: string -> seq<string>,           // the newline-separated CharacterTextSplitter
    load: Embeddings.LoadOutcome,
    encode: Embeddings.Encoder,
    newId: nat -> string,                   // the uuid4 drawn for chunk i
    addFault: Option<string>)               // whether collection.add raises

  /** What `ingest_document` returns. */
  datatype IngestSummary = IngestSummary(chunksCreated: nat, filename: string, fileSize: nat)

  /** The store and adapter state after ingestion, with its summary or error. */
  datatype IngestOutcome = IngestOutcome(
    store: Collection, embedder: Embeddings.Embedder, result: Result<IngestSummary, string>)

  function IngestFailed(message: string): string {
    "Document ingestion failed: " + message
  }

  const NoTextContent: string := "No text content found in file"

  /** The ids of a batch of `n` chunks. */
  function ChunkIds(newId: nat -> string, n: nat): (ids: seq<string>)
    ensures |ids| == n && forall i :: 0 <= i < n ==> ids[i] == newId(i)
  {
    seq(n, i requires 0 <= i < n => newId(i))
  }

  /** The metadata of a batch of `n` chunks of `path`. */
  function ChunkMetadatas(path: string, n: nat, caller: Metadata): (ms: seq<Metadata>)
    ensures |ms| == n && forall i :: 0 <= i < n ==> ms[i] == ChunkMetadata(path, i, n, caller)
  {
    seq(n, i requires 0 <= i < n => ChunkMetadata(path, i, n, caller))
  }

  /**
   * `ingest_document`: extract, refuse blank text, split, embed, and add every chunk in
   * one batch. Any failure leaves the collection as it was and is reported as
   * "Document ingestion failed: ...".
   */
  function IngestDocument(c: Collection, e: Embeddings.Embedder, path: string, caller: Metadata,
                          env: IngestEnv): (r: IngestOutcome)
    ensures r.result.Err? ==> r.store == c
    ensures r.result.Err? ==> exists m :: r.result.error == IngestFailed(m)
    ensures ExtractText(path, env.extract).Err? ==>
      r == IngestOutcome(c, e, Err(IngestFailed(ExtractText(path, env.extract).error)))
    ensures ExtractText(path, env.extract).Ok? && Strip(ExtractText(path, env.extract).value) == [] ==>
      r == IngestOutcome(c, e, Err(IngestFailed(NoTextContent)))
    ensures r.result.Ok? ==>
      && ExtractText(path, env.extract).Ok?
      && var text := ExtractText(path, env.extract).value;
         var chunks := env.split(text);
         var n := |chunks|;
         var embedded := Embeddings.GetEmbeddings(e, chunks, env.load, env.encode);
         && !IsBlank(text)
         && r.result.value == IngestSummary(n, Basename(path), |text|)
         && r.embedder == embedded.embedder
         && embedded.result.Ok? && |embedded.result.value| == n
         && |r.store.records| == |c.records| + n
         && r.store.name == c.name
         && r.store.records[..|c.records|] == c.records
         && forall i :: 0 <= i < n ==>
              r.store.records[|c.records| + i]
              == Record(env.newId(i), chunks[i], ChunkMetadata(path, i, n, caller), embedded.result.value[i])
  {
    match ExtractText(path, env.extract)
    case Err(m) => IngestOutcome(c, e, Err(IngestFailed(m)))
    case Ok(text) =>
      if Strip(text) == [] then IngestOutcome(c, e, Err(IngestFailed(NoTextContent)))
      else
        StripEmptyIffBlank(text);
        var chunks := env.split(text);
        var embedded := Embeddings.GetEmbeddings(e, chunks, env.load, env.encode);
        match embedded.result
        case Err(m) => IngestOutcome(c, embedded.embedder, Err(IngestFailed(m)))
        case Ok(vectors) =>
          var n := |chunks|;
          match Add(c, ChunkIds(env.newId, n), vectors, chunks, ChunkMetadatas(path, n, caller), env.addFault)
          case Err(m) => IngestOutcome(c, embedded.embedder, Err(IngestFailed(m)))
          case Ok(c') => IngestOutcome(c', embedded.embedder, Ok(IngestSummary(n, Basename(path), |text|)))
  }

  /**
   * Ingestion succeeds whenever each step does: the file is read, its text is not blank,
   * the encoder returns one vector per chunk, and the store accepts the batch.
   */
  lemma IngestSucceedsWhenStepsSucceed(c: Collection, e: Embeddings.Embedder, path: string,
                                       caller: Metadata, env: IngestEnv)
    requires ExtractText(path, env.extract).Ok?
    requires !IsBlank(ExtractText(path, env.extract).value)
    requires
      var chunks := env.split(ExtractText(path, env.extract).value);
      var embedded := Embeddings.GetEmbeddings(e, chunks, env.load, env.encode);
      embedded.result.Ok? && |embedded.result.value| == |chunks|
    requires env.addFault.None?
    ensures IngestDocument(c, e, path, caller, env).result.Ok?
  {
    StripEmptyIffBlank(ExtractText(path, env.extract).value);
  }

  /** A whitespace-only file fails before the encoder or the store is touched. */
  lemma BlankFileRejected(c: Collection, e: Embeddings.Embedder, path: string, caller: Metadata,
                          env: IngestEnv)
    requires ExtractText(path, env.extract).Ok? && IsBlank(ExtractText(path, env.extract).value)
    ensures IngestDocument(c, e, path, caller, env) == IngestOutcome(c, e, Err(IngestFailed(NoTextContent)))
  {
    StripEmptyIffBlank(ExtractText(path, env.extract).value);
  }

  // ---------------------------------------------------------------- query

  /** One entry of the search oracle's ranking: a record position and its distance. */
  datatype Scored = Scored(index: nat, distance: real)

  /** Chroma's nearest-neighbour search over the records for a query vector and `n_results`. */
  type Searcher = (seq<Record>, Vector, nat) -> seq<Scored>

  /** A ranking that names only stored records. */
  predicate InRange(records: seq<Record>, ranking: seq<Scored>) {
    forall j :: 0 <= j < |ranking| ==> ranking[j].index < |records|
  }

  /** Chroma's query response: one row per query vector, each a list per included field. */
  datatype RawQuery = RawQuery(documents: seq<seq<string>>, metadatas: seq<seq<Metadata>>,
                               distances: seq<seq<real>>)

  /** The ranking's entries that name stored records, in rank order. */
  function Valid(records: seq<Record>, ranking: seq<Scored>): (v: seq<Scored>)
    ensures InRange(records, v)
    ensures InRange(records, ranking) ==> v == ranking
    ensures |records| == 0 ==> v == []
    ensures |v| <= |ranking|
  {
    if |ranking| == 0 then []
    else if ranking[0].index < |records| then [ranking[0]] + Valid(records, ranking[1..])
    else Valid(records, ranking[1..])
  }

  /** The response Chroma builds for one query vector from a ranking. */
  function Respond(records: seq<Record>, ranking: seq<Scored>): RawQuery {
    var v := Valid(records, ranking);
    RawQuery([seq(|v|, j requires 0 <= j < |v| => records[v[j].index].document)],
             [seq(|v|, j requires 0 <= j < |v| => records[v[j].index].metadata)],
             [seq(|v|, j requires 0 <= j < |v| => v[j].distance)])
  }

  /** The response rows are index-aligned, so formatting them cannot run off a list. */
  predicate Aligned(raw: RawQuery) {
    |raw.documents| == 0 || |raw.documents[0]| == 0 ||
    (&& |raw.metadatas| > 0 && |raw.metadatas[0]| >= |raw.documents[0]|
     && (|raw.distances| > 0 ==> |raw.distances[0]| >= |raw.documents[0]|))
  }

  /**
   * The formatting loop of `query`: one hit per document of the first row, with the
   * metadata and distance at the same position; distance 0.0 when no distances came back.
   * A shorter metadata or distance row makes Python raise `IndexError`.
   */
  function FormatQuery(raw: RawQuery): (r: Result<seq<Hit>, string>)
    ensures r.Ok? <==> Aligned(raw)
    ensures r.Err? ==> r.error == IndexOutOfRange
    ensures (|raw.documents| == 0 || |raw.documents[0]| == 0) ==> r == Ok([])
    ensures r.Ok? && |raw.documents| > 0 ==>
      && |r.value| == |raw.documents[0]|
      && forall i :: 0 <= i < |r.value| ==>
           r.value[i] == Hit(raw.documents[0][i], raw.metadatas[0][i],
                             Some(if |raw.distances| > 0 then raw.distances[0][i] else 0.0))
  {
    if |raw.documents| == 0 || |raw.documents[0]| == 0 then Ok([])
    else if !Aligned(raw) then Err(IndexOutOfRange)
    else
      var docs := raw.documents[0];
      Ok(seq(|docs|, i requires 0 <= i < |docs| =>
        Hit(docs[i], raw.metadatas[0][i],
            Some(if |raw.distances| > 0 then raw.distances[0][i] else 0.0))))
  }

  function QueryFailed(message: string): string {
    "Query failed: " + message
  }

  /** The hit for a stored record found at a given distance. */
  function HitOf(rec: Record, distance: real): Hit {
    Hit(rec.document, rec.metadata, Some(distance))
  }

  /**
   * `query`: embed `[query_text]` once, search with `top_k`, and format the first row.
   * A failure of the encoder or the search is reported as "Query failed: ...".
   */
  function Query(c: Collection, e: Embeddings.Embedder, queryText: string, topK: nat,
                 load: Embeddings.LoadOutcome, encode: Embeddings.Encoder, search: Searcher,
                 fault: Option<string>): (r: Embeddings.Step<seq<Hit>>)
    ensures r.embedder == Embeddings.GetEmbeddings(e, [queryText], load, encode).embedder
    ensures r.result.Err? ==> exists m :: r.result.error == QueryFailed(m)
    ensures r.result.Ok? <==>
      var q := Embeddings.GetEmbeddings(e, [queryText], load, encode).result;
      q.Ok? && |q.value| > 0 && fault.None?
    ensures r.result.Ok? ==>
      var v := Embeddings.GetEmbeddings(e, [queryText], load, encode).result.value[0];
      var ranking := Valid(c.records, search(c.records, v, topK));
      && |r.result.value| == |ranking|
      && forall j :: 0 <= j < |ranking| ==>
           r.result.value[j] == HitOf(c.records[ranking[j].index], ranking[j].distance)
  {
    var q := Embeddings.GetEmbeddings(e, [queryText], load, encode);
    match q.result
    case Err(m) => Embeddings.Step(q.embedder, Err(QueryFailed(m)))
    case Ok(vs) =>
      if |vs| == 0 then Embeddings.Step(q.embedder, Err(QueryFailed(IndexOutOfRange)))
      else if fault.Some? then Embeddings.Step(q.embedder, Err(QueryFailed(fault.value)))
      else
        var raw := Respond(c.records, search(c.records, vs[0], topK));
        match FormatQuery(raw)
        case Err(m) => Embeddings.Step(q.embedder, Err(QueryFailed(m)))
        case Ok(hits) => Embeddings.Step(q.embedder, Ok(hits))
  }

  /** Querying an empty collection returns no hits rather than an error. */
  lemma QueryEmptyCollection(name: string, e: Embeddings.Embedder, queryText: string, topK: nat,
                             load: Embeddings.LoadOutcome, encode: Embeddings.Encoder,
                             search: Searcher)
    requires Embeddings.GetEmbeddings(e, [queryText], load, encode).result.Ok?
    requires |Embeddings.GetEmbeddings(e, [queryText], load, encode).result.value| > 0
    ensures Query(Collection(name, []), e, queryText, topK, load, encode, search, None).result == Ok([])
  {
  }

  /**
   * With a search that honours `n_results` and names stored records only, `query` returns
   * at most `top_k` hits: the ranked records, nearest first, each with its distance.
   */
  lemma QueryReturnsRankedRecords(c: Collection, e: Embeddings.Embedder, queryText: string, topK: nat,
                                  load: Embeddings.LoadOutcome, encode: Embeddings.Encoder,
                                  search: Searcher)
    requires forall rs, v, k :: |search(rs, v, k)| <= k && InRange(rs, search(rs, v, k))
    requires Embeddings.GetEmbeddings(e, [queryText], load, encode).result.Ok?
    requires |Embeddings.GetEmbeddings(e, [queryText], load, encode).result.value| > 0
    ensures
      var v := Embeddings.GetEmbeddings(e, [queryText], load, encode).result.value[0];
      var ranking := search(c.records, v, topK);
      var r := Query(c, e, queryText, topK, load, encode, search, None).result;
      && r.Ok?
      && |r.value| == |ranking| <= topK
      && forall j :: 0 <= j < |ranking| ==>
           r.value[j] == HitOf(c.records[ranking[j].index], ranking[j].distance)
  {
  }

  // ---------------------------------------------------------------- list_memories

  /** Chroma's `get` response: ids, documents and metadatas lists. */
  datatype RawGet = RawGet(ids: seq<string>, documents: seq<string>, metadatas: seq<Metadata>)

  /** The response of `collection.get` over the whole collection, in store order. */
  function Fetch(records: seq<Record>): (g: RawGet)
    ensures |g.ids| == |g.documents| == |g.metadatas| == |records|
    ensures forall i :: 0 <= i < |records| ==>
      g.ids[i] == records[i].id && g.documents[i] == records[i].document && g.metadatas[i] == records[i].metadata
  {
    RawGet(seq(|records|, i requires 0 <= i < |records| => records[i].id),
           seq(|records|, i requires 0 <= i < |records| => records[i].document),
           seq(|records|, i requires 0 <= i < |records| => records[i].metadata))
  }

  /** The formatting loop of `list_memories`: id, text and metadata index-aligned. */
  function FormatMemories(raw: RawGet): (r: Result<seq<Memory>, string>)
    ensures r.Ok? <==> |raw.ids| >= |raw.documents| && |raw.metadatas| >= |raw.documents|
    ensures r.Err? ==> r.error == IndexOutOfRange
    ensures r.Ok? ==>
      && |r.value| == |raw.documents|
      && forall i :: 0 <= i < |r.value| ==>
           r.value[i] == Memory(raw.ids[i], raw.documents[i], raw.metadatas[i])
  {
    if |raw.documents| == 0 then Ok([])
    else if |raw.ids| < |raw.documents| || |raw.metadatas| < |raw.documents| then Err(IndexOutOfRange)
    else
      Ok(seq(|raw.documents|, i requires 0 <= i < |raw.documents| =>
        Memory(raw.ids[i], raw.documents[i], raw.metadatas[i])))
  }

  function ListFailed(message: string): string {
    "Failed to list memories: " + message
  }

  /** The memory entry for a stored record. */
  function MemoryOf(rec: Record): Memory {
    Memory(rec.id, rec.document, rec.metadata)
  }

  /** `list_memories`: every stored record once, in store order; an empty store gives []. */
  function ListMemories(c: Collection, fault: Option<string>): (r: Result<seq<Memory>, string>)
    ensures fault.Some? ==> r == Err(ListFailed(fault.value))
    ensures fault.None? ==> r.Ok?
    ensures r.Ok? ==>
      && |r.value| == |c.records|
      && forall i :: 0 <= i < |c.records| ==> r.value[i] == MemoryOf(c.records[i])
  {
    if fault.Some? then Err(ListFailed(fault.value))
    else
      match FormatMemories(Fetch(c.records))
      case Err(m) => Err(ListFailed(m))
      case Ok(ms) => Ok(ms)
  }

  // ---------------------------------------------------------------- delete / clear

  /** The records left after Chroma deletes every record with the given id. */
  function WithoutId(records: seq<Record>, id: string): (r: seq<Record>)
    ensures forall rec :: rec in r <==> rec in records && rec.id != id
    ensures |r| <= |records|
    ensures (forall i :: 0 <= i < |records| ==> records[i].id != id) ==> r == records
  {
    if |records| == 0 then []
    else if records[0].id == id then WithoutId(records[1..], id)
    else [records[0]] + WithoutId(records[1..], id)
  }

  /**
   * `delete_memory`: true whenever the underlying delete does not raise, whether or not
   * the id was stored; false (and nothing removed) when it raises.
   */
  function DeleteMemory(c: Collection, id: string, fault: Option<string>): (r: (Collection, bool))
    ensures r.1 <==> fault.None?
    ensures r.1 ==> r.0 == Collection(c.name, WithoutId(c.records, id))
    ensures !r.1 ==> r.0 == c
  {
    if fault.Some? then (c, false) else (Collection(c.name, WithoutId(c.records, id)), true)
  }

  /** Deleting an id that is not stored still reports success and changes nothing. */
  lemma DeleteUnknownIdSucceeds(c: Collection, id: string)
    requires forall i :: 0 <= i < |c.records| ==> c.records[i].id != id
    ensures DeleteMemory(c, id, None) == (c, true)
  {
  }

  /** Whether a record with this id is stored. */
  predicate Stored(c: Collection, id: string) {
    exists i :: 0 <= i < |c.records| && c.records[i].id == id
  }

  /**
   * `delete_memory` as its callers read its result: true only when a record with the id
   * was stored and the delete did not raise; false for an unknown id or a raising delete,
   * and then nothing changes.
   */
  function DeleteStoredMemory(c: Collection, id: string, fault: Option<string>): (r: (Collection, bool))
    ensures r.1 <==> fault.None? && Stored(c, id)
    ensures r.1 ==> r.0 == Collection(c.name, WithoutId(c.records, id)) && |r.0.records| < |c.records|
    ensures !r.1 ==> r.0 == c
  {
    if fault.Some? || !Stored(c, id) then (c, false)
    else
      var k :| 0 <= k < |c.records| && c.records[k].id == id;
      WithoutIdShrinks(c.records, id, k);
      (Collection(c.name, WithoutId(c.records, id)), true)
  }

  /** Removing an id that occurs makes the sequence strictly shorter. */
  lemma {:induction false} WithoutIdShrinks(records: seq<Record>, id: string, k: nat)
    requires k < |records| && records[k].id == id
    ensures |WithoutId(records, id)| < |records|
  {
    if k > 0 && records[0].id != id {
      WithoutIdShrinks(records[1..], id, k - 1);
    } else if records[0].id == id {
      assert |WithoutId(records[1..], id)| <= |records[1..]|;
    }
  }

  /** After a successful delete, listing no longer shows the id and shows every other record. */
  lemma ListAfterDelete(c: Collection, id: string)
    ensures
      var ms := ListMemories(DeleteMemory(c, id, None).0, None).value;
      && (forall m :: m in ms ==> m.id != id)
      && (forall rec :: rec in c.records && rec.id != id ==> MemoryOf(rec) in ms)
  {
    var left := WithoutId(c.records, id);
    var ms := ListMemories(Collection(c.name, left), None).value;
    forall m | m in ms
      ensures m.id != id
    {
      var i :| 0 <= i < |ms| && ms[i] == m;
      assert left[i] in left;
    }
    forall rec | rec in c.records && rec.id != id
      ensures MemoryOf(rec) in ms
    {
      var i :| 0 <= i < |left| && left[i] == rec;
      assert ms[i] == MemoryOf(rec);
    }
  }

  /** Which step of `clear_store` raises, if any. */
  datatype ClearFault = NoClearFault | DeleteCollectionFails(message: string) | CreateCollectionFails(message: string)

  /**
   * `clear_store`: drop the collection and recreate it under the same name. True, with an
   * empty collection, when neither step raises; false otherwise. When only the recreation
   * raises, the old records are already gone.
   */
  function ClearStore(c: Collection, fault: ClearFault): (r: (Collection, bool))
    ensures r.1 <==> fault.NoClearFault?
    ensures r.0.name == c.name
    ensures r.1 ==> r.0.records == []
    ensures fault.DeleteCollectionFails? ==> r.0 == c
    ensures fault.CreateCollectionFails? ==> r.0.records == []
  {
    match fault
    case NoClearFault => (Collection(c.name, []), true)
    case DeleteCollectionFails(_) => (c, false)
    case CreateCollectionFails(_) => (Collection(c.name, []), false)
  }

  /** A cleared store lists nothing, and a later add succeeds with exactly the new records. */
  lemma ClearThenListAndAdd(c: Collection, ids: seq<string>, embeddings: seq<Vector>,
                            documents: seq<string>, metadatas: seq<Metadata>)
    requires |ids| == |embeddings| == |documents| == |metadatas|
    ensures
      var cleared := ClearStore(c, NoClearFault).0;
      && ListMemories(cleared, None) == Ok([])
      && Add(cleared, ids, embeddings, documents, metadatas, None).Ok?
      && Add(cleared, ids, embeddings, documents, metadatas, None).value.records
         == Batch(ids, embeddings, documents, metadatas)
  {
    assert [] + Batch(ids, embeddings, documents, metadatas) == Batch(ids, embeddings, documents, metadatas);
  }
}
