/**
 * The embedding adapter (app/core/embeddings.py) as a two-state lazy-load machine.
 * Loading the sentence-transformer model and running its encoder are oracles: the
 * load outcome is a parameter and the encoder a function of the loaded handle and
 * the input texts.
 */
module Embeddings {
  import opened Wrappers
  import opened Schemas

  /** An opaque handle to a loaded encoder model. */
  type Handle = nat

  /** The adapter's state: the cached model handle is either absent or present. */
  datatype Embedder = Unloaded | Loaded(model: Handle)

  /** What constructing the model does when the adapter tries to load it. */
  datatype LoadOutcome =
    | LoadSucceeds(handle: Handle)
    | LibraryMissing                  // `ImportError` of sentence_transformers
    | LoadFails(message: string)      // any other exception while constructing the model

  /** The model's `encode`: one vector per text on success, or the exception's message. */
  type Encoder = (Handle, seq<string>) -> Result<seq<Vector>, string>

  /** An encoder that, whenever it succeeds, returns exactly one vector per input text. */
  ghost predicate OneVectorPerText(encode: Encoder) {
    forall h, texts :: encode(h, texts).Ok? ==> |encode(h, texts).value| == |texts|
  }

  /** The adapter's state after an operation, with the operation's return value or error. */
  datatype Step<+T> = Step(embedder: Embedder, result: Result<T, string>)

  const ModelUnavailable: string := "Embedding model not available"

  function LoadFailure(message: string): string {
    "Failed to load embedding model: " + message
  }

  function EncodeFailure(message: string): string {
    "Embedding generation failed: " + message
  }

  /** The text `get_embedding_dimension` embeds to measure the vector length. */
  const ProbeText: string := "dummy text"

  /**
   * `_load_model`: consults the loader only while unloaded; a loaded adapter returns its
   * cached handle, and a failed load leaves the adapter unloaded.
   */
  function LoadModel(e: Embedder, load: LoadOutcome): (r: Step<Handle>)
    ensures e.Loaded? ==> r == Step(e, Ok(e.model))
    ensures e.Unloaded? ==> (r.embedder.Loaded? <==> load.LoadSucceeds?)
    ensures r.result.Ok? <==> r.embedder.Loaded?
    ensures r.result.Ok? ==> r.result.value == r.embedder.model
    ensures e.Unloaded? && load.LoadSucceeds? ==> r.embedder == Loaded(load.handle)
    ensures e.Unloaded? && load.LibraryMissing? ==> r == Step(Unloaded, Err(ModelUnavailable))
    ensures e.Unloaded? && load.LoadFails? ==> r == Step(Unloaded, Err(LoadFailure(load.message)))
  {
    match e
    case Loaded(h) => Step(e, Ok(h))
    case Unloaded =>
      match load
      case LoadSucceeds(h) => Step(Loaded(h), Ok(h))
      case LibraryMissing => Step(Unloaded, Err(ModelUnavailable))
      case LoadFails(m) => Step(Unloaded, Err(LoadFailure(m)))
  }

  /**
   * `get_embeddings`: the empty batch short-circuits without loading; otherwise the model
   * is loaded (load errors propagate unwrapped) and the encoder's output is returned
   * unchanged, or its failure reported with no partial result.
   */
  function GetEmbeddings(e: Embedder, texts: seq<string>, load: LoadOutcome, encode: Encoder)
    : (r: Step<seq<Vector>>)
    ensures |texts| == 0 ==> r == Step(e, Ok([]))
    ensures |texts| > 0 ==> r.embedder == LoadModel(e, load).embedder
    ensures |texts| > 0 && LoadModel(e, load).result.Err? ==>
      r.result == Err(LoadModel(e, load).result.error)
    ensures |texts| > 0 && r.embedder.Loaded? ==>
      match encode(r.embedder.model, texts)
      case Ok(vs) => r.result == Ok(vs)
      case Err(m) => r.result == Err(EncodeFailure(m))
    ensures OneVectorPerText(encode) && r.result.Ok? ==> |r.result.value| == |texts|
  {
    if |texts| == 0 then Step(e, Ok([]))
    else
      var loaded := LoadModel(e, load);
      match loaded.result
      case Err(m) => Step(loaded.embedder, Err(m))
      case Ok(h) =>
        match encode(h, texts)
        case Ok(vs) => Step(loaded.embedder, Ok(vs))
        case Err(m) => Step(loaded.embedder, Err(EncodeFailure(m)))
  }

  /**
   * `get_embedding_dimension`: the length of the first vector the encoder returns for a
   * one-text probe, or 0 when it returns none.
   */
  function GetEmbeddingDimension(e: Embedder, load: LoadOutcome, encode: Encoder): (r: Step<nat>)
    ensures r.embedder == LoadModel(e, load).embedder
    ensures r.result.Ok? <==> r.embedder.Loaded? && encode(r.embedder.model, [ProbeText]).Ok?
    ensures r.result.Ok? ==>
      var vs := encode(r.embedder.model, [ProbeText]).value;
      r.result.value == if |vs| > 0 then |vs[0]| else 0
    ensures OneVectorPerText(encode) && r.result.Ok? ==>
      r.result.value == |encode(r.embedder.model, [ProbeText]).value[0]|
  {
    var loaded := LoadModel(e, load);
    match loaded.result
    case Err(m) => Step(loaded.embedder, Err(m))
    case Ok(_) =>
      var probe := GetEmbeddings(loaded.embedder, [ProbeText], load, encode);
      match probe.result
      case Err(m) => Step(probe.embedder, Err(m))
      case Ok(vs) => Step(probe.embedder, Ok(if |vs| > 0 then |vs[0]| else 0))
  }

  /** One call on the adapter, with the load outcome it would meet if it had to load. */
  datatype Call =
    | Embed(texts: seq<string>, load: LoadOutcome)
    | Dimension(load: LoadOutcome)

  /** The adapter's state after one call. */
  function After(e: Embedder, call: Call, encode: Encoder): Embedder {
    match call
    case Embed(texts, load) => GetEmbeddings(e, texts, load, encode).embedder
    case Dimension(load) => GetEmbeddingDimension(e, load, encode).embedder
  }

  /** How many calls of a run moved the adapter from unloaded to loaded. */
  function LoadCount(e: Embedder, calls: seq<Call>, encode: Encoder): nat
    decreases |calls|
  {
    if |calls| == 0 then 0
    else
      var next := After(e, calls[0], encode);
      (if e.Unloaded? && next.Loaded? then 1 else 0) + LoadCount(next, calls[1..], encode)
  }

  /** Once loaded, no call of any run loads again, and the handle never changes. */
  lemma {:induction false} LoadedIsFinal(h: Handle, calls: seq<Call>, encode: Encoder)
    ensures LoadCount(Loaded(h), calls, encode) == 0
  {
    if |calls| > 0 {
      assert After(Loaded(h), calls[0], encode) == Loaded(h);
      LoadedIsFinal(h, calls[1..], encode);
    }
  }

  /** Any run of calls loads the model at most once, and never when it starts loaded. */
  lemma {:induction false} AtMostOneLoad(e: Embedder, calls: seq<Call>, encode: Encoder)
    ensures LoadCount(e, calls, encode) <= 1
    ensures e.Loaded? ==> LoadCount(e, calls, encode) == 0
  {
    if |calls| > 0 {
      var next := After(e, calls[0], encode);
      match next
      case Loaded(h) => LoadedIsFinal(h, calls[1..], encode);
      case Unloaded => AtMostOneLoad(next, calls[1..], encode);
    }
  }
}
