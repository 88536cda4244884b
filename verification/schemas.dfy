/**
 * Record shapes shared by the pipeline (app/core/schemas.py and the dictionaries the
 * store returns), and the configuration defaults of app/config.py that the modelled
 * logic reads.
 */
module Schemas {
  import opened Wrappers
  import Text

  /** An embedding vector; its components are opaque (no numerics are modelled). */
  type Vector = seq<real>

  /** A clock reading as the program renders it (`datetime.now()` / `.isoformat()`). */
  type Timestamp = string

  /** A metadata value: the string and integer values the pipeline writes. */
  datatype MetaValue = MStr(s: string) | MInt(n: int)

  /** A record's metadata dictionary. */
  type Metadata = map<string, MetaValue>

  /** Python's `str(v)`, as used when a value is interpolated into an f-string. */
  function Show(v: MetaValue): string {
    match v
    case MStr(s) => s
    case MInt(n) => Text.IntToString(n)
  }

  /** Python's `metadata.get(key, default)`. */
  function GetMeta(m: Metadata, key: string, default: MetaValue): (r: MetaValue)
    ensures key in m ==> r == m[key]
    ensures key !in m ==> r == default
  {
    if key in m then m[key] else default
  }

  /** One stored chunk: id, document text, metadata and embedding. */
  datatype Record = Record(id: string, document: string, metadata: Metadata, embedding: Vector)

  /** One retrieval hit as `ChromaStore.query` returns it. */
  datatype Hit = Hit(text: string, metadata: Metadata, distance: Option<real>)

  /** One stored chunk as `ChromaStore.list_memories` returns it. */
  datatype Memory = Memory(id: string, text: string, metadata: Metadata)

  /** The `OLLAMA_MODEL` setting's default. */
  const OllamaModel: string := "llama-3.2-70b"

  /** The `MAX_CONTEXT_TOKENS` setting's default, passed as the generation token budget. */
  const MaxContextTokens: nat := 4000
}
