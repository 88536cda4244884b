/**
 * The upload endpoints (app/api/upload.py): request validation in the order the handler
 * applies it, the temporary file the content passes through, the metadata handed to
 * ingestion, and how the response and the HTTP errors are shaped.
 *
 * The temporary file is modelled by its path and a log of the file-system effects; its
 * random name, its creation time and the write's success are oracles.
 */
module Upload {
  import opened Wrappers
  import opened Text
  import opened Schemas
  import Embeddings
  import ChromaStore

  /** The extensions the endpoint accepts, as the message lists them. */
  const AllowedOrder: seq<string> := [".txt", ".pdf", ".docx", ".doc"]
  const AllowedExtensions: set<string> := {".txt", ".pdf", ".docx", ".doc"}

  const MaxFileSize: nat := 10 * 1024 * 1024

  /** An HTTP error response: status code and detail. */
  datatype HttpError = HttpError(status: int, detail: string)

  const NoFilename: string := "No filename provided"
  const NoTextProvided: string := "No text content provided"

  function NotSupported(ext: string): string {
    "File type " + ext + " not supported. Allowed: " + Join(", ", AllowedOrder)
  }

  function TooLarge(): string {
    "File too large. Maximum size: " + NatToString(MaxFileSize / (1024 * 1024)) + "MB"
  }

  function UploadFailed(message: string): string {
    "Upload failed: " + message
  }

  function TextUploadFailed(message: string): string {
    "Text upload failed: " + message
  }

  /** What the handler does to the file system. */
  datatype Effect = CreateTemp(path: string) | RemoveTemp(path: string)

  /** The characters `tempfile` draws a random name from. */
  predicate IsTempChar(ch: char) {
    ('a' <= ch <= 'z') || ('0' <= ch <= '9') || ch == '_'
  }

  /** The collaborators of an upload: the temporary file, the clock, and ingestion. */
  datatype UploadEnv = UploadEnv(
    tmpDir: string,                      // `tempfile.gettempdir()`
    random: string,                      // the random part of the temporary file's name
    writeFault: Option<string>,          // whether creating or writing the file raises
    ctime: Result<string, string>,       // `str(os.path.getctime(...))`, or its error
    ingest: ChromaStore.IngestEnv)

  /** `NamedTemporaryFile(suffix=...)`: the directory, "tmp", the random part, the suffix. */
  function TempPath(env: UploadEnv, suffix: string): string {
    env.tmpDir + "/" + ("tmp" + env.random) + suffix
  }

  /** The response of a successful upload. */
  datatype UploadResponse = UploadResponse(message: string, chunksCreated: nat, filename: string, fileSize: nat)

  /** The store and adapter state after a request, with its response or error and its effects. */
  datatype Uploaded = Uploaded(store: ChromaStore.Collection, embedder: Embeddings.Embedder,
                               result: Result<UploadResponse, HttpError>, effects: seq<Effect>)

  /**
   * The steps after the content is written: build the metadata, ingest the temporary file,
   * and remove it whatever happened. `wrap` turns an exception's message into the detail.
   */
  function IngestTemp(c: ChromaStore.Collection, e: Embeddings.Embedder, path: string,
                      extra: Metadata, env: UploadEnv, wrap: string -> string,
                      respond: ChromaStore.IngestSummary -> UploadResponse): (r: Uploaded)
    ensures r.effects == [CreateTemp(path), RemoveTemp(path)]
    ensures r.result.Err? ==> r.store == c && r.result.error.status == 500
    ensures env.ctime.Err? ==> r == Uploaded(c, e, Err(HttpError(500, wrap(env.ctime.error))), r.effects)
    ensures env.ctime.Ok? ==>
      var ing := ChromaStore.IngestDocument(c, e, path, map["uploaded_at" := MStr(env.ctime.value)] + extra, env.ingest);
      && r.store == ing.store && r.embedder == ing.embedder
      && (ing.result.Ok? ==> r.result == Ok(respond(ing.result.value)))
      && (ing.result.Err? ==> r.result == Err(HttpError(500, wrap(ing.result.error))))
  {
    var effects := [CreateTemp(path), RemoveTemp(path)];
    match env.ctime
    case Err(m) => Uploaded(c, e, Err(HttpError(500, wrap(m))), effects)
    case Ok(stamp) =>
      var ing := ChromaStore.IngestDocument(c, e, path, map["uploaded_at" := MStr(stamp)] + extra, env.ingest);
      match ing.result
      case Err(m) => Uploaded(c, ing.embedder, Err(HttpError(500, wrap(m))), effects)
      case Ok(summary) => Uploaded(ing.store, ing.embedder, Ok(respond(summary)), effects)
  }

  /** The metadata `upload_document` adds besides the upload time. */
  function DocumentMetadata(filename: string, content: seq<bv8>): (m: Metadata)
    ensures m.Keys == {"original_filename", "file_size"}
    ensures m["original_filename"] == MStr(filename) && m["file_size"] == MInt(|content|)
  {
    map["original_filename" := MStr(filename), "file_size" := MInt(|content|)]
  }

  function DocumentResponse(filename: string): ChromaStore.IngestSummary -> UploadResponse {
    (s: ChromaStore.IngestSummary) => UploadResponse("Successfully uploaded and processed " + filename, s.chunksCreated, s.filename, s.fileSize)
  }

  /**
   * `upload_document`: reject a missing filename, then an unsupported extension, then
   * content over 10 MB, each with status 400 and before touching the file system; write
   * the content to a temporary file with the same (lower-cased) extension, ingest it,
   * remove it, and report ingestion's summary. Anything else fails with status 500.
   */
  function UploadDocument(c: ChromaStore.Collection, e: Embeddings.Embedder, filename: string,
                          content: seq<bv8>, env: UploadEnv): (r: Uploaded)
    ensures filename == [] ==> r == Uploaded(c, e, Err(HttpError(400, NoFilename)), [])
    ensures filename != [] && ChromaStore.FileExtension(filename) !in AllowedExtensions ==>
      r == Uploaded(c, e, Err(HttpError(400, NotSupported(ChromaStore.FileExtension(filename)))), [])
    ensures filename != [] && ChromaStore.FileExtension(filename) in AllowedExtensions && |content| > MaxFileSize ==>
      r == Uploaded(c, e, Err(HttpError(400, TooLarge())), [])
    ensures r.result.Err? ==> r.store == c
    ensures r.result.Err? && r.result.error.status == 500 ==>
      exists m :: r.result.error.detail == UploadFailed(m)
    ensures filename != [] && ChromaStore.FileExtension(filename) in AllowedExtensions && |content| <= MaxFileSize ==>
      && (r.result.Err? ==> r.result.error.status == 500)
      && (env.writeFault.Some? ==> r.result == Err(HttpError(500, UploadFailed(env.writeFault.value))))
      && (env.writeFault.None? && env.ctime.Err? ==> r.result == Err(HttpError(500, UploadFailed(env.ctime.error))))
    ensures r.result.Ok? ==>
      && filename != [] && ChromaStore.FileExtension(filename) in AllowedExtensions && |content| <= MaxFileSize
      && env.writeFault.None? && env.ctime.Ok?
      && var path := TempPath(env, ChromaStore.FileExtension(filename));
         var ing := ChromaStore.IngestDocument(c, e, path,
                      map["uploaded_at" := MStr(env.ctime.value)] + DocumentMetadata(filename, content), env.ingest);
         && ing.result.Ok? && r.store == ing.store && r.embedder == ing.embedder
         && r.result.value.message == "Successfully uploaded and processed " + filename
         && r.result.value.chunksCreated == ing.result.value.chunksCreated
         && r.result.value.filename == ing.result.value.filename
         && r.result.value.fileSize == ing.result.value.fileSize
         && r.effects == [CreateTemp(path), RemoveTemp(path)]
  {
    if filename == [] then Uploaded(c, e, Err(HttpError(400, NoFilename)), [])
    else
      var ext := ChromaStore.FileExtension(filename);
      if ext !in AllowedExtensions then Uploaded(c, e, Err(HttpError(400, NotSupported(ext))), [])
      else if |content| > MaxFileSize then Uploaded(c, e, Err(HttpError(400, TooLarge())), [])
      else
        var path := TempPath(env, ext);
        match env.writeFault
        case Some(m) => Uploaded(c, e, Err(HttpError(500, UploadFailed(m))), [CreateTemp(path)])
        case None => IngestTemp(c, e, path, DocumentMetadata(filename, content), env, UploadFailed, DocumentResponse(filename))
  }

  /** The metadata `upload_text` adds besides the upload time. */
  function TextMetadata(filename: string, text: string): (m: Metadata)
    ensures m.Keys == {"original_filename", "file_size", "type"}
    ensures m["original_filename"] == MStr(filename) && m["file_size"] == MInt(|text|)
    ensures m["type"] == MStr("text_input")
  {
    map["original_filename" := MStr(filename), "file_size" := MInt(|text|), "type" := MStr("text_input")]
  }

  const TextMessage: string := "Successfully processed text input"

  function TextResponse(filename: string): ChromaStore.IngestSummary -> UploadResponse {
    (s: ChromaStore.IngestSummary) => UploadResponse(TextMessage, s.chunksCreated, filename, s.fileSize)
  }

  /** The default name `upload_text` reports when the caller gives none. */
  const DefaultTextFilename: string := "text_input.txt"

  /**
   * `upload_text`: reject blank text with status 400 and no file-system effect; otherwise
   * write it to a ".txt" temporary file, ingest and remove it, and report the caller's
   * filename ("text_input.txt" when none is given) with ingestion's counts. Anything else
   * fails with status 500.
   */
  function UploadText(c: ChromaStore.Collection, e: Embeddings.Embedder, text: string,
                      filename: Option<string>, env: UploadEnv): (r: Uploaded)
    ensures IsBlank(text) <==> r == Uploaded(c, e, Err(HttpError(400, NoTextProvided)), [])
    ensures r.result.Err? ==> r.store == c
    ensures r.result.Err? && r.result.error.status == 500 ==>
      exists m :: r.result.error.detail == TextUploadFailed(m)
    ensures !IsBlank(text) ==>
      && (r.result.Err? ==> r.result.error.status == 500)
      && (env.writeFault.Some? ==> r.result == Err(HttpError(500, TextUploadFailed(env.writeFault.value))))
      && (env.writeFault.None? && env.ctime.Err? ==> r.result == Err(HttpError(500, TextUploadFailed(env.ctime.error))))
    ensures r.result.Ok? ==>
      && !IsBlank(text) && env.writeFault.None? && env.ctime.Ok?
      && var name := filename.GetOr(DefaultTextFilename);
         var path := TempPath(env, ".txt");
         var ing := ChromaStore.IngestDocument(c, e, path,
                      map["uploaded_at" := MStr(env.ctime.value)] + TextMetadata(name, text), env.ingest);
         && ing.result.Ok? && r.store == ing.store && r.embedder == ing.embedder
         && r.result.value == UploadResponse(TextMessage, ing.result.value.chunksCreated, name, ing.result.value.fileSize)
         && r.effects == [CreateTemp(path), RemoveTemp(path)]
    ensures r.result.Ok? && filename.None? ==> r.result.value.filename == "text_input.txt"
  {
    StripEmptyIffBlank(text);
    if Strip(text) == [] then Uploaded(c, e, Err(HttpError(400, NoTextProvided)), [])
    else
      var name := filename.GetOr(DefaultTextFilename);
      var path := TempPath(env, ".txt");
      match env.writeFault
      case Some(m) => Uploaded(c, e, Err(HttpError(500, TextUploadFailed(m))), [CreateTemp(path)])
      case None => IngestTemp(c, e, path, TextMetadata(name, text), env, TextUploadFailed, TextResponse(name))
  }

  /**
   * Every temporary file the handler creates is removed again, except when writing it
   * failed; a request rejected by validation leaves no trace at all.
   */
  lemma TempFileRemoved(c: ChromaStore.Collection, e: Embeddings.Embedder, filename: string,
                        content: seq<bv8>, env: UploadEnv)
    ensures
      var r := UploadDocument(c, e, filename, content, env);
      || r.effects == []
      || (env.writeFault.Some? && |r.effects| == 1 && r.effects[0].CreateTemp?)
      || (env.writeFault.None? && |r.effects| == 2 && r.effects[0].CreateTemp? && r.effects[1] == RemoveTemp(r.effects[0].path))
    ensures
      var r := UploadDocument(c, e, filename, content, env);
      r.result.Err? && r.result.error.status == 400 ==> r.effects == [] && r.store == c && r.embedder == e
    ensures
      var r := UploadDocument(c, e, filename, content, env);
      r.effects != [] <==>
        filename != [] && ChromaStore.FileExtension(filename) in AllowedExtensions && |content| <= MaxFileSize
  {
  }

  /** Text is written out exactly when it is not blank, and the file is removed unless the write failed. */
  lemma TextTempFileRemoved(c: ChromaStore.Collection, e: Embeddings.Embedder, text: string, filename: Option<string>,
                            env: UploadEnv)
    ensures
      var r := UploadText(c, e, text, filename, env);
      && (r.effects != [] <==> !IsBlank(text))
      && (r.effects != [] ==> r.effects[0] == CreateTemp(TempPath(env, ".txt")))
      && (r.effects != [] && env.writeFault.None? ==> r.effects == [CreateTemp(TempPath(env, ".txt")), RemoveTemp(TempPath(env, ".txt"))])
  {
  }

  /** The accepted extensions are exactly the ones ingestion can read, and are lower case. */
  lemma AllowedAreSupported()
    ensures AllowedExtensions == ChromaStore.SupportedExtensions
    ensures forall ext :: ext in AllowedExtensions ==> Lower(ext) == ext && |ext| > 0 && IsExtension(ext)
    ensures forall ext :: ext in AllowedExtensions <==> ext in AllowedOrder
  {
    assert Lower(".txt") == ".txt";
    assert Lower(".pdf") == ".pdf";
    assert Lower(".docx") == ".docx";
    assert Lower(".doc") == ".doc";
  }

  /**
   * The temporary file keeps the upload's extension, so ingestion reads an accepted upload
   * with the reader its extension selects, and a text upload as plain text.
   */
  lemma TempPathKeepsExtension(env: UploadEnv, ext: string)
    requires ext in AllowedExtensions
    requires forall i :: 0 <= i < |env.random| ==> IsTempChar(env.random[i])
    ensures ChromaStore.FileExtension(TempPath(env, ext)) == ext
    ensures ChromaStore.Dispatch(ChromaStore.FileExtension(TempPath(env, ext))).Ok?
    ensures ChromaStore.FileExtension(TempPath(env, ".txt")) == ".txt"
  {
    AllowedAreSupported();
    var stem := "tmp" + env.random;
    assert stem[0] == 't';
    assert forall i :: 0 <= i < |stem| ==> stem[i] != '.' && stem[i] != '/' by {
      forall i | 0 <= i < |stem|
        ensures stem[i] != '.' && stem[i] != '/'
      {
        if i >= 3 {
          assert stem[i] == env.random[i - 3];
        }
      }
    }
    SplitExtOfJoin(env.tmpDir, stem, ext);
    SplitExtOfJoin(env.tmpDir, stem, ".txt");
  }

  /** An upload whose ingestion succeeds is reported with ingestion's own chunk count and sizes. */
  lemma UploadReportsIngestion(c: ChromaStore.Collection, e: Embeddings.Embedder, filename: string,
                               content: seq<bv8>, env: UploadEnv)
    requires filename != [] && ChromaStore.FileExtension(filename) in AllowedExtensions
    requires |content| <= MaxFileSize && env.writeFault.None? && env.ctime.Ok?
    ensures
      var path := TempPath(env, ChromaStore.FileExtension(filename));
      var ing := ChromaStore.IngestDocument(c, e, path,
                   map["uploaded_at" := MStr(env.ctime.value)] + DocumentMetadata(filename, content), env.ingest);
      var r := UploadDocument(c, e, filename, content, env);
      && (r.result.Ok? <==> ing.result.Ok?)
      && (ing.result.Err? ==> r.result == Err(HttpError(500, UploadFailed(ing.result.error))))
      && r.store == ing.store
  {
  }

  /**
   * A text upload past validation and the write is reported exactly as its ingestion
   * went, and leaves the store as ingestion left it.
   */
  lemma UploadTextReportsIngestion(c: ChromaStore.Collection, e: Embeddings.Embedder, text: string,
                                   filename: Option<string>, env: UploadEnv)
    requires !IsBlank(text) && env.writeFault.None? && env.ctime.Ok?
    ensures
      var ing := ChromaStore.IngestDocument(c, e, TempPath(env, ".txt"),
                   map["uploaded_at" := MStr(env.ctime.value)] + TextMetadata(filename.GetOr(DefaultTextFilename), text),
                   env.ingest);
      var r := UploadText(c, e, text, filename, env);
      && (r.result.Ok? <==> ing.result.Ok?)
      && (ing.result.Err? ==> r.result == Err(HttpError(500, TextUploadFailed(ing.result.error))))
      && r.store == ing.store
  {
    StripEmptyIffBlank(text);
  }

  /**
   * A document upload reports the name of the temporary file it ingested ("tmp", the
   * random part, the extension), not the name the client uploaded.
   */
  lemma DocumentResponseNamesTempFile(c: ChromaStore.Collection, e: Embeddings.Embedder, filename: string,
                                      content: seq<bv8>, env: UploadEnv)
    requires forall i :: 0 <= i < |env.random| ==> IsTempChar(env.random[i])
    ensures
      var r := UploadDocument(c, e, filename, content, env);
      r.result.Ok? ==> r.result.value.filename == "tmp" + env.random + ChromaStore.FileExtension(filename)
  {
    var ext := ChromaStore.FileExtension(filename);
    var r := UploadDocument(c, e, filename, content, env);
    if r.result.Ok? {
      UploadReportsBasename(c, e, filename, content, env);
      TempPathBasename(env, ext);
    }
  }

  /** A successful document upload reports the basename of the temporary file. */
  lemma UploadReportsBasename(c: ChromaStore.Collection, e: Embeddings.Embedder, filename: string,
                              content: seq<bv8>, env: UploadEnv)
    ensures
      var r := UploadDocument(c, e, filename, content, env);
      r.result.Ok? ==>
        && ChromaStore.FileExtension(filename) in AllowedExtensions
        && r.result.value.filename == Basename(TempPath(env, ChromaStore.FileExtension(filename)))
  {
  }

  /** The basename of a temporary path is "tmp", the random part and the suffix. */
  lemma TempPathBasename(env: UploadEnv, ext: string)
    requires forall i :: 0 <= i < |env.random| ==> IsTempChar(env.random[i])
    requires ext in AllowedExtensions
    ensures Basename(TempPath(env, ext)) == "tmp" + env.random + ext
  {
    assert '/' !in ext;
    TempNameSlashFree(env.random, ext);
    assert TempPath(env, ext) == env.tmpDir + "/" + ("tmp" + env.random + ext);
    BasenameOfJoin(env.tmpDir, "tmp" + env.random + ext);
  }

  /** A temporary file's name has no slash when its random part and its suffix have none. */
  lemma TempNameSlashFree(random: string, suffix: string)
    requires forall i :: 0 <= i < |random| ==> IsTempChar(random[i])
    requires '/' !in suffix
    ensures '/' !in "tmp" + random + suffix
  {
    var name := "tmp" + random + suffix;
    forall i | 0 <= i < |name|
      ensures name[i] != '/'
    {
      if 3 <= i < 3 + |random| {
        assert name[i] == random[i - 3];
      } else if i >= 3 + |random| {
        assert name[i] == suffix[i - 3 - |random|];
      }
    }
  }
}
