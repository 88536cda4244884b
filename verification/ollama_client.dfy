/**
 * The generation client (app/core/ollama_client.py): the request payload, the reading
 * of a streamed reply, the non-streamed reply, the mapping of failures to messages, and
 * the availability probe. The HTTP exchange itself is an oracle: the model receives what
 * the server (or the transport) produced.
 *
 * As written, the source file cannot be imported (`List` is used in a signature without
 * being imported, and the generator body mixes `yield` with `return value`), so the two
 * branches of `generate` are modelled separately, each with its evident intent.
 */
module OllamaClient {
  import opened Wrappers
  import opened Text

  // ---------------------------------------------------------------- payload

  const Temperature: real := 0.7
  const TopP: real := 0.9

  /** The `max_tokens` default of `generate`. */
  const DefaultMaxTokens: int := 512

  /** The `options` object of a generation request. */
  datatype Options = Options(numPredict: int, temperature: real, topP: real, stop: Option<seq<string>>)

  /** The JSON body posted to `/api/generate`; `system` is absent when `None`. */
  datatype Payload = Payload(model: string, prompt: string, stream: bool, options: Options,
                             system: Option<string>)

  /** Python truthiness of an optional string: present and non-empty. */
  predicate Truthy(s: Option<string>) {
    s.Some? && s.value != ""
  }

  /** `model_name or self.model`. */
  function ChooseModel(modelName: Option<string>, fallback: string): (r: string)
    ensures Truthy(modelName) ==> r == modelName.value
    ensures !Truthy(modelName) ==> r == fallback
  {
    if Truthy(modelName) then modelName.value else fallback
  }

  /**
   * The payload `generate` builds: always model, prompt, stream and the three options;
   * `system` only for a non-empty system prompt, `stop` only for a non-empty stop list;
   * `num_predict` is the caller's token limit, 512 when none is given.
   */
  function BuildPayload(prompt: string, modelName: Option<string>, fallback: string, maxTokens: Option<int>,
                        stream: bool, systemPrompt: Option<string>, stop: Option<seq<string>>)
    : (p: Payload)
    ensures p.model == ChooseModel(modelName, fallback)
    ensures p.prompt == prompt && p.stream == stream
    ensures p.options.numPredict == maxTokens.GetOr(DefaultMaxTokens)
    ensures maxTokens.None? ==> p.options.numPredict == 512
    ensures p.options.temperature == Temperature && p.options.topP == TopP
    ensures p.system.Some? <==> Truthy(systemPrompt)
    ensures p.system.Some? ==> p.system == systemPrompt
    ensures p.options.stop.Some? <==> stop.Some? && |stop.value| > 0
    ensures p.options.stop.Some? ==> p.options.stop == stop
  {
    Payload(ChooseModel(modelName, fallback), prompt, stream,
            Options(maxTokens.GetOr(DefaultMaxTokens), Temperature, TopP, if stop.Some? && |stop.value| > 0 then stop else None),
            if Truthy(systemPrompt) then systemPrompt else None)
  }

  // ---------------------------------------------------------------- streamed reply

  /** What `json.loads` makes of one non-blank line. */
  datatype Parsed =
    | NotJson                                         // raises; the line is skipped
    | NotAnObject                                     // a list, string or number: lookups raise
    | Object(response: Option<string>, done: bool)    // `done` is the truthiness of `data.get("done")`

  /** One line of the streamed reply, with what parsing it yields. */
  datatype StreamLine = StreamLine(text: string, parsed: Parsed)

  /** A line the loop neither skips nor ignores: non-blank and a JSON object. */
  predicate IsRecord(line: StreamLine) {
    !IsBlank(line.text) && line.parsed.Object?
  }

  /** A record that ends the stream. */
  predicate IsDone(line: StreamLine) {
    IsRecord(line) && line.parsed.done
  }

  /** The fragment a line yields: the record's `response`, if it has one. */
  function Yielded(line: StreamLine): seq<string> {
    if IsRecord(line) && line.parsed.response.Some? then [line.parsed.response.value] else []
  }

  /**
   * The fragments the stream loop yields: blank and malformed lines are skipped, each
   * record's `response` is yielded, and the loop stops after the first `done` record.
   */
  function StreamFragments(lines: seq<StreamLine>): seq<string>
    decreases |lines|
  {
    if |lines| == 0 then []
    else if IsDone(lines[0]) then Yielded(lines[0])
    else Yielded(lines[0]) + StreamFragments(lines[1..])
  }

  /** How many lines the loop reads: through the first `done` record, or all of them. */
  function Consumed(lines: seq<StreamLine>): (n: nat)
    ensures n <= |lines|
    ensures forall j :: 0 <= j < n - 1 ==> !IsDone(lines[j])
    ensures n < |lines| ==> n > 0 && IsDone(lines[n - 1])
    decreases |lines|
  {
    if |lines| == 0 then 0
    else if IsDone(lines[0]) then 1
    else 1 + Consumed(lines[1..])
  }

  /** Every fragment the lines carry, with no stopping. */
  function AllFragments(lines: seq<StreamLine>): seq<string>
    decreases |lines|
  {
    if |lines| == 0 then [] else Yielded(lines[0]) + AllFragments(lines[1..])
  }

  lemma {:induction false} AllFragmentsAppend(a: seq<StreamLine>, b: seq<StreamLine>)
    ensures AllFragments(a + b) == AllFragments(a) + AllFragments(b)
    decreases |a|
  {
    if |a| == 0 {
      assert a + b == b;
    } else {
      assert (a + b)[1..] == a[1..] + b;
      AllFragmentsAppend(a[1..], b);
    }
  }

  /** The stream yields exactly the fragments of the lines up to and including the first `done`. */
  lemma {:induction false} StreamStopsAtDone(lines: seq<StreamLine>)
    ensures StreamFragments(lines) == AllFragments(lines[..Consumed(lines)])
    decreases |lines|
  {
    if |lines| > 0 {
      if IsDone(lines[0]) {
        assert lines[..1] == [lines[0]];
        assert AllFragments(lines[..1]) == Yielded(lines[0]) + AllFragments([]);
      } else {
        StreamStopsAtDone(lines[1..]);
        assert lines[..Consumed(lines)] == [lines[0]] + lines[1..][..Consumed(lines[1..])];
      }
    }
  }

  /** Nothing after a `done` record reaches the caller. */
  lemma {:induction false} LinesAfterDoneIgnored(lines: seq<StreamLine>, more: seq<StreamLine>)
    requires exists j :: 0 <= j < |lines| && IsDone(lines[j])
    ensures StreamFragments(lines + more) == StreamFragments(lines)
    decreases |lines|
  {
    assert (lines + more)[0] == lines[0];
    if !IsDone(lines[0]) {
      var j :| 0 <= j < |lines| && IsDone(lines[j]);
      assert IsDone(lines[1..][j - 1]);
      assert (lines + more)[1..] == lines[1..] + more;
      LinesAfterDoneIgnored(lines[1..], more);
    }
  }

  /**
   * The body of the stream loop for one line: a blank line or one that fails to parse as
   * a JSON object is skipped; a record yields its `response` if it has one and stops the
   * loop if it is `done`.
   */
  method HandleLine(line: StreamLine) returns (yielded: seq<string>, stop: bool)
    ensures yielded == Yielded(line)
    ensures stop == IsDone(line)
  {
    yielded := [];
    stop := false;
    StripEmptyIffBlank(line.text);
    if Strip(line.text) != [] {
      match line.parsed
      case NotJson =>
      case NotAnObject =>
      case Object(response, done) =>
        if response.Some? {
          yielded := [response.value];
        }
        if done {
          stop := true;
        }
    }
  }

  /**
   * The stream loop: read lines in order, collecting what each yields, until a line
   * stops the loop or the lines run out.
   */
  method ConsumeStream(lines: seq<StreamLine>) returns (fragments: seq<string>, read: nat)
    ensures read == Consumed(lines)
    ensures fragments == AllFragments(lines[..read])
    ensures fragments == StreamFragments(lines)
  {
    fragments := [];
    read := 0;
    var stopped := false;
    while read < |lines| && !stopped
      invariant read <= |lines|
      invariant fragments == AllFragments(lines[..read])
      invariant stopped ==> read > 0 && IsDone(lines[read - 1])
      invariant stopped ==> forall j :: 0 <= j < read - 1 ==> !IsDone(lines[j])
      invariant !stopped ==> forall j :: 0 <= j < read ==> !IsDone(lines[j])
      decreases |lines| - read
    {
      var line := lines[read];
      var yielded, stop := HandleLine(line);
      AllFragmentsAppend(lines[..read], [line]);
      assert lines[..read + 1] == lines[..read] + [line];
      fragments := fragments + yielded;
      stopped := stop;
      read := read + 1;
    }
    ConsumedCharacterised(lines, read);
    StreamStopsAtDone(lines);
  }

  /** `Consumed` is the first position after which a `done` record has been read, or the end. */
  lemma {:induction false} ConsumedCharacterised(lines: seq<StreamLine>, n: nat)
    requires n <= |lines|
    requires || (n > 0 && IsDone(lines[n - 1]) && forall j :: 0 <= j < n - 1 ==> !IsDone(lines[j]))
             || (n == |lines| && forall j :: 0 <= j < n ==> !IsDone(lines[j]))
    ensures n == Consumed(lines)
    decreases n
  {
    if n > 0 && !IsDone(lines[0]) {
      var rest := lines[1..];
      assert forall j :: 0 <= j < n - 2 ==> rest[j] == lines[j + 1];
      ConsumedCharacterised(rest, n - 1);
    }
  }

  // ---------------------------------------------------------------- failures

  /** How a request went wrong before a usable reply arrived. */
  datatype Failure = TimedOut | TransportError(message: string)

  /** The classes of failure `generate` distinguishes. */
  datatype GenError = Timeout | ApiError(status: int) | OtherError(message: string)

  /** The leading words of each class's message. */
  const TimeoutPrefix: string := "Request timed out"
  const ApiErrorPrefix: string := "Ollama API error: "
  const OtherErrorPrefix: string := "Failed to generate response: "

  const TimeoutMessage: string := TimeoutPrefix + " - model may be too large for available resources"

  /** The message of the exception `generate` raises for each class. */
  function ErrorMessage(e: GenError): string {
    match e
    case Timeout => TimeoutMessage
    case ApiError(status) => ApiErrorPrefix + IntToString(status)
    case OtherError(m) => OtherErrorPrefix + m
  }

  /** `httpx.TimeoutException` is a timeout; every other transport exception is "other". */
  function Classify(f: Failure): GenError {
    match f
    case TimedOut => Timeout
    case TransportError(m) => OtherError(m)
  }

  /**
   * A caller can tell a timeout from an API error from any other failure by its message:
   * each class's message starts with its own leading words and with neither of the others'.
   */
  lemma MessagesDistinguishKinds(e: GenError)
    ensures TimeoutPrefix <= ErrorMessage(e) <==> e.Timeout?
    ensures ApiErrorPrefix <= ErrorMessage(e) <==> e.ApiError?
    ensures OtherErrorPrefix <= ErrorMessage(e) <==> e.OtherError?
  {
    var m := ErrorMessage(e);
    assert TimeoutPrefix[0] == 'R' && ApiErrorPrefix[0] == 'O' && OtherErrorPrefix[0] == 'F';
    match e
    case Timeout =>
      assert TimeoutPrefix <= m;
      assert m[0] == 'R';
    case ApiError(status) =>
      assert ApiErrorPrefix <= m;
      assert m[0] == 'O';
    case OtherError(msg) =>
      assert OtherErrorPrefix <= m;
      assert m[0] == 'F';
  }

  /** `response.raise_for_status()` passes exactly the 2xx statuses. */
  predicate IsSuccess(status: int) {
    200 <= status <= 299
  }

  // ---------------------------------------------------------------- non-streamed reply

  /** The body of a non-streamed reply as `response.json()` reads it. */
  datatype Body = BodyNotJson(message: string) | BodyNotObject(message: string) | BodyObject(response: Option<string>)

  /** What the non-streamed exchange produced. */
  datatype Exchange = Failed(failure: Failure) | Replied(status: int, body: Body)

  /**
   * The non-streamed branch of `generate`: the reply's `response` field, "" when absent;
   * a non-2xx status is an API error; anything else that raises is "other".
   */
  function Generate(exchange: Exchange): (r: Result<string, GenError>)
    ensures exchange.Failed? ==> r == Err(Classify(exchange.failure))
    ensures exchange.Replied? && !IsSuccess(exchange.status) ==> r == Err(ApiError(exchange.status))
    ensures exchange.Replied? && IsSuccess(exchange.status) && exchange.body.BodyObject? ==>
      r == Ok(exchange.body.response.GetOr(""))
    ensures exchange.Replied? && IsSuccess(exchange.status) && !exchange.body.BodyObject? ==>
      r == Err(OtherError(exchange.body.message))
    ensures r.Err? && r.error.ApiError? ==> exchange.Replied? && !IsSuccess(exchange.status)
  {
    match exchange
    case Failed(f) => Err(Classify(f))
    case Replied(status, body) =>
      if !IsSuccess(status) then Err(ApiError(status))
      else
        match body
        case BodyNotJson(m) => Err(OtherError(m))
        case BodyNotObject(m) => Err(OtherError(m))
        case BodyObject(response) => Ok(response.GetOr(""))
  }

  // ---------------------------------------------------------------- streamed reply

  /** What the streamed exchange produced: lines, then either a clean end or a failure. */
  datatype StreamExchange =
    | StreamFailed(failure: Failure)
    | StreamOpened(status: int, lines: seq<StreamLine>, end: Option<Failure>)

  /** The fragments a streamed call yields, and the failure it finally raises, if any. */
  datatype StreamResult = StreamResult(fragments: seq<string>, error: Option<GenError>)

  /**
   * The streamed branch of `generate`: a non-2xx status yields nothing and is an API
   * error; otherwise the fragments are those of the stream loop, and a failure of the
   * connection is raised only if it comes before a `done` record.
   */
  function GenerateStream(exchange: StreamExchange): (r: StreamResult)
    ensures exchange.StreamFailed? ==> r == StreamResult([], Some(Classify(exchange.failure)))
    ensures exchange.StreamOpened? && !IsSuccess(exchange.status) ==> r == StreamResult([], Some(ApiError(exchange.status)))
    ensures exchange.StreamOpened? && IsSuccess(exchange.status) ==>
      && r.fragments == AllFragments(exchange.lines[..Consumed(exchange.lines)])
      && ((exists j :: 0 <= j < |exchange.lines| && IsDone(exchange.lines[j])) ==> r.error.None?)
      && ((forall j :: 0 <= j < |exchange.lines| ==> !IsDone(exchange.lines[j])) && exchange.end.Some? ==>
            r.error == Some(Classify(exchange.end.value)))
      && (exchange.end.None? ==> r.error.None?)
  {
    match exchange
    case StreamFailed(f) => StreamResult([], Some(Classify(f)))
    case StreamOpened(status, lines, end) =>
      if !IsSuccess(status) then StreamResult([], Some(ApiError(status)))
      else
        StreamStopsAtDone(lines);
        var stopped := exists j :: 0 <= j < |lines| && IsDone(lines[j]);
        StreamResult(StreamFragments(lines),
                     if stopped || end.None? then None else Some(Classify(end.value)))
  }

  // ---------------------------------------------------------------- health_check

  /** What the `/api/tags` probe produced. */
  datatype Probe = ProbeFailed(message: string) | ProbeReplied(status: int)

  /** `health_check`: true exactly when the probe answers with status 200. */
  function HealthCheck(probe: Probe): (r: bool)
    ensures r <==> probe == ProbeReplied(200)
  {
    match probe
    case ProbeFailed(_) => false
    case ProbeReplied(status) => status == 200
  }
}
