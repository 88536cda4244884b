/**
 * The health endpoint (app/api/health.py): probe the model server and the store, and
 * classify the pair of results into one overall status.
 */
module Health {
  import opened Wrappers
  import opened Schemas
  import ChromaStore
  import OllamaClient

  /** The overall status the endpoint reports. */
  datatype Status = Healthy | Degraded | Unhealthy | Error

  /** The status as the response spells it; different statuses are spelled differently. */
  function StatusName(s: Status): (r: string)
    ensures r == "healthy" <==> s == Healthy
    ensures r == "degraded" <==> s == Degraded
    ensures r == "unhealthy" <==> s == Unhealthy
    ensures r == "error" <==> s == Error
  {
    match s
    case Healthy => "healthy"
    case Degraded => "degraded"
    case Unhealthy => "unhealthy"
    case Error => "error"
  }

  /** The endpoint's response; `status` is the spelled-out status. */
  datatype HealthReport = HealthReport(status: string, ollamaConnected: bool, chromaConnected: bool,
                                       timestamp: Timestamp)

  /** Both services up is healthy, exactly one is degraded, none is unhealthy. */
  function Classify(ollama: bool, chroma: bool): (s: Status)
    ensures s == Healthy <==> ollama && chroma
    ensures s == Degraded <==> ollama != chroma
    ensures s == Unhealthy <==> !ollama && !chroma
    ensures s != Error
  {
    if ollama && chroma then Healthy
    else if ollama || chroma then Degraded
    else Unhealthy
  }

  /**
   * `health_check`: the model server counts as connected when its probe answers 200, the
   * store when listing its memories does not fail. An unexpected exception anywhere turns
   * the report into "error" with both flags false.
   */
  function HealthCheck(probe: OllamaClient.Probe, c: ChromaStore.Collection, listFault: Option<string>,
                       unexpected: bool, now: Timestamp): (r: HealthReport)
    ensures unexpected ==> r == HealthReport("error", false, false, now)
    ensures !unexpected ==>
      && r.ollamaConnected == (probe == OllamaClient.ProbeReplied(200))
      && r.chromaConnected == listFault.None?
      && r.status == StatusName(Classify(r.ollamaConnected, r.chromaConnected))
    ensures r.timestamp == now
    ensures r.status == "error" <==> unexpected
  {
    if unexpected then HealthReport(StatusName(Error), false, false, now)
    else
      var ollama := OllamaClient.HealthCheck(probe);
      var chroma := ChromaStore.ListMemories(c, listFault).Ok?;
      HealthReport(StatusName(Classify(ollama, chroma)), ollama, chroma, now)
  }

  /** Whenever a report is not "error", its status and its two flags determine each other. */
  lemma StatusMatchesFlags(probe: OllamaClient.Probe, c: ChromaStore.Collection, listFault: Option<string>,
                           now: Timestamp)
    ensures
      var r := HealthCheck(probe, c, listFault, false, now);
      && (r.status == "healthy" <==> probe == OllamaClient.ProbeReplied(200) && listFault.None?)
      && (r.status == "unhealthy" <==> probe != OllamaClient.ProbeReplied(200) && listFault.Some?)
      && (r.status == "degraded" <==> (probe == OllamaClient.ProbeReplied(200)) != listFault.None?)
  {
  }
}
