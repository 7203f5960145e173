/**
 * The record threaded through the linear report pipeline. Every key of the
 * Python `TypedDict` is optional, so each field is an `Option`; the search
 * intelligence report can also be present with the value `None`.
 */
module PipelineState {
  import opened Wrappers
  import opened Json
  import opened AzureIo
  import opened GeminiClient
  import opened TechPacks

  datatype State = State(
    patentPdfUrl: Option<string>,
    historyPdfUrl: Option<string>,
    patentPdfBytes: Option<Bytes>,
    historyPdfBytes: Option<Bytes>,
    azureContainerUrl: Option<string>,
    baseName: Option<string>,
    techCenter: Option<Json>,
    techPackName: Option<string>,
    techPackContent: Option<string>,
    stage1Extraction: Option<Record>,
    stage2a: Option<Record>,
    stage2b: Option<Record>,
    stage2c: Option<Record>,
    stage2Forensic: Option<Record>,
    stage3ReportMd: Option<string>,
    stage4QcJson: Option<Record>,
    stage4FinalReportMd: Option<string>,
    searchIntelReportMd: Option<Option<string>>,
    stage3Url: Option<string>,
    stage4Url: Option<string>,
    searchIntelUrl: Option<string>,
    error: Option<string>,
    status: Option<string>)

  /** Everything outside the pipeline's own code: the model, blob storage and the tech-pack files. */
  datatype Services = Services(gemini: Gemini, blobs: Blobs, readPack: PackReader)

  const Pending := "pending"
  const Processing := "processing"
  const Completed := "completed"
  const Failed := "failed"

  /** `state.get("status") == "failed"`: the guard every main-line node checks first. */
  predicate IsFailed(s: State)
  {
    s.status == Some(Failed)
  }

  /** The `except` branch of a node: the merged updates plus status "failed" and a prefixed message. */
  function Fail(s: State, prefix: string, message: string): (r: State)
    ensures IsFailed(r) && r.error == Some(prefix + message)
    ensures r == s.(status := r.status, error := r.error)
  {
    s.(status := Some(Failed), error := Some(prefix + message))
  }

  /** `state["key"]` on an optional field: the value, or the `KeyError` text. */
  function Required<T>(v: Option<T>, key: string): (r: Result<T, string>)
    ensures v.Some? ==> r == Ok(v.value)
    ensures v.None? ==> r == Err(KeyError(key))
  {
    if v.Some? then Ok(v.value) else Err(KeyError(key))
  }

  /** The state `run_patent_pipeline` starts from: the two URLs and status "pending". */
  function InitialState(patentPdfUrl: string, historyPdfUrl: string): (r: State)
    ensures r.patentPdfUrl == Some(patentPdfUrl) && r.historyPdfUrl == Some(historyPdfUrl)
    ensures r.status == Some(Pending) && !IsFailed(r)
    ensures r == State(r.patentPdfUrl, r.historyPdfUrl, None, None, None, None, None, None, None, None,
                       None, None, None, None, None, None, None, None, None, None, None, None, r.status)
  {
    State(Some(patentPdfUrl), Some(historyPdfUrl), None, None, None, None, None, None, None, None,
          None, None, None, None, None, None, None, None, None, None, None, None, Some(Pending))
  }

  /** `should_continue`: "end" exactly for a failed state. */
  function ShouldContinue(s: State): (r: string)
    ensures r == "end" <==> IsFailed(s)
    ensures r == "end" || r == "continue"
  {
    if IsFailed(s) then "end" else "continue"
  }

  /**
   * The first `len(...)` in a node's completion log that raises: each key
   * is read with `.get(key, [])` and must have a length.
   */
  function LogLengths(result: Record, keys: seq<string>): (r: Option<string>)
    ensures r.None? <==> forall i :: 0 <= i < |keys| ==> LenError(GetOr(result, keys[i], JArr([]))).None?
    ensures r.Some? ==> exists i :: 0 <= i < |keys| && r == LenError(GetOr(result, keys[i], JArr([])))
  {
    if |keys| == 0 then None
    else
      match LenError(GetOr(result, keys[0], JArr([])))
      case Some(e) => Some(e)
      case None =>
        var rest := LogLengths(result, keys[1..]);
        assert forall i :: 1 <= i < |keys| ==> keys[i] == keys[1..][i - 1];
        rest
  }
}
