/**
 * `stage1_extraction_node`: sends the PDFs to the record-extraction prompt
 * and stores the JSON record it returns. Schema validation only logs, so
 * any record is stored.
 */
module Stage1Node {
  import opened Wrappers
  import opened Json
  import opened GeminiClient
  import opened PipelineState

  const Prefix := "Stage 1 failed: "

  /** The keys whose lengths the completion log reads. */
  const LoggedKeys := ["events", "claims_diff"]

  /** The value `client.call_stage1(...)` returns, or the exception that escapes the call. */
  function Stage1Result(svc: Services, s: State): (r: Result<Record, string>)
    ensures svc.gemini.initError.Some? ==> r == Err(svc.gemini.initError.value)
    ensures svc.gemini.initError.None? && s.historyPdfBytes.None? ==> r == Err(KeyError("history_pdf_bytes"))
    ensures svc.gemini.initError.None? && s.historyPdfBytes.Some? ==>
      r == CallStage1(svc.gemini, s.historyPdfBytes.value, s.patentPdfBytes)
  {
    if svc.gemini.initError.Some? then Err(svc.gemini.initError.value)
    else
      match Required(s.historyPdfBytes, "history_pdf_bytes")
      case Err(e) => Err(e)
      case Ok(history) => CallStage1(svc.gemini, history, s.patentPdfBytes)
  }

  /**
   * The node: skipped after a failure; otherwise the record is stored, and
   * a failure of the call or of the completion log sets status "failed".
   */
  function Stage1Extraction(svc: Services, s: State): (r: State)
    ensures IsFailed(s) ==> r == s
    ensures r == s.(stage1Extraction := r.stage1Extraction, status := r.status, error := r.error)
    ensures !IsFailed(s) && Stage1Result(svc, s).Err? ==> r == Fail(s, Prefix, Stage1Result(svc, s).error)
    ensures !IsFailed(s) && Stage1Result(svc, s).Ok? ==>
      var result := Stage1Result(svc, s).value;
      r.stage1Extraction == Some(result)
      && (LogLengths(result, LoggedKeys).None? ==> r.status == s.status && r.error == s.error)
      && (LogLengths(result, LoggedKeys).Some? ==> IsFailed(r) && r.error == Some(Prefix + LogLengths(result, LoggedKeys).value))
  {
    if IsFailed(s) then s
    else
      match Stage1Result(svc, s)
      case Err(e) => Fail(s, Prefix, e)
      case Ok(result) =>
        var s1 := s.(stage1Extraction := Some(result));
        match LogLengths(result, LoggedKeys)
        case None => s1
        case Some(e) => Fail(s1, Prefix, e)
  }
}
