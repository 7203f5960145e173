/**
 * `stage2b_node`: search history and technical premise analysis of the
 * Stage 1 record and the Stage 2A result.
 */
module Stage2bNode {
  import opened Wrappers
  import opened Json
  import opened GeminiClient
  import opened PipelineState

  const Prefix := "Stage 2B failed: "

  const LoggedKeys := ["technical_reps", "search_gap_analysis", "convergence_rows"]

  /** The value `client.call_stage2b(...)` returns, or the exception that escapes the call. */
  function Stage2bResult(svc: Services, s: State): (r: Result<Record, string>)
    ensures svc.gemini.initError.Some? ==> r == Err(svc.gemini.initError.value)
    ensures svc.gemini.initError.None? && s.stage1Extraction.None? ==> r == Err(KeyError("stage1_extraction"))
    ensures svc.gemini.initError.None? && s.stage1Extraction.Some? && s.stage2a.None? ==> r == Err(KeyError("stage2a"))
    ensures svc.gemini.initError.None? && s.stage1Extraction.Some? && s.stage2a.Some? ==>
      r == CallJsonStage(svc.gemini, Stage2bPrompt(s.stage1Extraction.value, s.stage2a.value, s.techPackContent.GetOr("")))
  {
    if svc.gemini.initError.Some? then Err(svc.gemini.initError.value)
    else
      match Required(s.stage1Extraction, "stage1_extraction")
      case Err(e) => Err(e)
      case Ok(stage1) =>
        match Required(s.stage2a, "stage2a")
        case Err(e) => Err(e)
        case Ok(stage2a) => CallJsonStage(svc.gemini, Stage2bPrompt(stage1, stage2a, s.techPackContent.GetOr("")))
  }

  /** The node: skipped after a failure; otherwise the record is stored under `stage2b`. */
  function Stage2b(svc: Services, s: State): (r: State)
    ensures IsFailed(s) ==> r == s
    ensures r == s.(stage2b := r.stage2b, status := r.status, error := r.error)
    ensures !IsFailed(s) && Stage2bResult(svc, s).Err? ==> r == Fail(s, Prefix, Stage2bResult(svc, s).error)
    ensures !IsFailed(s) && Stage2bResult(svc, s).Ok? ==>
      var result := Stage2bResult(svc, s).value;
      r.stage2b == Some(result)
      && (LogLengths(result, LoggedKeys).None? ==> r.status == s.status && r.error == s.error)
      && (LogLengths(result, LoggedKeys).Some? ==> IsFailed(r) && r.error == Some(Prefix + LogLengths(result, LoggedKeys).value))
  {
    if IsFailed(s) then s
    else
      match Stage2bResult(svc, s)
      case Err(e) => Fail(s, Prefix, e)
      case Ok(result) =>
        var s1 := s.(stage2b := Some(result));
        match LogLengths(result, LoggedKeys)
        case None => s1
        case Some(e) => Fail(s1, Prefix, e)
  }
}
