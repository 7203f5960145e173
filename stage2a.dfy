/**
 * `stage2a_node`: claim construction and estoppel analysis of the Stage 1
 * record under the routed tech pack.
 */
module Stage2aNode {
  import opened Wrappers
  import opened Json
  import opened GeminiClient
  import opened PipelineState

  const Prefix := "Stage 2A failed: "

  const LoggedKeys := ["claim_construction_rows", "estoppel_matrix_rows"]

  /** The value `client.call_stage2a(...)` returns, or the exception that escapes the call. */
  function Stage2aResult(svc: Services, s: State): (r: Result<Record, string>)
    ensures svc.gemini.initError.Some? ==> r == Err(svc.gemini.initError.value)
    ensures svc.gemini.initError.None? && s.stage1Extraction.None? ==> r == Err(KeyError("stage1_extraction"))
    ensures svc.gemini.initError.None? && s.stage1Extraction.Some? ==>
      r == CallJsonStage(svc.gemini, Stage2aPrompt(s.stage1Extraction.value, s.techPackContent.GetOr("")))
  {
    if svc.gemini.initError.Some? then Err(svc.gemini.initError.value)
    else
      match Required(s.stage1Extraction, "stage1_extraction")
      case Err(e) => Err(e)
      case Ok(stage1) => CallJsonStage(svc.gemini, Stage2aPrompt(stage1, s.techPackContent.GetOr("")))
  }

  /** The node: skipped after a failure; otherwise the record is stored under `stage2a`. */
  function Stage2a(svc: Services, s: State): (r: State)
    ensures IsFailed(s) ==> r == s
    ensures r == s.(stage2a := r.stage2a, status := r.status, error := r.error)
    ensures !IsFailed(s) && Stage2aResult(svc, s).Err? ==> r == Fail(s, Prefix, Stage2aResult(svc, s).error)
    ensures !IsFailed(s) && Stage2aResult(svc, s).Ok? ==>
      var result := Stage2aResult(svc, s).value;
      r.stage2a == Some(result)
      && (LogLengths(result, LoggedKeys).None? ==> r.status == s.status && r.error == s.error)
      && (LogLengths(result, LoggedKeys).Some? ==> IsFailed(r) && r.error == Some(Prefix + LogLengths(result, LoggedKeys).value))
  {
    if IsFailed(s) then s
    else
      match Stage2aResult(svc, s)
      case Err(e) => Fail(s, Prefix, e)
      case Ok(result) =>
        var s1 := s.(stage2a := Some(result));
        match LogLengths(result, LoggedKeys)
        case None => s1
        case Some(e) => Fail(s1, Prefix, e)
  }
}
