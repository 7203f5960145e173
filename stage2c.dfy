/**
 * `stage2c_node`: timeline and global synthesis of the Stage 1 record and
 * the Stage 2A and 2B results.
 */
module Stage2cNode {
  import opened Wrappers
  import opened Json
  import opened GeminiClient
  import opened PipelineState

  const Prefix := "Stage 2C failed: "

  const LoggedKeys := ["event_forensics"]

  /** The value `client.call_stage2c(...)` returns, or the exception that escapes the call. */
  function Stage2cResult(svc: Services, s: State): (r: Result<Record, string>)
    ensures svc.gemini.initError.Some? ==> r == Err(svc.gemini.initError.value)
    ensures svc.gemini.initError.None? && s.stage1Extraction.None? ==> r == Err(KeyError("stage1_extraction"))
    ensures svc.gemini.initError.None? && s.stage1Extraction.Some? && s.stage2a.None? ==> r == Err(KeyError("stage2a"))
    ensures svc.gemini.initError.None? && s.stage1Extraction.Some? && s.stage2a.Some? && s.stage2b.None? ==>
      r == Err(KeyError("stage2b"))
    ensures svc.gemini.initError.None? && s.stage1Extraction.Some? && s.stage2a.Some? && s.stage2b.Some? ==>
      r == CallJsonStage(svc.gemini,
        Stage2cPrompt(s.stage1Extraction.value, s.stage2a.value, s.stage2b.value, s.techPackContent.GetOr("")))
  {
    if svc.gemini.initError.Some? then Err(svc.gemini.initError.value)
    else
      match Required(s.stage1Extraction, "stage1_extraction")
      case Err(e) => Err(e)
      case Ok(stage1) =>
        match Required(s.stage2a, "stage2a")
        case Err(e) => Err(e)
        case Ok(stage2a) =>
          match Required(s.stage2b, "stage2b")
          case Err(e) => Err(e)
          case Ok(stage2b) =>
            CallJsonStage(svc.gemini, Stage2cPrompt(stage1, stage2a, stage2b, s.techPackContent.GetOr("")))
  }

  /** The node: skipped after a failure; otherwise the record is stored under `stage2c`. */
  function Stage2c(svc: Services, s: State): (r: State)
    ensures IsFailed(s) ==> r == s
    ensures r == s.(stage2c := r.stage2c, status := r.status, error := r.error)
    ensures !IsFailed(s) && Stage2cResult(svc, s).Err? ==> r == Fail(s, Prefix, Stage2cResult(svc, s).error)
    ensures !IsFailed(s) && Stage2cResult(svc, s).Ok? ==>
      var result := Stage2cResult(svc, s).value;
      r.stage2c == Some(result)
      && (LogLengths(result, LoggedKeys).None? ==> r.status == s.status && r.error == s.error)
      && (LogLengths(result, LoggedKeys).Some? ==> IsFailed(r) && r.error == Some(Prefix + LogLengths(result, LoggedKeys).value))
  {
    if IsFailed(s) then s
    else
      match Stage2cResult(svc, s)
      case Err(e) => Fail(s, Prefix, e)
      case Ok(result) =>
        var s1 := s.(stage2c := Some(result));
        match LogLengths(result, LoggedKeys)
        case None => s1
        case Some(e) => Fail(s1, Prefix, e)
  }
}
