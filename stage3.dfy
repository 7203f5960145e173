/** `stage3_report_node`: writes the markdown litigation report. */
module Stage3Node {
  import opened Wrappers
  import opened Json
  import opened PyStr
  import opened GeminiClient
  import opened PipelineState

  const Prefix := "Stage 3 failed: "

  /** The report `client.call_stage3(...)` returns, or the exception that escapes the call. */
  function Stage3Result(svc: Services, s: State): (r: Result<string, string>)
    ensures svc.gemini.initError.Some? ==> r == Err(svc.gemini.initError.value)
    ensures svc.gemini.initError.None? && s.stage1Extraction.None? ==> r == Err(KeyError("stage1_extraction"))
    ensures svc.gemini.initError.None? && s.stage1Extraction.Some? && s.stage2Forensic.None? ==>
      r == Err(KeyError("stage2_forensic"))
    ensures svc.gemini.initError.None? && s.stage1Extraction.Some? && s.stage2Forensic.Some? ==>
      r == CallMarkdownStage(svc.gemini, Stage3Prompt(s.stage1Extraction.value, s.stage2Forensic.value))
  {
    if svc.gemini.initError.Some? then Err(svc.gemini.initError.value)
    else
      match Required(s.stage1Extraction, "stage1_extraction")
      case Err(e) => Err(e)
      case Ok(stage1) =>
        match Required(s.stage2Forensic, "stage2_forensic")
        case Err(e) => Err(e)
        case Ok(forensic) => CallMarkdownStage(svc.gemini, Stage3Prompt(stage1, forensic))
  }

  /** The node: skipped after a failure; otherwise the cleaned report is stored. */
  function Stage3Report(svc: Services, s: State): (r: State)
    ensures IsFailed(s) ==> r == s
    ensures r == s.(stage3ReportMd := r.stage3ReportMd, status := r.status, error := r.error)
    ensures !IsFailed(s) && Stage3Result(svc, s).Err? ==> r == Fail(s, Prefix, Stage3Result(svc, s).error)
    ensures !IsFailed(s) && Stage3Result(svc, s).Ok? ==>
      r == s.(stage3ReportMd := Some(Stage3Result(svc, s).value)) && IsStripped(r.stage3ReportMd.value)
  {
    if IsFailed(s) then s
    else
      match Stage3Result(svc, s)
      case Err(e) => Fail(s, Prefix, e)
      case Ok(report) => s.(stage3ReportMd := Some(report))
  }
}
