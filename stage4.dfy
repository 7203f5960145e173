/**
 * `stage4_qc_node`: quality-checks the Stage 3 report and stores the QC
 * record together with the corrected final report.
 */
module Stage4Node {
  import opened Wrappers
  import opened Json
  import opened PyStr
  import opened GeminiClient
  import opened PipelineState

  const Prefix := "Stage 4 failed: "

  /** The pair `client.call_stage4(...)` returns, or the exception that escapes the call. */
  function Stage4Result(svc: Services, s: State): (r: Result<(Record, string), string>)
    ensures svc.gemini.initError.Some? ==> r == Err(svc.gemini.initError.value)
    ensures svc.gemini.initError.None? && s.stage1Extraction.None? ==> r == Err(KeyError("stage1_extraction"))
    ensures svc.gemini.initError.None? && s.stage1Extraction.Some? && s.stage2Forensic.None? ==>
      r == Err(KeyError("stage2_forensic"))
    ensures svc.gemini.initError.None? && s.stage1Extraction.Some? && s.stage2Forensic.Some? && s.stage3ReportMd.None? ==>
      r == Err(KeyError("stage3_report_md"))
    ensures svc.gemini.initError.None? && s.stage1Extraction.Some? && s.stage2Forensic.Some? && s.stage3ReportMd.Some? ==>
      r == CallStage4(svc.gemini, Stage4Prompt(s.stage1Extraction.value, s.stage2Forensic.value, s.stage3ReportMd.value))
  {
    if svc.gemini.initError.Some? then Err(svc.gemini.initError.value)
    else
      match Required(s.stage1Extraction, "stage1_extraction")
      case Err(e) => Err(e)
      case Ok(stage1) =>
        match Required(s.stage2Forensic, "stage2_forensic")
        case Err(e) => Err(e)
        case Ok(forensic) =>
          match Required(s.stage3ReportMd, "stage3_report_md")
          case Err(e) => Err(e)
          case Ok(report) => CallStage4(svc.gemini, Stage4Prompt(stage1, forensic, report))
  }

  /** The completion log reads `qc_json.get("metrics", {}).get(...)`, which needs an object. */
  function MetricsError(qc: Record): (r: Option<string>)
    ensures r.None? <==> GetOr(qc, "metrics", EmptyObj).JObj?
  {
    var metrics := GetOr(qc, "metrics", EmptyObj);
    if metrics.JObj? then None else Some(AttrError(metrics, "get"))
  }

  /**
   * The node: skipped after a failure; otherwise the QC record and the
   * final report are stored together, and a failure of the call or of the
   * metrics log sets status "failed".
   */
  function Stage4Qc(svc: Services, s: State): (r: State)
    ensures IsFailed(s) ==> r == s
    ensures r == s.(stage4QcJson := r.stage4QcJson, stage4FinalReportMd := r.stage4FinalReportMd,
                    status := r.status, error := r.error)
    ensures !IsFailed(s) && Stage4Result(svc, s).Err? ==> r == Fail(s, Prefix, Stage4Result(svc, s).error)
    ensures !IsFailed(s) && Stage4Result(svc, s).Ok? ==>
      var (qc, report) := Stage4Result(svc, s).value;
      r.stage4QcJson == Some(qc) && r.stage4FinalReportMd == Some(report)
      && (MetricsError(qc).None? ==> r.status == s.status && r.error == s.error)
      && (MetricsError(qc).Some? ==> IsFailed(r) && r.error == Some(Prefix + MetricsError(qc).value))
  {
    if IsFailed(s) then s
    else
      match Stage4Result(svc, s)
      case Err(e) => Fail(s, Prefix, e)
      case Ok((qc, report)) =>
        var s1 := s.(stage4QcJson := Some(qc), stage4FinalReportMd := Some(report));
        match MetricsError(qc)
        case None => s1
        case Some(e) => Fail(s1, Prefix, e)
  }
}
