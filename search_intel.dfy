/**
 * `search_intel_node`: the search intelligence report, a sidecar that runs
 * even after a failure and never changes the run's status or error.
 */
module SearchIntelNode {
  import opened Wrappers
  import opened Json
  import opened PyStr
  import opened GeminiClient
  import opened PipelineState

  /** `if not stage1 or not stage2_forensic`: a missing or empty input. */
  predicate MissingInput(s: State)
  {
    s.stage1Extraction.None? || |s.stage1Extraction.value| == 0
    || s.stage2Forensic.None? || |s.stage2Forensic.value| == 0
  }

  /** The prompt built from the Stage 1 search records and the Stage 2B rows, with their defaults. */
  function SearchIntelInputs(s: State): Prompt
    requires !MissingInput(s)
  {
    SearchIntelPrompt(
      GetOr(s.stage1Extraction.value, "search_records", EmptyObj),
      GetOr(s.stage2Forensic.value, "convergence_rows", JArr([])),
      GetOr(s.stage2Forensic.value, "technical_reps", JArr([])),
      s.techPackContent.GetOr(""))
  }

  /** The report to store: None when an input is missing or anything raises. */
  function SearchIntelReport(svc: Services, s: State): (r: Option<string>)
    ensures MissingInput(s) ==> r.None?
    ensures svc.gemini.initError.Some? ==> r.None?
    ensures r.Some? ==> IsStripped(r.value)
    ensures !MissingInput(s) && svc.gemini.initError.None? ==>
      (r.Some? <==> CallMarkdownStage(svc.gemini, SearchIntelInputs(s)).Ok?)
      && (r.Some? ==> r.value == CallMarkdownStage(svc.gemini, SearchIntelInputs(s)).value)
  {
    if MissingInput(s) || svc.gemini.initError.Some? then None
    else
      match CallMarkdownStage(svc.gemini, SearchIntelInputs(s))
      case Ok(report) => Some(report)
      case Err(_) => None
  }

  /** The node: only the report key changes, and it is always written. */
  function SearchIntel(svc: Services, s: State): (r: State)
    ensures r.status == s.status && r.error == s.error
    ensures r == s.(searchIntelReportMd := Some(SearchIntelReport(svc, s)))
  {
    s.(searchIntelReportMd := Some(SearchIntelReport(svc, s)))
  }
}
