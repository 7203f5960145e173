/**
 * The agent workflow: ingest, extract, analyze, write and QC run in line;
 * after QC the supervisor chooses between a revision (back to write through
 * revise), a clarification (back to write through clarify) and finalize.
 * Each node is a function from the state to the new state; the workflow
 * object holds the state and runs the graph.
 */
module PatentWorkflow {
  import opened Wrappers
  import opened Json
  import opened PyStr
  import opened Agents
  import opened Supervisor
  import opened Qc
  import opened Extractor
  import opened Analyst
  import opened Writer
  import opened AgentWorkflowState

  datatype Node = IngestNode | ExtractNode | AnalyzeNode | WriteNode | QcNode | ClarifyNode | ReviseNode | FinalizeNode

  /** The keys the supervisor reads, all present in a workflow state. */
  function View(s: WorkflowState): SupervisorInput
  {
    SupervisorInput(Some(s.status), Some(s.currentStage), Some(s.revisionCount), Some(s.clarificationCount),
                    Some(s.qcScore), Some(s.qcPassed), Some(s.needsRevision), Some(s.needsClarification),
                    Some(s.error))
  }

  /** A node's failure update: status "failed" and the message; nothing else changes. */
  function Failed(s: WorkflowState, message: string): (r: WorkflowState)
    ensures r.status == "failed" && r.error == Some(message)
    ensures r == s.(status := r.status, error := r.error)
  {
    s.(status := "failed", error := Some(message))
  }

  /**
   * `ingest_node`: downloads the history PDF and, when its URL is non-empty,
   * the patent PDF; a failed download fails the node with "Ingest failed: ".
   */
  function IngestUpdate(env: AgentEnv, s: WorkflowState): (r: WorkflowState)
    ensures r.status == "running" || r.status == "failed"
    ensures r.status == "failed" ==>
      r.error.Some? && StartsWith(r.error.value, "Ingest failed: ") && r == Failed(s, r.error.value)
    ensures r.status == "failed" <==>
      env.download(s.historyPdfUrl).Err? || (s.patentPdfUrl != "" && env.download(s.patentPdfUrl).Err?)
    ensures r.status == "running" ==>
      && r == s.(historyPdfBytes := r.historyPdfBytes, patentPdfBytes := r.patentPdfBytes,
                 currentStage := "ingested", status := "running")
      && r.historyPdfBytes == env.download(s.historyPdfUrl).value
      && r.patentPdfBytes == (if s.patentPdfUrl != "" then env.download(s.patentPdfUrl).value else [])
  {
    match env.download(s.historyPdfUrl)
    case Err(e) => Failed(s, "Ingest failed: " + e)
    case Ok(history) =>
      if s.patentPdfUrl == "" then
        s.(historyPdfBytes := history, patentPdfBytes := [], currentStage := "ingested", status := "running")
      else
        match env.download(s.patentPdfUrl)
        case Err(e) => Failed(s, "Ingest failed: " + e)
        case Ok(patent) =>
          s.(historyPdfBytes := history, patentPdfBytes := patent, currentStage := "ingested", status := "running")
  }

  /** `code in class_info`: a substring of a string, an element of a list, a key of a dict. */
  function InClassification(code: string, classInfo: Json): (r: Result<bool, string>)
    ensures r.Err? <==> !(classInfo.JStr? || classInfo.JArr? || classInfo.JObj?)
    ensures classInfo.JStr? ==> r == Ok(Contains(classInfo.s, code))
  {
    match classInfo
    case JStr(s) => Ok(Contains(s, code))
    case JArr(items) => Ok(JStr(code) in items)
    case JObj(m) => Ok(code in m)
    case _ => Err("argument of type '" + TypeName(classInfo) + "' is not iterable")
  }

  /** The classification code occurs in `class_info`, or the word in the lower-cased extraction text. */
  predicate Mentions(classInfo: Json, code: string, text: string, word: string)
  {
    InClassification(code, classInfo) == Ok(true) || Contains(text, word)
  }

  function PatentInfo(extraction: Record): Json
  {
    GetOr(extraction, "patent_info", EmptyObj)
  }

  /**
   * `_detect_tech_center`: software (G06) first, then communication (H04),
   * then semiconductor (H01), else software. `show` renders the extraction
   * as `str()` does; only ASCII letters are lowered.
   */
  function DetectTechCenter(extraction: Record, show: Json -> string): (r: Result<string, string>)
    ensures r.Ok? ==> r.value == "2100" || r.value == "2600" || r.value == "2800"
    ensures !PatentInfo(extraction).JObj? ==> r == Err(AttrError(PatentInfo(extraction), "get"))
    ensures PatentInfo(extraction).JObj? ==>
      var classInfo := GetOr(PatentInfo(extraction).fields, "classification", JStr(""));
      var text := LowerAscii(show(JObj(extraction)));
      && (r.Err? <==> InClassification("G06", classInfo).Err?)
      && (r.Ok? ==>
            && (r.value == "2600" <==>
                  !Mentions(classInfo, "G06", text, "software") && Mentions(classInfo, "H04", text, "communication"))
            && (r.value == "2800" <==>
                  && !Mentions(classInfo, "G06", text, "software")
                  && !Mentions(classInfo, "H04", text, "communication")
                  && Mentions(classInfo, "H01", text, "semiconductor")))
  {
    var info := PatentInfo(extraction);
    if !info.JObj? then Err(AttrError(info, "get"))
    else
      var classInfo := GetOr(info.fields, "classification", JStr(""));
      var text := LowerAscii(show(JObj(extraction)));
      match InClassification("G06", classInfo)
      case Err(e) => Err(e)
      case Ok(_) =>
        if Mentions(classInfo, "G06", text, "software") then Ok("2100")
        else if Mentions(classInfo, "H04", text, "communication") then Ok("2600")
        else if Mentions(classInfo, "H01", text, "semiconductor") then Ok("2800")
        else Ok("2100")
  }

  /**
   * `extract_node`: the extractor's failure fails the node; otherwise the
   * extraction and its tech centre are stored. An exception while detecting
   * the centre is not caught and ends the run.
   */
  function ExtractUpdate(env: AgentEnv, s: WorkflowState, step: nat): (r: Result<WorkflowState, string>)
    ensures
      var out := ExtractorProcess(env, ExtractorInput(Some(s.historyPdfBytes), Some(s.patentPdfBytes)), step);
      && (out.status == "failed" ==> r == Ok(Failed(s, out.error.GetOr("Extraction failed"))))
      && (out.status != "failed" ==>
            match DetectTechCenter(out.extraction, env.show)
            case Err(e) => r == Err(e)
            case Ok(center) => r == Ok(s.(extraction := out.extraction, techCenter := center, currentStage := "extracted")))
  {
    var out := ExtractorProcess(env, ExtractorInput(Some(s.historyPdfBytes), Some(s.patentPdfBytes)), step);
    if out.status == "failed" then Ok(Failed(s, out.error.GetOr("Extraction failed")))
    else
      match DetectTechCenter(out.extraction, env.show)
      case Err(e) => Err(e)
      case Ok(center) => Ok(s.(extraction := out.extraction, techCenter := center, currentStage := "extracted"))
  }

  /** What `analyze_node` asks the analyst: the full analysis for the state's tech centre. */
  function FullAnalysisInput(s: WorkflowState): AnalystInput
  {
    AnalystInput(Some(s.extraction), Some(s.techCenter), Some("full"), None, None, None)
  }

  /**
   * `analyze_node`: the node's own tech-pack load turns a missing file into
   * "" and lets any other exception end the run; then the analyst runs in
   * full mode and its analysis and the pack are stored.
   */
  function AnalyzeUpdate(env: AgentEnv, s: WorkflowState, step: nat): (r: Result<WorkflowState, string>)
    ensures var load := env.loadTechPack(s.techCenter);
      load.Err? && !load.error.fileNotFound ==> r == Err(load.error.message)
    ensures
      var load := env.loadTechPack(s.techCenter);
      var out := AnalystProcess(env, FullAnalysisInput(s), step);
      (load.Ok? || load.error.fileNotFound) ==>
        && (out.status == "failed" ==> r == Ok(Failed(s, out.error.GetOr("Analysis failed"))))
        && (out.status != "failed" ==>
              load.Ok? && r == Ok(s.(forensicAnalysis := out.forensicAnalysis.value, techPackContent := load.value,
                                     currentStage := "analyzed")))
    ensures r.Ok? ==>
      || r.value == Failed(s, r.value.error.GetOr(""))
      || r.value == s.(forensicAnalysis := r.value.forensicAnalysis, techPackContent := r.value.techPackContent,
                       currentStage := "analyzed")
  {
    var pack :=
      match env.loadTechPack(s.techCenter)
      case Ok(text) => Ok(text)
      case Err(failure) => if failure.fileNotFound then Ok("") else Err(failure.message);
    if pack.Err? then Err(pack.error)
    else
      var out := AnalystProcess(env, FullAnalysisInput(s), step);
      if out.status == "failed" then Ok(Failed(s, out.error.GetOr("Analysis failed")))
      else Ok(s.(forensicAnalysis := out.forensicAnalysis.value, techPackContent := pack.value, currentStage := "analyzed"))
  }

  /**
   * The node's fallback to an empty pack never reaches the state: the analyst
   * loads the same pack again, so a missing pack file fails the node with
   * the analyst's copy of the error.
   */
  lemma MissingPackFailsAnalysis(env: AgentEnv, s: WorkflowState, step: nat)
    requires env.loadTechPack(s.techCenter).Err? && env.loadTechPack(s.techCenter).error.fileNotFound
    ensures AnalyzeUpdate(env, s, step) == Ok(Failed(s, env.loadTechPack(s.techCenter).error.message))
  {
  }

  /** Whether `write_node` revises: after QC or a revision, and only with a report to revise. */
  predicate RevisesReport(s: WorkflowState)
  {
    (s.currentStage == "qc_complete" || s.revisionCount > 0) && s.report != ""
  }

  /** The writer's input: a revision of the current report against the QC result, or a fresh report. */
  function WriterInputFor(s: WorkflowState): (r: WriterInput)
    ensures r.mode == Some("revise") <==> RevisesReport(s)
    ensures RevisesReport(s) ==> r.originalReport == Some(s.report) && r.feedback == Some(s.qcResult)
    ensures r.extraction == Some(s.extraction) && r.forensic == Some(s.forensicAnalysis)
  {
    if RevisesReport(s) then
      WriterInput(Some(s.extraction), Some(s.forensicAnalysis), Some("revise"), Some(s.report), Some(s.qcResult))
    else
      WriterInput(Some(s.extraction), Some(s.forensicAnalysis), Some("generate"), None, None)
  }

  /** `report_history` after a write: the previous report is appended when it was non-empty. */
  function HistoryAfterWrite(s: WorkflowState): (r: seq<string>)
    ensures s.report != "" ==> r == s.reportHistory + [s.report]
    ensures s.report == "" ==> r == s.reportHistory
  {
    if s.report != "" then s.reportHistory + [s.report] else s.reportHistory
  }

  /** `write_node`: the writer's report replaces the current one, which goes to the history. */
  function WriteUpdate(env: AgentEnv, s: WorkflowState, step: nat): (r: WorkflowState)
    ensures
      var out := WriterProcess(env, WriterInputFor(s), step);
      && (out.status == "failed" ==> r == Failed(s, out.error.GetOr("Report generation failed")))
      && (out.status != "failed" ==>
            r == s.(report := out.report, reportHistory := HistoryAfterWrite(s), currentStage := "written"))
  {
    var out := WriterProcess(env, WriterInputFor(s), step);
    if out.status == "failed" then Failed(s, out.error.GetOr("Report generation failed"))
    else s.(report := out.report, reportHistory := HistoryAfterWrite(s), currentStage := "written")
  }

  function QcInputFor(s: WorkflowState): QcInput
  {
    QcInput(Some(s.report), Some(s.extraction), Some(s.forensicAnalysis))
  }

  /** `qc_node`'s update from the QC agent's result: the verdict and stage "qc_complete", or a failure. */
  function ApplyQc(s: WorkflowState, out: QcOutput): (r: WorkflowState)
    ensures out.status == "failed" ==> r == Failed(s, out.error.GetOr("QC verification failed"))
    ensures out.status != "failed" ==>
      && r.currentStage == "qc_complete"
      && r.qcScore == out.score && r.qcPassed == out.passed
      && r.needsRevision == out.needsRevision && r.needsClarification == out.needsClarification
      && r == s.(qcResult := out.qcResult, qcScore := r.qcScore, qcPassed := r.qcPassed,
                 needsRevision := r.needsRevision, needsClarification := r.needsClarification,
                 clarificationQuestions := out.questions, correctedReport := out.correctedReport,
                 currentStage := r.currentStage)
  {
    if out.status == "failed" then Failed(s, out.error.GetOr("QC verification failed"))
    else
      s.(qcResult := out.qcResult, qcScore := out.score, qcPassed := out.passed,
         needsRevision := out.needsRevision, needsClarification := out.needsClarification,
         clarificationQuestions := out.questions, correctedReport := out.correctedReport,
         currentStage := "qc_complete")
  }

  /**
   * `clarify_node`: the analyst answers the questions (for the default tech
   * centre, as the node passes none); the count goes up by one and the stage
   * becomes "clarified" even when the analyst fails.
   */
  function ClarifyUpdate(env: AgentEnv, s: WorkflowState, step: nat): (r: WorkflowState)
    ensures r.clarificationCount == s.clarificationCount + 1 && r.currentStage == "clarified"
    ensures r == s.(clarificationAnswers := r.clarificationAnswers, clarificationCount := r.clarificationCount,
                    currentStage := r.currentStage)
    ensures
      var out := AnalystProcess(env, AnalystInput(Some(s.extraction), None, Some("clarify"), Some(s.clarificationQuestions), None, None), step);
      r.clarificationAnswers == out.answers.GetOr(EmptyObj)
  {
    var out := AnalystProcess(env, AnalystInput(Some(s.extraction), None, Some("clarify"), Some(s.clarificationQuestions), None, None), step);
    s.(clarificationAnswers := out.answers.GetOr(EmptyObj), clarificationCount := s.clarificationCount + 1,
       currentStage := "clarified")
  }

  /** `revise_node`: one more revision, and back to "qc_complete" so that write revises. */
  function ReviseUpdate(s: WorkflowState): (r: WorkflowState)
    ensures r.revisionCount == s.revisionCount + 1 && r.currentStage == "qc_complete"
    ensures r == s.(revisionCount := r.revisionCount, currentStage := r.currentStage)
  {
    s.(revisionCount := s.revisionCount + 1, currentStage := "qc_complete")
  }

  /** The blob the final report is written to. */
  function ReportBlobName(reportId: string): string
  {
    "reports/" + reportId + "_stage3_report.md"
  }

  /** The blob the QC result is written to. */
  function QcBlobName(reportId: string): string
  {
    "reports/" + reportId + "_stage4_qc.json"
  }

  /**
   * The URLs of the two uploads: none without a report; the report goes
   * first and the QC result, as `str` renders it, second; a failed upload
   * leaves its URL and any later one "".
   */
  function FinalizeUrls(env: AgentEnv, finalReport: string, qcResult: Record): (r: (string, string))
    ensures finalReport == "" ==> r == ("", "")
    ensures finalReport != "" ==>
      var reportUp := env.uploadReport(finalReport, ReportBlobName(env.reportId));
      var qcUp := env.uploadReport(env.show(JObj(qcResult)), QcBlobName(env.reportId));
      && (reportUp.Err? ==> r == ("", ""))
      && (reportUp.Ok? ==> r.0 == reportUp.value)
      && (reportUp.Ok? && qcUp.Ok? ==> r.1 == qcUp.value)
      && (reportUp.Ok? && qcUp.Err? ==> r.1 == "")
    ensures r.1 != "" ==> finalReport != "" && env.uploadReport(finalReport, ReportBlobName(env.reportId)).Ok?
  {
    if finalReport == "" then ("", "")
    else
      match env.uploadReport(finalReport, ReportBlobName(env.reportId))
      case Err(_) => ("", "")
      case Ok(stage3Url) =>
        match env.uploadReport(env.show(JObj(qcResult)), QcBlobName(env.reportId))
        case Err(_) => (stage3Url, "")
        case Ok(stage4Url) => (stage3Url, stage4Url)
  }

  /**
   * `finalize_node`: the QC's corrected report if non-empty, else the last
   * report; status "completed" and stage "finalized" whatever happened before.
   */
  function FinalizeUpdate(env: AgentEnv, s: WorkflowState): (r: WorkflowState)
    ensures r.status == "completed" && r.currentStage == "finalized"
    ensures r.finalReport == (if s.correctedReport != "" then s.correctedReport else s.report)
    ensures r.finalReport == "" ==> r.stage3Url == "" && r.stage4Url == ""
    ensures r == s.(finalReport := r.finalReport, stage3Url := r.stage3Url, stage4Url := r.stage4Url,
                    currentStage := r.currentStage, status := r.status)
  {
    var finalReport := if s.correctedReport != "" then s.correctedReport else s.report;
    var (stage3Url, stage4Url) := FinalizeUrls(env, finalReport, s.qcResult);
    s.(finalReport := finalReport, stage3Url := stage3Url, stage4Url := stage4Url,
       currentStage := "finalized", status := "completed")
  }

  /** One node's update; `Err` is an exception the node does not catch, which ends the run. */
  function NodeUpdate(env: AgentEnv, node: Node, s: WorkflowState, step: nat): (r: Result<WorkflowState, string>)
    ensures r.Err? ==> node == ExtractNode || node == AnalyzeNode
    ensures r.Ok? ==>
      r.value.revisionCount == s.revisionCount + (if node == ReviseNode then 1 else 0)
      && r.value.clarificationCount == s.clarificationCount + (if node == ClarifyNode then 1 else 0)
    ensures r.Ok? && node == FinalizeNode ==> r.value.status == "completed" && r.value.currentStage == "finalized"
    ensures r.Ok? && s.status == "failed" && node != IngestNode && node != FinalizeNode ==> r.value.status == "failed"
  {
    match node
    case IngestNode => Ok(IngestUpdate(env, s))
    case ExtractNode => ExtractUpdate(env, s, step)
    case AnalyzeNode => AnalyzeUpdate(env, s, step)
    case WriteNode => Ok(WriteUpdate(env, s, step))
    case QcNode => Ok(ApplyQc(s, QcOutcome(env, QcInputFor(s), step)))
    case ClarifyNode => Ok(ClarifyUpdate(env, s, step))
    case ReviseNode => Ok(ReviseUpdate(s))
    case FinalizeNode => Ok(FinalizeUpdate(env, s))
  }

  /** `route_after_qc`: revise and clarify as the supervisor says; every other action finalizes. */
  function RouteAfterQc(s: WorkflowState): (r: Node)
    ensures r == ReviseNode || r == ClarifyNode || r == FinalizeNode
    ensures r == ReviseNode <==> DecideNextAction(View(s)).action == Revise
    ensures r == ClarifyNode <==> DecideNextAction(View(s)).action == Clarify
  {
    var action := DecideNextAction(View(s)).action;
    if action == Revise then ReviseNode
    else if action == Clarify then ClarifyNode
    else FinalizeNode
  }

  /** `route_after_clarify`: write only when the supervisor says so, otherwise finalize. */
  function RouteAfterClarify(s: WorkflowState): (r: Node)
    ensures r == WriteNode || r == FinalizeNode
    ensures r == WriteNode <==> DecideNextAction(View(s)).action == Write
  {
    if DecideNextAction(View(s)).action == Write then WriteNode else FinalizeNode
  }

  /** The edges of `build_graph`; None is END, reached only from finalize. */
  function NextNode(node: Node, s: WorkflowState): (r: Option<Node>)
    ensures r.None? <==> node == FinalizeNode
  {
    match node
    case IngestNode => Some(ExtractNode)
    case ExtractNode => Some(AnalyzeNode)
    case AnalyzeNode => Some(WriteNode)
    case WriteNode => Some(QcNode)
    case QcNode => Some(RouteAfterQc(s))
    case ReviseNode => Some(WriteNode)
    case ClarifyNode => Some(RouteAfterClarify(s))
    case FinalizeNode => None
  }

  /** How far a node is from the end of the graph, not counting loops. */
  function Rank(node: Option<Node>): nat
  {
    match node
    case None => 0
    case Some(FinalizeNode) => 1
    case Some(ClarifyNode) => 2
    case Some(ReviseNode) => 2
    case Some(QcNode) => 3
    case Some(WriteNode) => 4
    case Some(AnalyzeNode) => 5
    case Some(ExtractNode) => 6
    case Some(IngestNode) => 7
  }

  /** Whether a QC run still lies ahead before the next revise or clarify. */
  function QcAhead(node: Option<Node>): nat
  {
    match node
    case Some(IngestNode) => 1
    case Some(ExtractNode) => 1
    case Some(AnalyzeNode) => 1
    case Some(WriteNode) => 1
    case Some(QcNode) => 1
    case _ => 0
  }

  /**
   * What the run keeps between two nodes: the counters within their caps,
   * revise and clarify entered only below their caps, QC runs bounded by
   * one plus the loops taken, and END reached only through finalize.
   */
  ghost predicate RunInvariant(node: Option<Node>, s: WorkflowState, qcRuns: nat)
  {
    && 0 <= s.revisionCount <= MaxRevisions
    && 0 <= s.clarificationCount <= MaxClarifications
    && (node == Some(ReviseNode) ==> s.revisionCount < MaxRevisions)
    && (node == Some(ClarifyNode) ==> s.clarificationCount < MaxClarifications)
    && qcRuns + QcAhead(node) <= 1 + s.revisionCount + s.clarificationCount
    && (node.None? ==> s.currentStage == "finalized" && s.status == "completed")
  }

  /** The loops left to take, weighted above the distance to END. */
  function Potential(node: Option<Node>, s: WorkflowState): int
  {
    3 * (MaxRevisions - s.revisionCount + MaxClarifications - s.clarificationCount) + Rank(node)
  }

  /**
   * A node whose result changes the counters as `NodeUpdate` promises keeps
   * the invariant and lowers the potential, whatever else it changed.
   */
  lemma NextKeepsInvariant(node: Node, s: WorkflowState, t: WorkflowState, qcRuns: nat)
    requires RunInvariant(Some(node), s, qcRuns)
    requires t.revisionCount == s.revisionCount + (if node == ReviseNode then 1 else 0)
    requires t.clarificationCount == s.clarificationCount + (if node == ClarifyNode then 1 else 0)
    requires node == FinalizeNode ==> t.status == "completed" && t.currentStage == "finalized"
    ensures
      var next := NextNode(node, t);
      && RunInvariant(next, t, qcRuns + (if node == QcNode then 1 else 0))
      && 0 <= Potential(next, t) < Potential(Some(node), s)
  {
    match node
    case QcNode =>
      var next := RouteAfterQc(t);
      if next == ReviseNode {
        assert ReviseDue(View(t));
      }
      if next == ClarifyNode {
        assert ClarifyDue(View(t));
      }
    case _ =>
  }

  /** One node that does not raise keeps the invariant and lowers the potential. */
  lemma StepKeepsInvariant(env: AgentEnv, node: Node, s: WorkflowState, step: nat, qcRuns: nat)
    requires RunInvariant(Some(node), s, qcRuns)
    requires NodeUpdate(env, node, s, step).Ok?
    ensures
      var t := NodeUpdate(env, node, s, step).value;
      var next := NextNode(node, t);
      && RunInvariant(next, t, qcRuns + (if node == QcNode then 1 else 0))
      && 0 <= Potential(next, t) < Potential(Some(node), s)
  {
    NextKeepsInvariant(node, s, NodeUpdate(env, node, s, step).value, qcRuns);
  }

  /** The supervisor's first decision on a fresh state is to extract. */
  lemma InitialDecision(patentPdfUrl: string, historyPdfUrl: string)
    ensures DecideNextAction(View(CreateInitialState(patentPdfUrl, historyPdfUrl)))
      == Decision(Extract, "Starting pipeline with PDF extraction")
  {
  }

  /** After a failure, QC and clarify both route to finalize, whatever the counters. */
  lemma FailureRoutesToFinalize(s: WorkflowState)
    requires s.status == "failed"
    ensures RouteAfterQc(s) == FinalizeNode && RouteAfterClarify(s) == FinalizeNode
  {
  }

  /** A clarification in a run that has not failed always goes back to write. */
  lemma ClarifyReturnsToWrite(env: AgentEnv, s: WorkflowState, step: nat)
    requires s.status != "failed"
    ensures RouteAfterClarify(ClarifyUpdate(env, s, step)) == WriteNode
  {
    var c := ClarifyUpdate(env, s, step);
    assert Stage(View(c)) == "clarified" && Status(View(c)) == s.status;
    StageTable(View(c));
  }

  /** The workflow object: the state of the current run and the number of nodes executed so far. */
  class Workflow {
    const env: AgentEnv
    var state: WorkflowState
    var steps: nat
    ghost var qcRuns: nat

    constructor(env: AgentEnv)
      ensures this.env == env && steps == 0 && qcRuns == 0
      ensures state == CreateInitialState("", "")
    {
      this.env := env;
      state := CreateInitialState("", "");
      steps := 0;
      qcRuns := 0;
    }

    /** Runs one node: QC through the agent's `process`, every other node through its update. */
    method Execute(node: Node) returns (raised: Option<string>)
      modifies this
      ensures var r := NodeUpdate(env, node, old(state), old(steps));
        && (r.Err? ==> raised == Some(r.error) && state == old(state))
        && (r.Ok? ==> raised.None? && state == r.value)
      ensures steps == old(steps) + 1
      ensures qcRuns == old(qcRuns) + (if node == QcNode then 1 else 0)
    {
      if node == QcNode {
        assert NodeUpdate(env, node, state, steps) == Ok(ApplyQc(state, QcOutcome(env, QcInputFor(state), steps)));
        var out := QcProcess(env, QcInputFor(state), steps);
        state := ApplyQc(state, out);
        raised := None;
        qcRuns := qcRuns + 1;
      } else {
        var r := NodeUpdate(env, node, state, steps);
        if r.Err? {
          raised := Some(r.error);
        } else {
          raised := None;
          state := r.value;
        }
      }
      steps := steps + 1;
    }

    /**
     * `run`: from the initial state, node after node along the edges until
     * END. QC runs at most once plus once per revision and per
     * clarification, so at most four times.
     */
    method Run(patentPdfUrl: string, historyPdfUrl: string) returns (raised: Option<string>)
      modifies this
      ensures raised.None? ==> state.currentStage == "finalized" && state.status == "completed"
      ensures 0 <= state.revisionCount <= MaxRevisions && 0 <= state.clarificationCount <= MaxClarifications
      ensures qcRuns <= 1 + state.revisionCount + state.clarificationCount
      ensures qcRuns <= 1 + MaxRevisions + MaxClarifications
    {
      state := CreateInitialState(patentPdfUrl, historyPdfUrl);
      steps := 0;
      qcRuns := 0;
      var node: Option<Node> := Some(IngestNode);
      raised := None;
      while node.Some?
        invariant RunInvariant(node, state, qcRuns)
        invariant raised.None?
        decreases Potential(node, state)
      {
        var current := node.value;
        ghost var before, stepBefore, runsBefore := state, steps, qcRuns;
        raised := Execute(current);
        if raised.Some? {
          return;
        }
        StepKeepsInvariant(env, current, before, stepBefore, runsBefore);
        node := NextNode(current, state);
      }
    }
  }
}
