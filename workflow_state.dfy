/**
 * The record threaded through the agent workflow. `create_initial_state`
 * fills every key, and the nodes only overwrite keys, so every field is
 * always present.
 */
module AgentWorkflowState {
  import opened Wrappers
  import opened Json

  datatype WorkflowState = WorkflowState(
    patentPdfUrl: string,
    historyPdfUrl: string,
    patentPdfBytes: Bytes,
    historyPdfBytes: Bytes,
    currentStage: string,
    status: string,
    error: Option<string>,
    revisionCount: int,
    clarificationCount: int,
    techCenter: string,
    techPackContent: string,
    extraction: Record,
    forensicAnalysis: Record,
    clarificationAnswers: Json,
    report: string,
    reportHistory: seq<string>,
    qcResult: Record,
    qcScore: int,
    qcPassed: bool,
    needsRevision: bool,
    needsClarification: bool,
    clarificationQuestions: seq<string>,
    correctedReport: string,
    finalReport: string,
    stage3Url: string,
    stage4Url: string,
    searchIntelUrl: string)

  const DefaultTechCenter := "2100"

  /** `create_initial_state`. */
  function CreateInitialState(patentPdfUrl: string, historyPdfUrl: string): (r: WorkflowState)
    ensures r.patentPdfUrl == patentPdfUrl && r.historyPdfUrl == historyPdfUrl
    ensures r.currentStage == "start" && r.status == "pending" && r.error.None?
    ensures r.revisionCount == 0 && r.clarificationCount == 0
    ensures r.qcScore == 0 && !r.qcPassed && !r.needsRevision && !r.needsClarification
    ensures r.techCenter == DefaultTechCenter
    ensures r.patentPdfBytes == [] && r.historyPdfBytes == []
    ensures r.extraction == map[] && r.forensicAnalysis == map[] && r.clarificationAnswers == EmptyObj
      && r.qcResult == map[]
    ensures r.report == "" && r.reportHistory == [] && r.clarificationQuestions == []
      && r.techPackContent == "" && r.correctedReport == "" && r.finalReport == ""
      && r.stage3Url == "" && r.stage4Url == "" && r.searchIntelUrl == ""
  {
    WorkflowState(
      patentPdfUrl, historyPdfUrl, [], [],
      "start", "pending", None, 0, 0,
      DefaultTechCenter, "",
      map[], map[], EmptyObj,
      "", [],
      map[], 0, false, false, false, [], "",
      "", "", "", "")
  }
}
