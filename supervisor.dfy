/**
 * The supervisor of the agent workflow: a fixed decision table from the
 * workflow state to the next action and a reason, with two caps on the
 * revise and clarify loops.
 */
module Supervisor {
  import opened Wrappers
  import opened PyStr

  const MaxRevisions := 2
  const MaxClarifications := 1

  datatype Action = Extract | Analyze | Write | RunQc | Finalize | Clarify | Revise | Abort

  /** The action's name in the returned dict. */
  function ActionName(a: Action): string
  {
    match a
    case Extract => "extract"
    case Analyze => "analyze"
    case Write => "write"
    case RunQc => "qc"
    case Finalize => "finalize"
    case Clarify => "clarify"
    case Revise => "revise"
    case Abort => "abort"
  }

  datatype Decision = Decision(action: Action, reason: string)

  /**
   * The keys `decide_next_action` reads; a missing key is None. A present
   * `error` may itself be None.
   */
  datatype SupervisorInput = SupervisorInput(
    status: Option<string>,
    currentStage: Option<string>,
    revisionCount: Option<int>,
    clarificationCount: Option<int>,
    qcScore: Option<int>,
    qcPassed: Option<bool>,
    needsRevision: Option<bool>,
    needsClarification: Option<bool>,
    error: Option<Option<string>>)

  function Status(s: SupervisorInput): string { s.status.GetOr("pending") }
  function Stage(s: SupervisorInput): string { s.currentStage.GetOr("start") }
  function Revisions(s: SupervisorInput): int { s.revisionCount.GetOr(0) }
  function Clarifications(s: SupervisorInput): int { s.clarificationCount.GetOr(0) }
  function QcScore(s: SupervisorInput): int { s.qcScore.GetOr(0) }

  /** `state.get('error', 'Unknown error')` inside an f-string: a present None prints as "None". */
  function ErrorText(s: SupervisorInput): string
  {
    match s.error
    case None => "Unknown error"
    case Some(None) => "None"
    case Some(Some(e)) => e
  }

  /** The stages with one fixed next action. */
  const StageActions: map<string, Action> := map[
    "start" := Extract,
    "extracted" := Analyze,
    "analyzed" := Write,
    "written" := RunQc,
    "clarified" := Write,
    "revised" := RunQc
  ]

  /** At `qc_complete`: not passed, clarification asked and still allowed. */
  predicate ClarifyDue(s: SupervisorInput)
  {
    !s.qcPassed.GetOr(false) && s.needsClarification.GetOr(false) && Clarifications(s) < MaxClarifications
  }

  /** At `qc_complete`: not passed, no clarification due, revision asked and still allowed. */
  predicate ReviseDue(s: SupervisorInput)
  {
    !s.qcPassed.GetOr(false) && !ClarifyDue(s) && s.needsRevision.GetOr(false) && Revisions(s) < MaxRevisions
  }

  /**
   * The `qc_complete` branch of `decide_next_action`: finalize on a pass,
   * else clarify, else revise while allowed, else finalize.
   */
  function QcCompleteDecision(s: SupervisorInput): (r: Decision)
    ensures r.action == Finalize || r.action == Clarify || r.action == Revise
    ensures s.qcPassed.GetOr(false) ==> r.action == Finalize
    ensures r.action == Clarify <==> ClarifyDue(s)
    ensures r.action == Revise <==> ReviseDue(s)
  {
    var score := IntToString(QcScore(s));
    if s.qcPassed.GetOr(false) then
      Decision(Finalize, "QC passed with score " + score + ", finalizing report")
    else if s.needsClarification.GetOr(false) && Clarifications(s) < MaxClarifications then
      Decision(Clarify, "QC needs clarification (attempt " + IntToString(Clarifications(s) + 1) + "/1)")
    else if s.needsRevision.GetOr(false) && Revisions(s) < MaxRevisions then
      Decision(Revise, "QC score " + score + " below threshold, revision needed (attempt "
                       + IntToString(Revisions(s) + 1) + "/2)")
    else if Revisions(s) >= MaxRevisions then
      Decision(Finalize, "Max revisions (2) reached, finalizing with score " + score)
    else
      Decision(Finalize, "Finalizing report with score " + score)
  }

  /** `decide_next_action`. */
  function DecideNextAction(s: SupervisorInput): (r: Decision)
    ensures Status(s) == "failed" ==> r == Decision(Abort, "Pipeline failed: " + ErrorText(s))
    ensures Status(s) != "failed" && Stage(s) == "qc_complete" ==>
      && (r.action == Finalize || r.action == Clarify || r.action == Revise)
      && (s.qcPassed.GetOr(false) ==> r.action == Finalize)
      && (ClarifyDue(s) ==> r.action == Clarify)
      && (ReviseDue(s) ==> r.action == Revise)
    ensures s.status.None? && s.currentStage.None? ==> r.action == Extract
    ensures r.action == Revise ==> Stage(s) == "qc_complete" && ReviseDue(s)
    ensures r.action == Clarify ==> Stage(s) == "qc_complete" && ClarifyDue(s)
  {
    var status := Status(s);
    var stage := Stage(s);
    if status == "failed" then Decision(Abort, "Pipeline failed: " + ErrorText(s))
    else if stage == "start" then Decision(Extract, "Starting pipeline with PDF extraction")
    else if stage == "extracted" then Decision(Analyze, "Extraction complete, proceeding to analysis")
    else if stage == "analyzed" then Decision(Write, "Analysis complete, proceeding to report generation")
    else if stage == "written" then Decision(RunQc, "Report generated, proceeding to QC verification")
    else if stage == "qc_complete" then QcCompleteDecision(s)
    else if stage == "clarified" then Decision(Write, "Clarification received, regenerating report")
    else if stage == "revised" then Decision(RunQc, "Report revised, re-running QC verification")
    else Decision(Abort, "Unknown stage: " + stage)
  }

  /** The fixed stages: each maps to its one action, whatever the counters and flags. */
  lemma StageTable(s: SupervisorInput)
    requires Status(s) != "failed" && Stage(s) in StageActions
    ensures DecideNextAction(s).action == StageActions[Stage(s)]
  {
    var stage := Stage(s);
    if stage == "start" {
    } else if stage == "extracted" {
    } else if stage == "analyzed" {
    } else if stage == "written" {
    } else if stage == "clarified" {
    } else {
      assert stage == "revised";
    }
  }

  /** Any stage outside the table and `qc_complete` aborts, naming the stage. */
  lemma UnknownStageAborts(s: SupervisorInput)
    ensures Status(s) != "failed" && Stage(s) !in StageActions && Stage(s) != "qc_complete" ==>
      DecideNextAction(s) == Decision(Abort, "Unknown stage: " + Stage(s))
  {
  }

  /** A revision's reason names the score and the attempt out of two. */
  lemma RevisionReason(s: SupervisorInput)
    requires Status(s) != "failed" && Stage(s) == "qc_complete" && ReviseDue(s)
    ensures DecideNextAction(s).reason ==
      "QC score " + IntToString(QcScore(s)) + " below threshold, revision needed (attempt "
      + IntToString(Revisions(s) + 1) + "/2)"
  {
  }

  /** `should_continue`: false exactly when the pipeline has failed, is lost, or QC leaves nothing to loop on. */
  function ShouldContinue(s: SupervisorInput): (r: bool)
    ensures !r <==>
      || Status(s) == "failed"
      || (Stage(s) !in StageActions && Stage(s) != "qc_complete")
      || (Stage(s) == "qc_complete" && !ClarifyDue(s) && !ReviseDue(s))
  {
    var action := DecideNextAction(s).action;
    UnknownStageAborts(s);
    if Status(s) != "failed" && Stage(s) in StageActions then
      StageTable(s);
      !(action == Finalize || action == Abort)
    else
      !(action == Finalize || action == Abort)
  }

  /** Once both loops have used up their caps, a `qc_complete` state always finalizes. */
  lemma CapsExhaustedFinalize(s: SupervisorInput)
    requires Status(s) != "failed" && Stage(s) == "qc_complete"
    requires Revisions(s) >= MaxRevisions && Clarifications(s) >= MaxClarifications
    ensures DecideNextAction(s).action == Finalize
  {
  }
}
