/**
 * The content creation workflow: research, write, review, then revise and
 * review again until the review scores at least 8 or the iteration cap is
 * reached, then finalize. The three agents are one oracle here.
 */
module ContentPipeline {
  import opened Wrappers
  import opened PyStr

  const DefaultMaxIterations := 3
  const ApprovalScore := 8
  const DefaultReviewScore := 7

  /** The state dict of a content run (the always-empty `messages` list is left out). */
  datatype ContentState = ContentState(
    topic: string,
    style: string,
    audience: string,
    researchFindings: string,
    researchComplete: bool,
    draftContent: string,
    writingComplete: bool,
    reviewFeedback: string,
    reviewScore: int,
    reviewComplete: bool,
    finalContent: string,
    status: string,
    iterationCount: int)

  /** What each node hands to its agent. */
  datatype ContentRequest =
    | ResearchRequest(topic: string, context: string)
    | WriteRequest(task: string, research: string, style: string, audience: string)
    | ReviewRequest(content: string, criteria: seq<string>, context: string)

  /**
   * `invoke(req, step)` is the field the node reads from the agent's result
   * (`findings`, `content` or `review`) when `step` nodes have run, or the
   * text of the exception that ends the run.
   */
  datatype ContentAgents = ContentAgents(invoke: (ContentRequest, nat) -> Result<string, string>)

  datatype ContentNode = ResearchNode | WriteNode | ReviewNode | ReviseNode | FinalizeNode

  /** The initial state of `run`. */
  function InitialState(topic: string, style: string, audience: string): (r: ContentState)
    ensures r.topic == topic && r.style == style && r.audience == audience
    ensures r.iterationCount == 0 && r.reviewScore == 0 && r.status == "started"
    ensures !r.researchComplete && !r.writingComplete && !r.reviewComplete
    ensures r.researchFindings == "" && r.draftContent == "" && r.reviewFeedback == "" && r.finalContent == ""
  {
    ContentState(topic, style, audience, "", false, "", false, "", 0, false, "", "started", 0)
  }

  /** A mark of score `i` in a review: "i/10", or "i out of 10" in any letter case. */
  predicate Marks(text: string, i: int)
  {
    Contains(text, IntToString(i) + "/10") || Contains(LowerAscii(text), IntToString(i) + " out of 10")
  }

  /** The scan of `review_node` from `hi` down to 1: the first marked score, else the default. */
  function ScanScore(text: string, hi: nat): (r: int)
    requires hi <= 10
    ensures 1 <= r <= 10
    ensures (exists i :: 1 <= i <= hi && Marks(text, i)) ==>
      r <= hi && Marks(text, r) && forall i :: r < i <= hi ==> !Marks(text, i)
    ensures (forall i :: 1 <= i <= hi ==> !Marks(text, i)) ==> r == DefaultReviewScore
    decreases hi
  {
    if hi == 0 then DefaultReviewScore
    else if Marks(text, hi) then hi
    else ScanScore(text, hi - 1)
  }

  /**
   * The score `review_node` reads from a review: 7 unless the review says
   * "score" in any case; then the highest marked score from 10 down, else 7.
   */
  function ReviewScore(text: string): (r: int)
    ensures 1 <= r <= 10
    ensures !Contains(LowerAscii(text), "score") ==> r == DefaultReviewScore
    ensures Contains(LowerAscii(text), "score") && (exists i :: 1 <= i <= 10 && Marks(text, i)) ==>
      Marks(text, r) && forall i :: r < i <= 10 ==> !Marks(text, i)
    ensures (forall i :: 1 <= i <= 10 ==> !Marks(text, i)) ==> r == DefaultReviewScore
  {
    if Contains(LowerAscii(text), "score") then ScanScore(text, 10) else DefaultReviewScore
  }

  /** The score scan of `review_node`, from 10 down, stopping at the first mark. */
  method ParseReviewScore(text: string) returns (score: int)
    ensures score == ReviewScore(text)
  {
    score := DefaultReviewScore;
    if Contains(LowerAscii(text), "score") {
      var i := 10;
      while i > 0
        invariant 0 <= i <= 10
        invariant ScanScore(text, i) == ScanScore(text, 10)
        invariant score == DefaultReviewScore
      {
        if Marks(text, i) {
          score := i;
          break;
        }
        i := i - 1;
      }
    }
  }

  /** `research_node`. */
  function ResearchUpdate(agents: ContentAgents, s: ContentState, step: nat): (r: Result<ContentState, string>)
    ensures
      var reply := agents.invoke(ResearchRequest(s.topic, "Creating content for " + s.audience + " audience in " + s.style + " style"), step);
      && (reply.Err? ==> r == Err(reply.error))
      && (reply.Ok? ==> r == Ok(s.(researchFindings := reply.value, researchComplete := true)))
  {
    match agents.invoke(ResearchRequest(s.topic, "Creating content for " + s.audience + " audience in " + s.style + " style"), step)
    case Err(e) => Err(e)
    case Ok(findings) => Ok(s.(researchFindings := findings, researchComplete := true))
  }

  /** `write_node`. */
  function WriteUpdate(agents: ContentAgents, s: ContentState, step: nat): (r: Result<ContentState, string>)
    ensures
      var reply := agents.invoke(WriteRequest("Write about: " + s.topic, s.researchFindings, s.style, s.audience), step);
      && (reply.Err? ==> r == Err(reply.error))
      && (reply.Ok? ==> r == Ok(s.(draftContent := reply.value, writingComplete := true)))
  {
    match agents.invoke(WriteRequest("Write about: " + s.topic, s.researchFindings, s.style, s.audience), step)
    case Err(e) => Err(e)
    case Ok(content) => Ok(s.(draftContent := content, writingComplete := true))
  }

  /** The review criteria `review_node` sends. */
  function Criteria(s: ContentState): seq<string>
  {
    ["Accuracy and factual correctness", "Clarity and readability", "Engagement and flow",
     "Appropriate for " + s.audience + " audience", "Matches " + s.style + " style"]
  }

  function ReviewRequestFor(s: ContentState): ContentRequest
  {
    ReviewRequest(s.draftContent, Criteria(s), "Topic: " + s.topic)
  }

  /** `review_node`: the review, its score, and exactly one more iteration. */
  function ReviewUpdate(agents: ContentAgents, s: ContentState, step: nat): (r: Result<ContentState, string>)
    ensures agents.invoke(ReviewRequestFor(s), step).Err? ==> r == Err(agents.invoke(ReviewRequestFor(s), step).error)
    ensures r.Ok? ==>
      && r.value.iterationCount == s.iterationCount + 1
      && 1 <= r.value.reviewScore <= 10
      && r.value.reviewFeedback == agents.invoke(ReviewRequestFor(s), step).value
      && r.value == s.(reviewFeedback := r.value.reviewFeedback, reviewScore := ReviewScore(r.value.reviewFeedback),
                       reviewComplete := true, iterationCount := r.value.iterationCount)
  {
    match agents.invoke(ReviewRequestFor(s), step)
    case Err(e) => Err(e)
    case Ok(text) =>
      Ok(s.(reviewFeedback := text, reviewScore := ReviewScore(text), reviewComplete := true,
            iterationCount := s.iterationCount + 1))
  }

  /** The writer's task in `revise_node`: the draft and the feedback. */
  function ReviseTask(s: ContentState): string
  {
    "Revise the following content based on feedback:\n\nOriginal Content:\n" + s.draftContent
    + "\n\nFeedback:\n" + s.reviewFeedback + "\n\nPlease address the feedback and improve the content."
  }

  /** `revise_node`: a new draft, and the review marked incomplete again. */
  function ReviseUpdate(agents: ContentAgents, s: ContentState, step: nat): (r: Result<ContentState, string>)
    ensures
      var reply := agents.invoke(WriteRequest(ReviseTask(s), s.researchFindings, s.style, s.audience), step);
      && (reply.Err? ==> r == Err(reply.error))
      && (reply.Ok? ==> r == Ok(s.(draftContent := reply.value, reviewComplete := false)))
  {
    match agents.invoke(WriteRequest(ReviseTask(s), s.researchFindings, s.style, s.audience), step)
    case Err(e) => Err(e)
    case Ok(content) => Ok(s.(draftContent := content, reviewComplete := false))
  }

  /** `finalize_node`: the draft becomes the final content and the run is completed. */
  function FinalizeUpdate(s: ContentState): (r: ContentState)
    ensures r.finalContent == s.draftContent && r.status == "completed"
    ensures r == s.(finalContent := r.finalContent, status := r.status)
  {
    s.(finalContent := s.draftContent, status := "completed")
  }

  /** `should_revise`: finalize once the score reaches 8 or the iterations reach the cap. */
  function ShouldRevise(s: ContentState, maxIterations: int): (r: ContentNode)
    ensures r == FinalizeNode || r == ReviseNode
    ensures r == FinalizeNode <==> s.reviewScore >= ApprovalScore || s.iterationCount >= maxIterations
  {
    if s.reviewScore >= ApprovalScore || s.iterationCount >= maxIterations then FinalizeNode else ReviseNode
  }

  /** One node's update; `Err` is an exception that ends the run. */
  function NodeUpdate(agents: ContentAgents, node: ContentNode, s: ContentState, step: nat): (r: Result<ContentState, string>)
    ensures r.Ok? ==> r.value.iterationCount == s.iterationCount + (if node == ReviewNode then 1 else 0)
    ensures r.Ok? && node != ReviewNode ==> r.value.reviewScore == s.reviewScore
    ensures r.Ok? && node == FinalizeNode ==>
      r.value.status == "completed" && r.value.finalContent == s.draftContent && r.value.draftContent == s.draftContent
    ensures r.Err? ==> node != FinalizeNode
  {
    match node
    case ResearchNode => ResearchUpdate(agents, s, step)
    case WriteNode => WriteUpdate(agents, s, step)
    case ReviewNode => ReviewUpdate(agents, s, step)
    case ReviseNode => ReviseUpdate(agents, s, step)
    case FinalizeNode => Ok(FinalizeUpdate(s))
  }

  /** The edges of `build_graph`; revise goes back to review, and None is END. */
  function NextNode(node: ContentNode, s: ContentState, maxIterations: int): (r: Option<ContentNode>)
    ensures r.None? <==> node == FinalizeNode
    ensures node == ReviseNode ==> r == Some(ReviewNode)
  {
    match node
    case ResearchNode => Some(WriteNode)
    case WriteNode => Some(ReviewNode)
    case ReviewNode => Some(ShouldRevise(s, maxIterations))
    case ReviseNode => Some(ReviewNode)
    case FinalizeNode => None
  }

  /** The most reviews a run can make: the cap, but always at least one. */
  function MaxReviews(maxIterations: int): nat
  {
    if maxIterations < 1 then 1 else maxIterations
  }

  function Rank(node: Option<ContentNode>): nat
  {
    match node
    case None => 0
    case Some(FinalizeNode) => 1
    case Some(ReviewNode) => 2
    case Some(ReviseNode) => 3
    case Some(WriteNode) => 4
    case Some(ResearchNode) => 5
  }

  /**
   * What a run keeps between two nodes: the iterations within
   * `MaxReviews`, a further review only below the cap, and finalize and
   * END only once `should_revise` allowed it.
   */
  ghost predicate RunInvariant(node: Option<ContentNode>, s: ContentState, maxIterations: int)
  {
    && 0 <= s.iterationCount <= MaxReviews(maxIterations)
    && (node == Some(ResearchNode) || node == Some(WriteNode) ==> s.iterationCount == 0)
    && (node == Some(ReviewNode) ==> s.iterationCount == 0 || s.iterationCount < maxIterations)
    && (node == Some(ReviseNode) ==> s.iterationCount < maxIterations)
    && (node == Some(FinalizeNode) || node.None? ==>
          s.iterationCount >= 1 && (s.reviewScore >= ApprovalScore || s.iterationCount >= maxIterations))
    && (node.None? ==> s.status == "completed" && s.finalContent == s.draftContent)
  }

  function Potential(node: Option<ContentNode>, s: ContentState, maxIterations: int): int
  {
    2 * (MaxReviews(maxIterations) - s.iterationCount) + Rank(node)
  }

  /**
   * A node whose result changes the count, score and final content as
   * `NodeUpdate` promises keeps the invariant and lowers the potential.
   */
  lemma NextKeepsInvariant(node: ContentNode, s: ContentState, t: ContentState, maxIterations: int)
    requires RunInvariant(Some(node), s, maxIterations)
    requires t.iterationCount == s.iterationCount + (if node == ReviewNode then 1 else 0)
    requires node != ReviewNode ==> t.reviewScore == s.reviewScore
    requires node == FinalizeNode ==> t.status == "completed" && t.finalContent == t.draftContent
    ensures
      var next := NextNode(node, t, maxIterations);
      && RunInvariant(next, t, maxIterations)
      && 0 <= Potential(next, t, maxIterations) < Potential(Some(node), s, maxIterations)
  {
    if node == ReviewNode {
      var next := ShouldRevise(t, maxIterations);
    }
  }

  /** One node that does not raise keeps the invariant and lowers the potential. */
  lemma StepKeepsInvariant(agents: ContentAgents, node: ContentNode, s: ContentState, step: nat, maxIterations: int)
    requires RunInvariant(Some(node), s, maxIterations)
    requires NodeUpdate(agents, node, s, step).Ok?
    ensures
      var t := NodeUpdate(agents, node, s, step).value;
      var next := NextNode(node, t, maxIterations);
      && RunInvariant(next, t, maxIterations)
      && 0 <= Potential(next, t, maxIterations) < Potential(Some(node), s, maxIterations)
  {
    NextKeepsInvariant(node, s, NodeUpdate(agents, node, s, step).value, maxIterations);
  }

  /** LangGraph's default `recursion_limit`: `app.ainvoke` is given no config. */
  const RecursionLimit := 25
  const RecursionLimitError := "Recursion limit of 25 reached without hitting a stop condition."

  /**
   * The nodes a run has executed when `node` is next and `reviews`
   * reviews are done; the graph runs one node per superstep.
   */
  function NodesBefore(node: Option<ContentNode>, reviews: nat): nat
  {
    match node
    case Some(ResearchNode) => 0
    case Some(WriteNode) => 1
    case Some(ReviewNode) => 2 * reviews + 2
    case Some(ReviseNode) => 2 * reviews + 1
    case Some(FinalizeNode) => 2 * reviews + 1
    case None => 2 * reviews + 2
  }

  /** Every node that does not raise is followed by a node (or END) one superstep later. */
  lemma NextRunsOneNode(node: ContentNode, s: ContentState, t: ContentState, maxIterations: int)
    requires RunInvariant(Some(node), s, maxIterations)
    requires t.iterationCount == s.iterationCount + (if node == ReviewNode then 1 else 0)
    ensures NodesBefore(NextNode(node, t, maxIterations), t.iterationCount) == NodesBefore(Some(node), s.iterationCount) + 1
  {
  }

  /** The content workflow object: its cap, its agents and the state of the current run. */
  class ContentWorkflow {
    const maxIterations: int
    const agents: ContentAgents
    var state: ContentState
    var steps: nat

    constructor(maxIterations: int, agents: ContentAgents)
      ensures this.maxIterations == maxIterations && this.agents == agents
      ensures state == InitialState("", "professional", "general") && steps == 0
    {
      this.maxIterations := maxIterations;
      this.agents := agents;
      state := InitialState("", "professional", "general");
      steps := 0;
    }

    /** `review_node`, with the score scan as a loop. */
    method Review() returns (raised: Option<string>)
      modifies this
      ensures var r := ReviewUpdate(agents, old(state), old(steps));
        && (r.Err? ==> raised == Some(r.error) && state == old(state))
        && (r.Ok? ==> raised.None? && state == r.value)
      ensures steps == old(steps) + 1
    {
      var reply := agents.invoke(ReviewRequestFor(state), steps);
      if reply.Err? {
        raised := Some(reply.error);
      } else {
        var score := ParseReviewScore(reply.value);
        state := state.(reviewFeedback := reply.value, reviewScore := score, reviewComplete := true,
                        iterationCount := state.iterationCount + 1);
        raised := None;
      }
      steps := steps + 1;
    }

    /** Runs one node. */
    method Execute(node: ContentNode) returns (raised: Option<string>)
      modifies this
      ensures
        var r := NodeUpdate(agents, node, old(state), old(steps));
        && (r.Err? ==> raised == Some(r.error) && state == old(state))
        && (r.Ok? ==> raised.None? && state == r.value)
      ensures steps == old(steps) + 1
    {
      if node == ReviewNode {
        assert NodeUpdate(agents, node, state, steps) == ReviewUpdate(agents, state, steps);
        raised := Review();
      } else {
        var r := NodeUpdate(agents, node, state, steps);
        if r.Err? {
          raised := Some(r.error);
        } else {
          raised := None;
          state := r.value;
        }
        steps := steps + 1;
      }
    }

    /**
     * `run`: research, write, then reviews until `should_revise` finalizes.
     * Each review adds one iteration, and there are at most
     * `max(1, max_iterations)` of them. A run of k reviews executes 2k+2
     * nodes, and LangGraph raises before a 26th, so a run that completes
     * made at most 11 reviews.
     */
    method Run(topic: string, style: string, audience: string) returns (raised: Option<string>)
      modifies this
      ensures raised.None? ==>
        && state.status == "completed" && state.finalContent == state.draftContent
        && state.iterationCount >= 1
        && (state.reviewScore >= ApprovalScore || state.iterationCount >= maxIterations)
      ensures raised.None? ==>
        && steps == 2 * state.iterationCount + 2 <= RecursionLimit
        && state.iterationCount <= (RecursionLimit - 2) / 2
      ensures 0 <= state.iterationCount <= MaxReviews(maxIterations)
      ensures steps <= RecursionLimit
    {
      state := InitialState(topic, style, audience);
      steps := 0;
      var node: Option<ContentNode> := Some(ResearchNode);
      raised := None;
      while node.Some?
        invariant RunInvariant(node, state, maxIterations)
        invariant steps == NodesBefore(node, state.iterationCount) <= RecursionLimit
        invariant raised.None?
        decreases Potential(node, state, maxIterations)
      {
        var current := node.value;
        if steps == RecursionLimit {
          raised := Some(RecursionLimitError);
          return;
        }
        ghost var before, stepBefore := state, steps;
        raised := Execute(current);
        if raised.Some? {
          return;
        }
        StepKeepsInvariant(agents, current, before, stepBefore, maxIterations);
        NextRunsOneNode(current, before, state, maxIterations);
        node := NextNode(current, state, maxIterations);
      }
    }
  }
}
