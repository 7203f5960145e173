/**
 * The linear report pipeline as a fixed composition of its nodes, in the
 * order the graph's edges give. The two branches after the merge (Stage 3
 * then Stage 4, and the search intelligence sidecar) are run one after
 * the other; the sidecar commutes with both report stages.
 */
module PatentPipelineGraph {
  import opened Wrappers
  import opened PipelineState
  import opened IngestNode
  import opened Stage1Node
  import opened TechPackRouterNode
  import opened Stage2aNode
  import opened Stage2bNode
  import opened Stage2cNode
  import opened Stage2MergeNode
  import opened Stage3Node
  import opened Stage4Node
  import opened SearchIntelNode
  import opened SaveReportsNode

  datatype Node =
    | IngestPdfsNode | Stage1ExtractionNode | TechPackRouterStep | Stage2aStep | Stage2bStep | Stage2cStep
    | Stage2MergeStep | Stage3ReportNode | Stage4QcNode | SearchIntelStep | SaveReportsStep

  /** ingest → stage1 → router → 2A → 2B → 2C → merge → stage3 → stage4 → search intel → save. */
  const Order: seq<Node> := [
    IngestPdfsNode, Stage1ExtractionNode, TechPackRouterStep, Stage2aStep, Stage2bStep, Stage2cStep,
    Stage2MergeStep, Stage3ReportNode, Stage4QcNode, SearchIntelStep, SaveReportsStep]

  function Step(svc: Services, n: Node, s: State): State
  {
    match n
    case IngestPdfsNode => IngestPdfs(svc, s)
    case Stage1ExtractionNode => Stage1Extraction(svc, s)
    case TechPackRouterStep => TechPackRouter(svc, s)
    case Stage2aStep => Stage2a(svc, s)
    case Stage2bStep => Stage2b(svc, s)
    case Stage2cStep => Stage2c(svc, s)
    case Stage2MergeStep => Stage2Merge(s)
    case Stage3ReportNode => Stage3Report(svc, s)
    case Stage4QcNode => Stage4Qc(svc, s)
    case SearchIntelStep => SearchIntel(svc, s)
    case SaveReportsStep => SaveReports(svc, s)
  }

  /** The nodes applied in order. */
  function RunNodes(svc: Services, nodes: seq<Node>, s: State): State
    decreases |nodes|
  {
    if |nodes| == 0 then s else RunNodes(svc, nodes[1..], Step(svc, nodes[0], s))
  }

  /** `run_patent_pipeline`: the whole graph from the initial state. */
  function RunPatentPipeline(svc: Services, patentPdfUrl: string, historyPdfUrl: string): State
  {
    RunNodes(svc, Order, InitialState(patentPdfUrl, historyPdfUrl))
  }

  /** Every node but ingest leaves a failed state's status and error alone. */
  lemma StepKeepsFailure(svc: Services, n: Node, s: State)
    requires IsFailed(s) && n != IngestPdfsNode
    ensures Step(svc, n, s).status == s.status && Step(svc, n, s).error == s.error
  {
  }

  /** Once failed, a run of nodes without ingest ends failed with the same error. */
  lemma {:induction false} FailureIsSticky(svc: Services, nodes: seq<Node>, s: State)
    requires IsFailed(s) && IngestPdfsNode !in nodes
    ensures RunNodes(svc, nodes, s).status == s.status && RunNodes(svc, nodes, s).error == s.error
    decreases |nodes|
  {
    if |nodes| > 0 {
      StepKeepsFailure(svc, nodes[0], s);
      assert nodes[0] in nodes;
      assert forall n :: n in nodes[1..] ==> n in nodes;
      FailureIsSticky(svc, nodes[1..], Step(svc, nodes[0], s));
    }
  }

  /** Running a prefix of the nodes and then the rest is running them all. */
  lemma {:induction false} RunSplit(svc: Services, nodes: seq<Node>, k: nat, s: State)
    requires k <= |nodes|
    ensures RunNodes(svc, nodes, s) == RunNodes(svc, nodes[k..], RunNodes(svc, nodes[..k], s))
    decreases k
  {
    if k > 0 {
      assert nodes[1..][..k - 1] == nodes[..k][1..];
      assert nodes[1..][k - 1..] == nodes[k..];
      RunSplit(svc, nodes[1..], k - 1, Step(svc, nodes[0], s));
    }
  }

  /** In any node sequence without ingest after position `k`, a failure by `k` is final. */
  lemma FailureAfterPrefixIsFinal(svc: Services, nodes: seq<Node>, k: nat, s: State)
    requires k <= |nodes| && IngestPdfsNode !in nodes[k..] && IsFailed(RunNodes(svc, nodes[..k], s))
    ensures IsFailed(RunNodes(svc, nodes, s))
    ensures RunNodes(svc, nodes, s).error == RunNodes(svc, nodes[..k], s).error
  {
    RunSplit(svc, nodes, k, s);
    FailureIsSticky(svc, nodes[k..], RunNodes(svc, nodes[..k], s));
  }

  /** Ingest is the first node of the graph and never recurs. */
  lemma IngestOnlyFirst(k: nat)
    requires 1 <= k <= |Order|
    ensures IngestPdfsNode !in Order[k..]
  {
    forall i | k <= i < |Order| ensures Order[i] != IngestPdfsNode {}
  }

  /**
   * The first node to fail decides the outcome: if the run is failed after
   * the first `k` nodes, it ends failed with that same error message.
   */
  lemma FirstFailureIsFinal(svc: Services, k: nat, s: State)
    requires 1 <= k <= |Order| && IsFailed(RunNodes(svc, Order[..k], s))
    ensures IsFailed(RunNodes(svc, Order, s))
    ensures RunNodes(svc, Order, s).error == RunNodes(svc, Order[..k], s).error
  {
    IngestOnlyFirst(k);
    FailureAfterPrefixIsFinal(svc, Order, k, s);
  }

  /** Any node sequence that ends with saving the reports ends "completed" or "failed". */
  lemma EndsWithSave(svc: Services, nodes: seq<Node>, s: State)
    requires |nodes| > 0 && nodes[|nodes| - 1] == SaveReportsStep
    ensures var r := RunNodes(svc, nodes, s);
      r.status == Some(Completed) || r.status == Some(Failed)
  {
    RunSplit(svc, nodes, |nodes| - 1, s);
    var last := nodes[|nodes| - 1..];
    assert last == [SaveReportsStep];
    assert RunNodes(svc, last, RunNodes(svc, nodes[..|nodes| - 1], s)) == SaveReports(svc, RunNodes(svc, nodes[..|nodes| - 1], s));
  }

  /** A run always ends "completed" or "failed". */
  lemma RunEndsCompletedOrFailed(svc: Services, patentPdfUrl: string, historyPdfUrl: string)
    ensures var r := RunPatentPipeline(svc, patentPdfUrl, historyPdfUrl);
      r.status == Some(Completed) || r.status == Some(Failed)
  {
    EndsWithSave(svc, Order, InitialState(patentPdfUrl, historyPdfUrl));
  }

  /** The sidecar's report depends only on fields the report stages never write. */
  lemma SearchIntelReads(svc: Services, s: State, t: State)
    requires s.stage1Extraction == t.stage1Extraction && s.stage2Forensic == t.stage2Forensic
    requires s.techPackContent == t.techPackContent
    ensures SearchIntelReport(svc, s) == SearchIntelReport(svc, t)
  {
    if !MissingInput(s) {
      assert SearchIntelInputs(s) == SearchIntelInputs(t);
    }
  }

  /** Scheduling the sidecar before or after Stage 3 gives the same state. */
  lemma SearchIntelCommutesWithStage3(svc: Services, s: State)
    ensures SearchIntel(svc, Stage3Report(svc, s)) == Stage3Report(svc, SearchIntel(svc, s))
  {
    SearchIntelReads(svc, s, Stage3Report(svc, s));
    var t := SearchIntel(svc, s);
    assert Stage3Result(svc, t) == Stage3Result(svc, s);
  }

  /** Scheduling the sidecar before or after Stage 4 gives the same state. */
  lemma SearchIntelCommutesWithStage4(svc: Services, s: State)
    ensures SearchIntel(svc, Stage4Qc(svc, s)) == Stage4Qc(svc, SearchIntel(svc, s))
  {
    SearchIntelReads(svc, s, Stage4Qc(svc, s));
    var t := SearchIntel(svc, s);
    assert Stage4Result(svc, t) == Stage4Result(svc, s);
  }
}
