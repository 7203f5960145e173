/**
 * The analyst agent: the three Stage 2 analyses (2A first, then 2B and 2C),
 * their merge into one forensic record, and answers to the QC agent's
 * clarification questions.
 */
module Analyst {
  import opened Wrappers
  import opened Json
  import opened Fences
  import opened GeminiClient
  import opened Agents

  /** One Stage 2 analysis: the reply parsed as a JSON object (`result.keys()` fails otherwise). */
  function AnalyzeStage(env: AgentEnv, request: AgentRequest, step: nat): (r: Result<Record, string>)
    ensures r.Ok? ==>
      env.invoke(request, step).Ok? && env.decode(ExtractJsonText(env.invoke(request, step).value)) == Ok(JObj(r.value))
    ensures env.invoke(request, step).Err? ==> r == Err(env.invoke(request, step).error)
  {
    match env.invoke(request, step)
    case Err(e) => Err(e)
    case Ok(text) => ParseRecord(env.decode, text)
  }

  /**
   * The merged analysis: the three results under "stage2a", "stage2b" and
   * "stage2c", overlaid by every top-level key of 2A, then 2B, then 2C.
   */
  function MergeAnalysis(a: Record, b: Record, c: Record): (r: Record)
    ensures r.Keys == {"stage2a", "stage2b", "stage2c"} + a.Keys + b.Keys + c.Keys
    ensures forall k :: k in c ==> r[k] == c[k]
    ensures forall k :: k in b && k !in c ==> r[k] == b[k]
    ensures forall k :: k in a && k !in b && k !in c ==> r[k] == a[k]
    ensures "stage2a" !in a && "stage2a" !in b && "stage2a" !in c ==> r["stage2a"] == JObj(a)
    ensures "stage2b" !in a && "stage2b" !in b && "stage2b" !in c ==> r["stage2b"] == JObj(b)
    ensures "stage2c" !in a && "stage2c" !in b && "stage2c" !in c ==> r["stage2c"] == JObj(c)
  {
    map["stage2a" := JObj(a), "stage2b" := JObj(b), "stage2c" := JObj(c)] + a + b + c
  }

  /**
   * `analyze_parallel`: 2A, then 2B on 2A's result and 2C on 2A's result
   * with an empty dict in place of 2B. The two concurrent calls are taken in
   * order, so when both fail 2B's error is the one reported.
   */
  function AnalyzeParallel(env: AgentEnv, extraction: Record, techPack: string, step: nat): (r: Result<Record, string>)
    ensures r.Ok? <==>
      && AnalyzeStage(env, Stage2aRequest(extraction, techPack), step).Ok?
      && var a := AnalyzeStage(env, Stage2aRequest(extraction, techPack), step).value;
         AnalyzeStage(env, Stage2bRequest(extraction, a, techPack), step).Ok?
         && AnalyzeStage(env, Stage2cRequest(extraction, a, map[], techPack), step).Ok?
    ensures r.Ok? ==>
      var a := AnalyzeStage(env, Stage2aRequest(extraction, techPack), step).value;
      var b := AnalyzeStage(env, Stage2bRequest(extraction, a, techPack), step).value;
      var c := AnalyzeStage(env, Stage2cRequest(extraction, a, map[], techPack), step).value;
      r.value == MergeAnalysis(a, b, c)
  {
    match AnalyzeStage(env, Stage2aRequest(extraction, techPack), step)
    case Err(e) => Err(e)
    case Ok(a) =>
      var b := AnalyzeStage(env, Stage2bRequest(extraction, a, techPack), step);
      var c := AnalyzeStage(env, Stage2cRequest(extraction, a, map[], techPack), step);
      if b.Err? then Err(b.error)
      else if c.Err? then Err(c.error)
      else Ok(MergeAnalysis(a, b.value, c.value))
  }

  /** `clarify`: the decoded reply, which must have a length for the completion log. */
  function ClarifyAnswers(env: AgentEnv, questions: seq<string>, extraction: Record, step: nat): (r: Result<Json, string>)
    ensures r.Ok? ==> LenError(r.value).None?
    ensures r.Ok? ==>
      var request := ClarifyRequest(questions, map["extraction" := JObj(extraction)]);
      env.invoke(request, step).Ok? && env.decode(ExtractJsonText(env.invoke(request, step).value)) == Ok(r.value)
  {
    match env.invoke(ClarifyRequest(questions, map["extraction" := JObj(extraction)]), step)
    case Err(e) => Err(e)
    case Ok(text) =>
      match env.decode(ExtractJsonText(text))
      case Err(e) => Err(e)
      case Ok(answers) =>
        match LenError(answers)
        case Some(e) => Err(e)
        case None => Ok(answers)
  }

  /** The keys of `process`'s input; a missing key is None. */
  datatype AnalystInput = AnalystInput(
    extraction: Option<Record>,
    techCenter: Option<string>,
    mode: Option<string>,
    questions: Option<seq<string>>,
    stage2a: Option<Record>,
    stage2b: Option<Record>)

  /** The dict `process` returns: a forensic analysis, or the answers in clarify mode. */
  datatype AnalystOutput = AnalystOutput(
    forensicAnalysis: Option<Record>,
    answers: Option<Json>,
    status: string,
    error: Option<string>)

  /** The `except` branch of `process`. */
  function AnalystFailure(message: string): (r: AnalystOutput)
    ensures r.forensicAnalysis == Some(map[]) && r.answers.None? && r.status == "failed" && r.error == Some(message)
  {
    AnalystOutput(Some(map[]), None, "failed", Some(message))
  }

  /** The analysis a non-clarify mode runs: "2a", "2b", "2c", anything else the full parallel run. */
  function RunMode(env: AgentEnv, input: AnalystInput, mode: string, techPack: string, step: nat): (r: Result<Record, string>)
    ensures mode != "2a" && mode != "2b" && mode != "2c" ==>
      r == AnalyzeParallel(env, input.extraction.GetOr(map[]), techPack, step)
    ensures mode == "2a" ==> r == AnalyzeStage(env, Stage2aRequest(input.extraction.GetOr(map[]), techPack), step)
  {
    var extraction := input.extraction.GetOr(map[]);
    if mode == "2a" then AnalyzeStage(env, Stage2aRequest(extraction, techPack), step)
    else if mode == "2b" then AnalyzeStage(env, Stage2bRequest(extraction, input.stage2a.GetOr(map[]), techPack), step)
    else if mode == "2c" then
      AnalyzeStage(env, Stage2cRequest(extraction, input.stage2a.GetOr(map[]), input.stage2b.GetOr(map[]), techPack), step)
    else AnalyzeParallel(env, extraction, techPack, step)
  }

  /**
   * `process`: the tech pack (default centre "2100") is loaded before the
   * mode (default "full") is dispatched, so a failed load fails even a
   * clarification. Clarify mode answers the questions and has no analysis.
   */
  function AnalystProcess(env: AgentEnv, input: AnalystInput, step: nat): (r: AnalystOutput)
    ensures r.status == "completed" || r.status == "failed"
    ensures r.status == "failed" ==> r.forensicAnalysis == Some(map[]) && r.answers.None? && r.error.Some?
    ensures env.loadTechPack(input.techCenter.GetOr("2100")).Err? ==>
      r == AnalystFailure(env.loadTechPack(input.techCenter.GetOr("2100")).error.message)
    ensures r.status == "completed" && input.mode == Some("clarify") ==>
      r.forensicAnalysis.None? && r.answers.Some? && r.error.None?
    ensures r.status == "completed" && input.mode != Some("clarify") ==>
      r.forensicAnalysis.Some? && r.answers.None? && r.error.None?
    ensures env.loadTechPack(input.techCenter.GetOr("2100")).Ok? && input.mode != Some("clarify") ==>
      var run := RunMode(env, input, input.mode.GetOr("full"), env.loadTechPack(input.techCenter.GetOr("2100")).value, step);
      (r.status == "completed" <==> run.Ok?) && (run.Ok? ==> r.forensicAnalysis == Some(run.value))
  {
    match env.loadTechPack(input.techCenter.GetOr("2100"))
    case Err(failure) => AnalystFailure(failure.message)
    case Ok(techPack) =>
      var mode := input.mode.GetOr("full");
      if mode == "clarify" then
        match ClarifyAnswers(env, input.questions.GetOr([]), input.extraction.GetOr(map[]), step)
        case Err(e) => AnalystFailure(e)
        case Ok(answers) => AnalystOutput(None, Some(answers), "completed", None)
      else
        match RunMode(env, input, mode, techPack, step)
        case Err(e) => AnalystFailure(e)
        case Ok(result) => AnalystOutput(Some(result), None, "completed", None)
  }
}
