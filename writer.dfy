/**
 * The writer agent: generates a report from the extraction and forensic
 * analysis, or revises one against the QC issues, and strips the markdown
 * fences from the model's reply.
 */
module Writer {
  import opened Wrappers
  import opened Json
  import opened PyStr
  import opened Fences
  import opened Agents
  import opened Qc

  /** The revision prompt's line for one issue: its "issue" field, else the whole issue. */
  function IssueLine(issue: Record, show: Json -> string): (r: string)
    ensures StartsWith(r, "- ")
    ensures "issue" in issue && issue["issue"].JStr? ==> r == "- " + issue["issue"].s
  {
    "- " + StrOf(GetOr(issue, "issue", JObj(issue)), show)
  }

  /** `"\n".join(lines)`. */
  function JoinLines(lines: seq<string>): string
  {
    if |lines| == 0 then ""
    else if |lines| == 1 then lines[0]
    else lines[0] + "\n" + JoinLines(lines[1..])
  }

  /** Joining two non-empty runs of lines is joining each and putting one newline between them. */
  lemma {:induction false} JoinLinesAppend(xs: seq<string>, ys: seq<string>)
    requires |xs| > 0 && |ys| > 0
    ensures JoinLines(xs + ys) == JoinLines(xs) + "\n" + JoinLines(ys)
    decreases |xs|
  {
    assert (xs + ys)[0] == xs[0];
    if |xs| == 1 {
      assert (xs + ys)[1..] == ys;
    } else {
      assert (xs + ys)[1..] == xs[1..] + ys;
      JoinLinesAppend(xs[1..], ys);
      var a, b, c := JoinLines(xs[1..]), JoinLines(ys), xs[0];
      assert c + "\n" + (a + "\n" + b) == (c + "\n" + a) + "\n" + b;
    }
  }

  /** One line per issue, in issue order. */
  function IssueLines(issues: seq<Record>, show: Json -> string): (r: seq<string>)
    ensures |r| == |issues|
    ensures forall i :: 0 <= i < |issues| ==> r[i] == IssueLine(issues[i], show)
  {
    seq(|issues|, i requires 0 <= i < |issues| => IssueLine(issues[i], show))
  }

  /**
   * The issue list of the revision prompt: `qc_issues` must have a length
   * (for the log) and iterate to dicts; the lines are joined by newlines.
   */
  function IssuesText(feedback: Record, show: Json -> string): (r: Result<string, string>)
    ensures LenError(IssuesValue(feedback)).Some? ==> r == Err(LenError(IssuesValue(feedback)).value)
    ensures r.Ok? <==> LenError(IssuesValue(feedback)).None? && IssueRecords(IssuesValue(feedback)).Ok?
    ensures r.Ok? ==> r.value == JoinLines(IssueLines(IssueRecords(IssuesValue(feedback)).value, show))
  {
    var issues := IssuesValue(feedback);
    match LenError(issues)
    case Some(e) => Err(e)
    case None =>
      match IssueRecords(issues)
      case Err(e) => Err(e)
      case Ok(records) => Ok(JoinLines(IssueLines(records, show)))
  }

  /** The keys of `process`'s input; a missing key is None. */
  datatype WriterInput = WriterInput(
    extraction: Option<Record>,
    forensic: Option<Record>,
    mode: Option<string>,
    originalReport: Option<string>,
    feedback: Option<Record>)

  /** The dict `process` returns. */
  datatype WriterOutput = WriterOutput(report: string, status: string, error: Option<string>)

  /** What the writer asks the model: a revision in mode "revise", a fresh report in any other mode. */
  function WriterRequest(input: WriterInput, show: Json -> string): (r: Result<AgentRequest, string>)
    ensures input.mode != Some("revise") ==>
      r == Ok(GenerateRequest(input.extraction.GetOr(map[]), input.forensic.GetOr(map[])))
    ensures input.mode == Some("revise") ==>
      (r.Ok? <==> IssuesText(input.feedback.GetOr(map[]), show).Ok?)
      && (r.Ok? ==> r.value == ReviseRequest(input.originalReport.GetOr(""),
                                             IssuesText(input.feedback.GetOr(map[]), show).value,
                                             input.extraction.GetOr(map[]), input.forensic.GetOr(map[])))
  {
    var extraction := input.extraction.GetOr(map[]);
    var forensic := input.forensic.GetOr(map[]);
    if input.mode == Some("revise") then
      match IssuesText(input.feedback.GetOr(map[]), show)
      case Err(e) => Err(e)
      case Ok(text) => Ok(ReviseRequest(input.originalReport.GetOr(""), text, extraction, forensic))
    else Ok(GenerateRequest(extraction, forensic))
  }

  /** `process`: the cleaned reply, or an empty report with the error. */
  function WriterProcess(env: AgentEnv, input: WriterInput, step: nat): (r: WriterOutput)
    ensures r.status == "completed" || r.status == "failed"
    ensures r.status == "failed" ==> r.report == "" && r.error.Some?
    ensures r.status == "completed" ==> r.error.None? && IsStripped(r.report)
    ensures r.status == "completed" <==>
      WriterRequest(input, env.show).Ok? && env.invoke(WriterRequest(input, env.show).value, step).Ok?
    ensures r.status == "completed" ==>
      r.report == CleanMarkdown(env.invoke(WriterRequest(input, env.show).value, step).value)
  {
    match WriterRequest(input, env.show)
    case Err(e) => WriterOutput("", "failed", Some(e))
    case Ok(request) =>
      match env.invoke(request, step)
      case Err(e) => WriterOutput("", "failed", Some(e))
      case Ok(text) => WriterOutput(CleanMarkdown(text), "completed", None)
  }

  /** Two issues give two lines, in order, each naming its issue text. */
  lemma TwoIssueLines(first: string, second: string, show: Json -> string)
    ensures
      var feedback := map["qc_issues" := JArr([JObj(map["issue" := JStr(first)]), JObj(map["issue" := JStr(second)])])];
      IssuesText(feedback, show) == Ok("- " + first + "\n" + "- " + second)
  {
    var i1: Record := map["issue" := JStr(first)];
    var i2: Record := map["issue" := JStr(second)];
    var feedback := map["qc_issues" := JArr([JObj(i1), JObj(i2)])];
    assert IssuesValue(feedback) == JArr([JObj(i1), JObj(i2)]);
    var items := [JObj(i1), JObj(i2)];
    assert items[0].JObj? && items[1].JObj?;
    var records := Objects(items).value;
    assert items[0] == JObj(records[0]) && items[1] == JObj(records[1]);
    assert records == [i1, i2];
    assert IssueRecords(IssuesValue(feedback)) == Ok([i1, i2]);
    var lines := IssueLines([i1, i2], show);
    assert lines[0] == "- " + first && lines[1] == "- " + second;
    assert JoinLines(lines[1..]) == lines[1];
    assert JoinLines(lines) == lines[0] + "\n" + lines[1];
    assert IssuesText(feedback, show) == Ok(JoinLines(lines));
    assert ("- " + first) + "\n" + ("- " + second) == "- " + first + "\n" + "- " + second;
  }
}
