/**
 * The QC agent's verdict on a report: the model's QC block is turned into
 * a score from its letter grade and the severities of its issues, the pass
 * and revision flags are thresholds over that score, and issues of certain
 * types become clarification questions for the analyst.
 */
module Qc {
  import opened Wrappers
  import opened Json
  import opened PyStr
  import opened Fences
  import opened Agents

  /** A score of at least 8 passes. */
  const PassThreshold := 8
  /** A score below 5 needs a revision. */
  const RevisionThreshold := 5
  const MaxScore := 10

  /** Base score per upper-cased letter grade. */
  const GradeScores: map<string, int> := map["A" := 10, "B" := 8, "C" := 6, "D" := 4, "F" := 2]
  /** Base score of a grade outside the table. */
  const UnknownGradeScore := 6

  /** Issue types that ask the analyst for a clarification. */
  const ClarifyTypes: set<string> := {"missing_analysis", "unclear_reasoning", "data_mismatch"}

  const QuestionPrefix := "Please clarify: "

  /** `qc_json.get("quality_grade", "C")`. */
  function GradeValue(qc: Record): Json
  {
    GetOr(qc, "quality_grade", JStr("C"))
  }

  /** `qc_json.get("qc_issues", [])`. */
  function IssuesValue(qc: Record): Json
  {
    GetOr(qc, "qc_issues", JArr([]))
  }

  /** The base score of an upper-cased grade. */
  function GradeBase(grade: string): (r: int)
    ensures 2 <= r <= MaxScore && r % 2 == 0
    ensures grade !in GradeScores ==> r == UnknownGradeScore
  {
    if grade in GradeScores then GradeScores[grade] else UnknownGradeScore
  }

  /**
   * The issues of a list, each of which must be a dict for `.get`: the
   * first that is not raises `AttributeError`.
   */
  function Objects(items: seq<Json>): (r: Result<seq<Record>, string>)
    ensures r.Ok? <==> forall i :: 0 <= i < |items| ==> items[i].JObj?
    ensures r.Ok? ==> |r.value| == |items| && forall i :: 0 <= i < |items| ==> items[i] == JObj(r.value[i])
    ensures r.Err? ==> exists i :: 0 <= i < |items| && r.error == AttrError(items[i], "get")
  {
    if |items| == 0 then Ok([])
    else if !items[0].JObj? then Err(AttrError(items[0], "get"))
    else
      match Objects(items[1..])
      case Err(e) => Err(e)
      case Ok(rest) =>
        assert forall i :: 1 <= i < |items| ==> items[i] == items[1..][i - 1];
        Ok([items[0].fields] + rest)
  }

  /**
   * Iterating over the issues value and calling `.get` on each element: a
   * list yields its elements; a non-empty string or dict yields strings,
   * which have no `.get`; any other value is not iterable.
   */
  function IssueRecords(issues: Json): (r: Result<seq<Record>, string>)
    ensures issues.JArr? ==> r == Objects(issues.items)
    ensures r.Ok? && !issues.JArr? ==> r.value == []
    ensures issues.JStr? || issues.JObj? ==> (r.Ok? <==> !Truthy(issues))
    ensures issues.JNull? || issues.JBool? || issues.JNum? ==> r == Err(NotIterable(issues))
  {
    match issues
    case JArr(items) => Objects(items)
    case JStr(s) => if |s| == 0 then Ok([]) else Err(AttrError(JStr(s[..1]), "get"))
    case JObj(m) => if |m| == 0 then Ok([]) else Err(AttrError(JStr(""), "get"))
    case _ => Err(NotIterable(issues))
  }

  /** `issue.get("severity") == severity`. */
  predicate HasSeverity(issue: Record, severity: string)
  {
    GetOr(issue, "severity", JNull) == JStr(severity)
  }

  /** The number of issues of exactly this severity. */
  function CountSeverity(issues: seq<Record>, severity: string): (r: nat)
    ensures r <= |issues|
    ensures r == 0 <==> forall i :: 0 <= i < |issues| ==> !HasSeverity(issues[i], severity)
  {
    if |issues| == 0 then 0
    else
      var rest := CountSeverity(issues[1..], severity);
      assert forall i :: 1 <= i < |issues| ==> issues[i] == issues[1..][i - 1];
      (if HasSeverity(issues[0], severity) then 1 else 0) + rest
  }

  /** `max(0, min(10, x))`. */
  function Clamp(x: int): (r: int)
    ensures 0 <= r <= MaxScore
    ensures 0 <= x <= MaxScore ==> r == x
  {
    if x < 0 then 0 else if x > MaxScore then MaxScore else x
  }

  /** The grade's base score less two per critical and one per major issue, clamped to 0..10. */
  function Score(base: int, issues: seq<Record>): (r: int)
    ensures 0 <= r <= MaxScore
    ensures 0 <= base <= MaxScore
      && (forall i :: 0 <= i < |issues| ==> !HasSeverity(issues[i], "critical") && !HasSeverity(issues[i], "major"))
      ==> r == base
  {
    Clamp(base - 2 * CountSeverity(issues, "critical") - CountSeverity(issues, "major"))
  }

  /**
   * `_calculate_score`: the QC value must be a dict, its grade a string and
   * its issues dicts; the grade is upper-cased before lookup.
   */
  function CalculateScore(qcJson: Json): (r: Result<int, string>)
    ensures r.Ok? ==> 0 <= r.value <= MaxScore
    ensures !qcJson.JObj? ==> r == Err(AttrError(qcJson, "get"))
    ensures qcJson.JObj? && !GradeValue(qcJson.fields).JStr? ==> r == Err(AttrError(GradeValue(qcJson.fields), "upper"))
    ensures r.Ok? <==>
      qcJson.JObj? && GradeValue(qcJson.fields).JStr? && IssueRecords(IssuesValue(qcJson.fields)).Ok?
    ensures r.Ok? ==>
      r.value == Score(GradeBase(UpperAscii(GradeValue(qcJson.fields).s)), IssueRecords(IssuesValue(qcJson.fields)).value)
  {
    if !qcJson.JObj? then Err(AttrError(qcJson, "get"))
    else
      var grade := GradeValue(qcJson.fields);
      if !grade.JStr? then Err(AttrError(grade, "upper"))
      else
        match IssueRecords(IssuesValue(qcJson.fields))
        case Err(e) => Err(e)
        case Ok(issues) => Ok(Score(GradeBase(UpperAscii(grade.s)), issues))
  }

  /** Severity counts add up over a concatenation of issue lists. */
  lemma {:induction false} CountAppend(xs: seq<Record>, ys: seq<Record>, severity: string)
    ensures CountSeverity(xs + ys, severity) == CountSeverity(xs, severity) + CountSeverity(ys, severity)
  {
    if |xs| == 0 {
      assert xs + ys == ys;
    } else {
      assert (xs + ys)[1..] == xs[1..] + ys;
      CountAppend(xs[1..], ys, severity);
    }
  }

  /** Adding a critical or major issue anywhere in the list never raises the score. */
  lemma SeriousIssueNeverRaises(base: int, xs: seq<Record>, issue: Record, ys: seq<Record>)
    requires HasSeverity(issue, "critical") || HasSeverity(issue, "major")
    ensures Score(base, xs + [issue] + ys) <= Score(base, xs + ys)
  {
    CountAppend(xs, [issue], "critical");
    CountAppend(xs + [issue], ys, "critical");
    CountAppend(xs, ys, "critical");
    CountAppend(xs, [issue], "major");
    CountAppend(xs + [issue], ys, "major");
    CountAppend(xs, ys, "major");
    assert CountSeverity([issue], "critical") == (if HasSeverity(issue, "critical") then 1 else 0);
    assert CountSeverity([issue], "major") == (if HasSeverity(issue, "major") then 1 else 0);
  }

  /** An issue that is neither critical nor major (a "minor" one, say) leaves the score unchanged. */
  lemma OtherIssueKeepsScore(base: int, xs: seq<Record>, issue: Record, ys: seq<Record>)
    requires !HasSeverity(issue, "critical") && !HasSeverity(issue, "major")
    ensures Score(base, xs + [issue] + ys) == Score(base, xs + ys)
  {
    CountAppend(xs, [issue], "critical");
    CountAppend(xs + [issue], ys, "critical");
    CountAppend(xs, ys, "critical");
    CountAppend(xs, [issue], "major");
    CountAppend(xs + [issue], ys, "major");
    CountAppend(xs, ys, "major");
    assert CountSeverity([issue], "critical") == 0;
    assert CountSeverity([issue], "major") == 0;
  }

  /** Grades are case-insensitive: with no issues, a grade "b" scores as "B" does, 8. */
  lemma LowerCaseGrade(qc: Record)
    requires "qc_issues" !in qc
    ensures CalculateScore(JObj(qc["quality_grade" := JStr("b")])) == Ok(8)
  {
    var q := qc["quality_grade" := JStr("b")];
    assert GradeValue(q) == JStr("b");
    assert IssuesValue(q) == JArr([]);
    assert UpperAscii("b") == "B";
  }

  /** A missing grade counts as "C": with no issues the score is 6. */
  lemma MissingGrade(qc: Record)
    requires "qc_issues" !in qc && "quality_grade" !in qc
    ensures CalculateScore(JObj(qc)) == Ok(UnknownGradeScore)
  {
    assert UpperAscii("C") == "C";
  }

  /** With no issues, a grade listed in the table once upper-cased scores its table entry. */
  lemma ListedGrade(qc: Record, grade: string)
    requires "qc_issues" !in qc && UpperAscii(grade) in GradeScores
    ensures CalculateScore(JObj(qc["quality_grade" := JStr(grade)])) == Ok(GradeScores[UpperAscii(grade)])
  {
    var q := qc["quality_grade" := JStr(grade)];
    assert GradeValue(q) == JStr(grade);
    assert IssuesValue(q) == JArr([]);
  }

  /** With no issues, any grade outside the table once upper-cased counts 6. */
  lemma UnknownGrade(qc: Record, grade: string)
    requires "qc_issues" !in qc && UpperAscii(grade) !in GradeScores
    ensures CalculateScore(JObj(qc["quality_grade" := JStr(grade)])) == Ok(UnknownGradeScore)
  {
    var q := qc["quality_grade" := JStr(grade)];
    assert GradeValue(q) == JStr(grade);
    assert IssuesValue(q) == JArr([]);
  }

  /** `issue.get("type", "")` names one of the clarification types. */
  predicate AsksClarification(issue: Record)
  {
    var t := GetOr(issue, "type", JStr(""));
    t.JStr? && t.s in ClarifyTypes
  }

  /** The question for one issue: its description, else its issue text, else "". */
  function Question(issue: Record, show: Json -> string): (r: string)
    ensures StartsWith(r, QuestionPrefix)
    ensures "description" in issue ==> r == QuestionPrefix + StrOf(issue["description"], show)
    ensures "description" !in issue && "issue" in issue ==> r == QuestionPrefix + StrOf(issue["issue"], show)
    ensures "description" !in issue && "issue" !in issue ==> r == QuestionPrefix
  {
    QuestionPrefix + StrOf(GetOr(issue, "description", GetOr(issue, "issue", JStr(""))), show)
  }

  /** One question per issue of a clarification type, in issue order. */
  function ClarificationQuestions(issues: seq<Record>, show: Json -> string): (r: seq<string>)
    ensures |r| <= |issues|
    ensures forall k :: 0 <= k < |r| ==> StartsWith(r[k], QuestionPrefix)
  {
    if |issues| == 0 then []
    else
      var rest := ClarificationQuestions(issues[1..], show);
      (if AsksClarification(issues[0]) then [Question(issues[0], show)] else []) + rest
  }

  /** No question is asked exactly when no issue is of a clarification type. */
  lemma {:induction false} NoQuestionsIff(issues: seq<Record>, show: Json -> string)
    ensures |ClarificationQuestions(issues, show)| == 0 <==> forall i :: 0 <= i < |issues| ==> !AsksClarification(issues[i])
  {
    if |issues| > 0 {
      NoQuestionsIff(issues[1..], show);
      assert forall i :: 1 <= i < |issues| ==> issues[i] == issues[1..][i - 1];
    }
  }

  /** A single issue yields its question exactly when it is of a clarification type. */
  lemma QuestionsOfOne(issue: Record, show: Json -> string)
    ensures ClarificationQuestions([issue], show) == (if AsksClarification(issue) then [Question(issue, show)] else [])
  {
    assert [issue][1..] == [];
  }

  /**
   * Every question comes from an issue of a clarification type, and every
   * such issue has its question among them.
   */
  lemma {:induction false} QuestionsFromClarifyingIssues(issues: seq<Record>, show: Json -> string)
    ensures forall q :: q in ClarificationQuestions(issues, show) ==>
      exists i :: 0 <= i < |issues| && AsksClarification(issues[i]) && q == Question(issues[i], show)
    ensures forall i :: 0 <= i < |issues| && AsksClarification(issues[i]) ==>
      Question(issues[i], show) in ClarificationQuestions(issues, show)
  {
    if |issues| > 0 {
      var rest := issues[1..];
      QuestionsFromClarifyingIssues(rest, show);
      forall q | q in ClarificationQuestions(rest, show)
        ensures exists i :: 0 <= i < |issues| && AsksClarification(issues[i]) && q == Question(issues[i], show)
      {
        var j :| 0 <= j < |rest| && AsksClarification(rest[j]) && q == Question(rest[j], show);
        assert issues[j + 1] == rest[j];
      }
      forall i | 1 <= i < |issues| && AsksClarification(issues[i])
        ensures Question(issues[i], show) in ClarificationQuestions(issues, show)
      {
        assert issues[i] == rest[i - 1];
      }
    }
  }

  /** The questions of a concatenation are the questions of its parts, in order. */
  lemma {:induction false} QuestionsAppend(xs: seq<Record>, ys: seq<Record>, show: Json -> string)
    ensures ClarificationQuestions(xs + ys, show) == ClarificationQuestions(xs, show) + ClarificationQuestions(ys, show)
  {
    if |xs| == 0 {
      assert xs + ys == ys;
    } else {
      var head := if AsksClarification(xs[0]) then [Question(xs[0], show)] else [];
      assert (xs + ys)[0] == xs[0] && (xs + ys)[1..] == xs[1..] + ys;
      QuestionsAppend(xs[1..], ys, show);
      assert ClarificationQuestions(xs + ys, show) == head + ClarificationQuestions(xs[1..] + ys, show);
      assert ClarificationQuestions(xs, show) == head + ClarificationQuestions(xs[1..], show);
    }
  }

  /** `_identify_clarification_needs`: the loop that collects the questions. */
  method IdentifyClarificationNeeds(issues: seq<Record>, show: Json -> string) returns (questions: seq<string>)
    ensures questions == ClarificationQuestions(issues, show)
  {
    questions := [];
    var i := 0;
    while i < |issues|
      invariant 0 <= i <= |issues|
      invariant questions == ClarificationQuestions(issues[..i], show)
    {
      QuestionsAppend(issues[..i], [issues[i]], show);
      assert issues[..i + 1] == issues[..i] + [issues[i]];
      if AsksClarification(issues[i]) {
        questions := questions + [Question(issues[i], show)];
      }
      i := i + 1;
    }
    assert issues[..|issues|] == issues;
  }

  /**
   * `_parse_qc_response`: the QC value decoded from the first ```json block
   * ({} when there is none or it does not decode) and the corrected report.
   */
  function ParseQcResponse(decode: string -> Result<Json, string>, text: string): (r: (Json, string))
    ensures QcJsonText(text).None? ==> r.0 == EmptyObj
    ensures QcJsonText(text).Some? && decode(QcJsonText(text).value).Err? ==> r.0 == EmptyObj
    ensures QcJsonText(text).Some? && decode(QcJsonText(text).value).Ok? ==> r.0 == decode(QcJsonText(text).value).value
    ensures r.1 == QcCorrectedReport(text) && IsStripped(r.1)
  {
    var qc :=
      match QcJsonText(text)
      case None => EmptyObj
      case Some(t) => (match decode(t) case Ok(v) => v case Err(_) => EmptyObj);
    (qc, QcCorrectedReport(text))
  }

  /** The keys of `process`'s input; a missing key takes its default. */
  datatype QcInput = QcInput(report: Option<string>, extraction: Option<Record>, forensic: Option<Record>)

  /** The dict `process` returns. */
  datatype QcOutput = QcOutput(
    qcResult: Record,
    correctedReport: string,
    score: int,
    passed: bool,
    needsRevision: bool,
    needsClarification: bool,
    questions: seq<string>,
    status: string,
    error: Option<string>)

  /** The `except` branch of `process`: nothing passes and the input report is kept. */
  function QcFailure(report: string, message: string): (r: QcOutput)
    ensures r.status == "failed" && r.error == Some(message)
    ensures r.score == 0 && !r.passed && r.needsRevision && !r.needsClarification && r.questions == []
    ensures r.correctedReport == report && r.qcResult == map[]
  {
    QcOutput(map[], report, 0, false, true, false, [], "failed", Some(message))
  }

  /** What `process` returns: `verify` on success, the failure shape on any exception. */
  function QcOutcome(env: AgentEnv, input: QcInput, step: nat): (r: QcOutput)
    ensures r.status == "completed" || r.status == "failed"
    ensures !(r.passed && r.needsRevision)
    ensures r.status == "failed" ==> r.error.Some? && r == QcFailure(input.report.GetOr(""), r.error.value)
    ensures r.status == "completed" ==>
      && r.error.None?
      && 0 <= r.score <= MaxScore
      && (r.passed <==> r.score >= PassThreshold)
      && (r.needsRevision <==> r.score < RevisionThreshold)
      && (r.needsClarification <==> |r.questions| > 0)
    ensures
      var request := VerifyRequest(input.report.GetOr(""), input.extraction.GetOr(map[]), input.forensic.GetOr(map[]));
      match env.invoke(request, step)
      case Err(e) => r == QcFailure(input.report.GetOr(""), e)
      case Ok(response) =>
        var (qcJson, corrected) := ParseQcResponse(env.decode, response);
        (r.status == "failed" <==> CalculateScore(qcJson).Err?)
        && (r.status == "completed" ==>
              && r.qcResult == qcJson.fields
              && r.score == CalculateScore(qcJson).value
              && r.correctedReport == (if corrected != "" then corrected else input.report.GetOr(""))
              && r.questions == ClarificationQuestions(IssueRecords(IssuesValue(qcJson.fields)).value, env.show))
  {
    var report := input.report.GetOr("");
    var request := VerifyRequest(report, input.extraction.GetOr(map[]), input.forensic.GetOr(map[]));
    match env.invoke(request, step)
    case Err(e) => QcFailure(report, e)
    case Ok(response) =>
      var (qcJson, corrected) := ParseQcResponse(env.decode, response);
      match CalculateScore(qcJson)
      case Err(e) => QcFailure(report, e)
      case Ok(score) =>
        var questions := ClarificationQuestions(IssueRecords(IssuesValue(qcJson.fields)).value, env.show);
        QcOutput(qcJson.fields, if corrected != "" then corrected else report, score,
                 score >= PassThreshold, score < RevisionThreshold, |questions| > 0, questions, "completed", None)
  }

  /** `process`, collecting the questions with the loop of `_identify_clarification_needs`. */
  method QcProcess(env: AgentEnv, input: QcInput, step: nat) returns (r: QcOutput)
    ensures r == QcOutcome(env, input, step)
  {
    var report := input.report.GetOr("");
    var request := VerifyRequest(report, input.extraction.GetOr(map[]), input.forensic.GetOr(map[]));
    var reply := env.invoke(request, step);
    if reply.Err? {
      return QcFailure(report, reply.error);
    }
    var (qcJson, corrected) := ParseQcResponse(env.decode, reply.value);
    var score := CalculateScore(qcJson);
    if score.Err? {
      return QcFailure(report, score.error);
    }
    var questions := IdentifyClarificationNeeds(IssueRecords(IssuesValue(qcJson.fields)).value, env.show);
    r := QcOutput(qcJson.fields, if corrected != "" then corrected else report, score.value,
                  score.value >= PassThreshold, score.value < RevisionThreshold, |questions| > 0, questions,
                  "completed", None);
  }
}
