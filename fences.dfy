/**
 * Recovering the payload of a model response from markdown code fences:
 * the JSON parser shared by the Gemini client and the extractor and analyst
 * agents, the markdown cleaner used for Stage 3, the search-intelligence
 * report and the writer agent, the Stage 4 splitter, and the QC agent's
 * response parser.
 */
module Fences {
  import opened PyStr
  import opened Wrappers

  const Fence := "```"
  const JsonFence := "```json"
  const MarkdownFence := "```markdown"
  const QcMarker := "QC_JSON_OUTPUT"
  const FinalReportMarker := "FINAL_REPORT_OUTPUT"

  /**
   * The text handed to `json.loads`: the inside of the first ```json fence,
   * else of the first plain fence, stripped; an unfenced text is kept whole.
   * A fence with no closing fence runs to one character before the end,
   * because `find` then returns -1 and `text[start:-1]` drops the last character.
   */
  function ExtractJsonText(text: string): (r: string)
    ensures !Contains(text, Fence) ==> r == text
    ensures Contains(text, Fence) ==> IsStripped(r) && |r| <= |text|
  {
    JsonFenceIsFence(text);
    if Contains(text, JsonFence) then
      var start := Find(text, JsonFence) + 7;
      var end := FindFrom(text, Fence, start);
      Strip(Slice(text, start, end))
    else if Contains(text, Fence) then
      var start := Find(text, Fence) + 3;
      var end := FindFrom(text, Fence, start);
      Strip(Slice(text, start, end))
    else
      text
  }

  /**
   * A markdown reply with its surrounding whitespace, one leading ```markdown
   * (or plain ```) fence and one trailing ``` fence removed, stripped again.
   */
  function CleanMarkdown(text: string): (r: string)
    ensures IsStripped(r)
    ensures |r| <= |text|
  {
    Strip(DropClosingFence(DropOpeningFence(Strip(text))))
  }

  function DropOpeningFence(t: string): (r: string)
    ensures |r| <= |t|
  {
    if StartsWith(t, MarkdownFence) then t[11..]
    else if StartsWith(t, Fence) then t[3..]
    else t
  }

  function DropClosingFence(t: string): (r: string)
    ensures |r| <= |t|
  {
    if EndsWith(t, Fence) then t[..|t| - 3] else t
  }

  /** Where the Stage 4 QC JSON starts: after the first ```json fence following the QC marker. */
  function Stage4QcStart(text: string): int
  {
    FindFrom(text, JsonFence, Find(text, QcMarker)) + 7
  }

  /**
   * Where the Stage 4 report starts: after the ```markdown fence following
   * the final-report marker, or else on the line after the first fence there.
   */
  function Stage4ReportStart(text: string): int
  {
    var mdFence := FindFrom(text, MarkdownFence, Find(text, FinalReportMarker));
    if mdFence == -1 then
      FindFrom(text, "\n", FindFrom(text, Fence, Find(text, FinalReportMarker))) + 1
    else mdFence + 11
  }

  /**
   * The two parts of a Stage 4 reply: the stripped text between the first
   * ```json fence after the QC marker and the next fence, and the stripped
   * report between the ```markdown fence after the final-report marker (or
   * the line after the first fence there) and the last fence of the reply.
   */
  function SplitStage4(text: string): (r: (string, string))
    ensures IsStripped(r.0) && IsStripped(r.1)
  {
    var qcStart := Stage4QcStart(text);
    var qcText := Strip(Slice(text, qcStart, FindFrom(text, Fence, qcStart)));
    (qcText, Strip(Slice(text, Stage4ReportStart(text), RFind(text, Fence))))
  }

  /**
   * The text the QC agent hands to `json.loads`, if any: present only when
   * the reply mentions the QC marker or a ```json fence and has a ```json fence.
   */
  function QcJsonText(text: string): (r: Option<string>)
    ensures r.Some? <==> Contains(text, JsonFence)
    ensures r.Some? ==> IsStripped(r.value)
  {
    if Contains(text, QcMarker) || Contains(text, JsonFence) then
      var qcStart := Find(text, JsonFence);
      if qcStart != -1 then
        var qcEnd := FindFrom(text, Fence, qcStart + 7);
        Some(Strip(Slice(text, qcStart + 7, qcEnd)))
      else None
    else None
  }

  /**
   * The corrected report the QC agent recovers: after the final-report
   * marker, from the line following the next fence to the last fence;
   * without the marker, the last ```markdown block; "" when neither yields
   * a non-empty span.
   */
  function QcCorrectedReport(text: string): (r: string)
    ensures IsStripped(r)
    ensures !Contains(text, FinalReportMarker) && !Contains(text, MarkdownFence) ==> r == ""
  {
    if Contains(text, FinalReportMarker) then
      var marker := Find(text, FinalReportMarker);
      var reportStart := FindFrom(text, Fence, marker);
      if reportStart != -1 then
        var contentStart := FindFrom(text, "\n", reportStart) + 1;
        var reportEnd := RFind(text, Fence);
        if reportEnd > contentStart then Strip(Slice(text, contentStart, reportEnd)) else ""
      else ""
    else if Contains(text, MarkdownFence) then
      var start := RFind(text, MarkdownFence) + 11;
      var end := RFind(text, Fence);
      if end > start then Strip(Slice(text, start, end)) else ""
    else ""
  }

  // ---------------------------------------------------------------
  // Locating fences in texts of a known shape
  // ---------------------------------------------------------------

  /** Every occurrence of a non-empty pattern starts with its first character. */
  lemma OccursFirstChar(s: string, p: string)
    requires |p| > 0
    ensures forall i :: OccursAt(s, p, i) ==> s[i] == p[0]
  {
    forall i | OccursAt(s, p, i) ensures s[i] == p[0] {
      assert s[i..i + |p|][0] == s[i];
    }
  }

  /** Every occurrence of a non-empty pattern ends with its last character. */
  lemma OccursLastChar(s: string, p: string)
    requires |p| > 0
    ensures forall i :: OccursAt(s, p, i) ==> s[i + |p| - 1] == p[|p| - 1]
  {
    forall i | OccursAt(s, p, i) ensures s[i + |p| - 1] == p[|p| - 1] {
      assert s[i..i + |p|][|p| - 1] == s[i + |p| - 1];
    }
  }

  /** A pattern is found at `k` when it occurs there and no earlier position from `start` holds its first character. */
  lemma FindFromAt(s: string, p: string, start: int, k: int)
    requires |p| > 0 && 0 <= start <= k && OccursAt(s, p, k)
    requires forall j :: start <= j < k ==> s[j] != p[0]
    ensures FindFrom(s, p, start) == k
  {
    OccursFirstChar(s, p);
  }

  /** Nothing is found from `start` when no later position holds the pattern's first character. */
  lemma FindFromNone(s: string, p: string, start: int)
    requires |p| > 0 && 0 <= start
    requires forall j :: start <= j < |s| ==> s[j] != p[0]
    ensures FindFrom(s, p, start) == -1
  {
    OccursFirstChar(s, p);
  }

  /** A pattern is rfound at `k` when it occurs there and no later position holds its last character. */
  lemma RFindAt(s: string, p: string, k: int)
    requires |p| > 0 && OccursAt(s, p, k)
    requires forall j :: k + |p| <= j < |s| ==> s[j] != p[|p| - 1]
    ensures RFind(s, p) == k
  {
    OccursLastChar(s, p);
  }

  /** An occurrence in the right part of a concatenation, shifted by the left part's length. */
  lemma OccursShift(x: string, y: string, p: string, j: int)
    requires 0 <= j
    ensures OccursAt(x + y, p, |x| + j) <==> OccursAt(y, p, j)
  {
    if j + |p| <= |y| {
      assert (x + y)[|x| + j..|x| + j + |p|] == y[j..j + |p|];
    }
  }

  /** An occurrence that ends within the left part of a concatenation. */
  lemma OccursLeft(x: string, y: string, p: string, j: int)
    requires 0 <= j && j + |p| <= |x|
    ensures OccursAt(x + y, p, j) <==> OccursAt(x, p, j)
  {
    assert (x + y)[j..j + |p|] == x[j..j + |p|];
  }

  /** A search from `start` stops at the first occurrence from there. */
  lemma FindFromIs(s: string, p: string, start: int, k: int)
    requires 0 <= start <= k && OccursAt(s, p, k)
    requires forall j :: start <= j < k ==> !OccursAt(s, p, j)
    ensures FindFrom(s, p, start) == k
  {
  }

  /** A search from `start` finds nothing when nothing occurs from there. */
  lemma FindFromNoneIf(s: string, p: string, start: int)
    requires 0 <= start
    requires forall j :: start <= j ==> !OccursAt(s, p, j)
    ensures FindFrom(s, p, start) == -1
  {
  }

  /**
   * Searching past a left part that holds no first character of the pattern
   * from `start` on is searching the right part, shifted.
   */
  lemma FindPast(x: string, y: string, p: string, start: int)
    requires |p| > 0 && 0 <= start
    requires forall j :: start <= j < |x| ==> x[j] != p[0]
    ensures
      var k := FindFrom(y, p, if start <= |x| then 0 else start - |x|);
      FindFrom(x + y, p, start) == if k == -1 then -1 else |x| + k
  {
    var s := x + y;
    var d := if start <= |x| then 0 else start - |x|;
    var k := FindFrom(y, p, d);
    assert FindStart(y, d) == d;
    OccursFirstChar(s, p);
    forall j | start <= j < |x| ensures !OccursAt(s, p, j) {
      assert s[j] == x[j];
    }
    if k != -1 {
      OccursShift(x, y, p, k);
      forall j | start <= j < |x| + k ensures !OccursAt(s, p, j) {
        if j >= |x| {
          OccursShift(x, y, p, j - |x|);
        }
      }
      FindFromIs(s, p, start, |x| + k);
    } else {
      forall j | start <= j ensures !OccursAt(s, p, j) {
        if j >= |x| {
          OccursShift(x, y, p, j - |x|);
        }
      }
      FindFromNoneIf(s, p, start);
    }
  }

  /** A pattern found in the left part of a concatenation is found there in the whole. */
  lemma FindWithin(x: string, y: string, p: string, start: int)
    requires |p| > 0 && 0 <= start && FindFrom(x, p, start) != -1
    ensures FindFrom(x + y, p, start) == FindFrom(x, p, start)
  {
    var k := FindFrom(x, p, start);
    OccursLeft(x, y, p, k);
    forall j | start <= j < k ensures !OccursAt(x + y, p, j) {
      OccursLeft(x, y, p, j);
    }
  }

  /** A text that opens with a pattern has it at position 0. */
  lemma FindHead(p: string, y: string)
    requires |p| > 0
    ensures FindFrom(p + y, p, 0) == 0
  {
    assert (p + y)[0..|p|] == p;
    FindFromAt(p + y, p, 0, 0);
  }

  /** A slice of a concatenation's right part, shifted by the left part's length. */
  lemma SliceRight(x: string, y: string, i: int, j: int)
    requires 0 <= i <= j <= |y|
    ensures (x + y)[|x| + i..|x| + j] == y[i..j]
  {
  }

  /** A text that is already stripped is its own `strip()`. */
  lemma StripStripped(t: string)
    requires IsStripped(t)
    ensures Strip(t) == t
  {
    StripPadded("", t, "");
    assert "" + t + "" == t;
  }

  /** An occurrence of a pattern is an occurrence of each of its prefixes. */
  lemma OccursPrefix(s: string, p: string, q: string, i: int)
    requires OccursAt(s, p + q, i)
    ensures OccursAt(s, p, i)
  {
    assert s[i..i + |p|] == (p + q)[..|p|];
  }

  /** A ```json fence is also a plain fence, so a text with no fence has no ```json fence. */
  lemma JsonFenceIsFence(text: string)
    ensures Contains(text, JsonFence) ==> Contains(text, Fence)
  {
    if Contains(text, JsonFence) {
      assert JsonFence == Fence + "json";
      OccursPrefix(text, Fence, "json", Find(text, JsonFence));
    }
  }

  // ---------------------------------------------------------------
  // Round trips
  // ---------------------------------------------------------------

  /**
   * In backtick-free prose, an opening fence, a backtick-free payload and a
   * closing fence: the opening fence is found first, the closing one next,
   * and between them lies the payload.
   */
  lemma FencedLayout(prefix: string, open: string, payload: string, suffix: string)
    requires NoChar(prefix, '`') && NoChar(payload, '`') && |open| > 0 && open[0] == '`'
    ensures
      var text := prefix + open + payload + Fence + suffix;
      var f2 := |prefix| + |open| + |payload|;
      && FindFrom(text, open, 0) == |prefix|
      && FindFrom(text, Fence, |prefix| + |open|) == f2
      && text[|prefix| + |open|..f2] == payload
  {
    var text := prefix + open + payload + Fence + suffix;
    var f1 := |prefix|;
    var p1 := f1 + |open|;
    var f2 := p1 + |payload|;
    assert FindFrom(text, open, 0) == f1 by {
      assert forall j :: 0 <= j < f1 ==> text[j] == prefix[j];
      assert text[f1..p1] == open;
      FindFromAt(text, open, 0, f1);
    }
    assert FindFrom(text, Fence, p1) == f2 by {
      assert forall j :: p1 <= j < f2 ==> text[j] == payload[j - p1];
      assert text[f2..f2 + 3] == Fence;
      FindFromAt(text, Fence, p1, f2);
    }
    assert text[p1..f2] == payload;
  }

  /** A JSON payload wrapped in a ```json fence after backtick-free prose is recovered, stripped. */
  lemma JsonFenceRoundTrip(prefix: string, payload: string, suffix: string)
    requires NoChar(prefix, '`') && NoChar(payload, '`')
    ensures ExtractJsonText(prefix + JsonFence + payload + Fence + suffix) == Strip(payload)
  {
    var text := prefix + JsonFence + payload + Fence + suffix;
    FencedLayout(prefix, JsonFence, payload, suffix);
    assert |JsonFence| == 7;
    var start, end := |prefix| + 7, |prefix| + 7 + |payload|;
    assert Find(text, JsonFence) + 7 == start && FindFrom(text, Fence, start) == end;
    assert Slice(text, start, end) == payload;
  }

  /** The QC agent's ```json payload comes back stripped. */
  lemma QcJsonTextRoundTrip(prefix: string, payload: string, suffix: string)
    requires NoChar(prefix, '`') && NoChar(payload, '`')
    ensures QcJsonText(prefix + JsonFence + payload + Fence + suffix) == Some(Strip(payload))
  {
    var text := prefix + JsonFence + payload + Fence + suffix;
    FencedLayout(prefix, JsonFence, payload, suffix);
    assert |JsonFence| == 7;
    var start, end := |prefix| + 7, |prefix| + 7 + |payload|;
    assert Find(text, JsonFence) + 7 == start && FindFrom(text, Fence, start) == end;
    assert Slice(text, start, end) == payload;
  }

  /** A payload in a plain fence is recovered when the reply has no ```json fence anywhere. */
  lemma PlainFenceRoundTrip(prefix: string, payload: string, suffix: string)
    requires NoChar(prefix, '`') && NoChar(payload, '`')
    requires !Contains(prefix + Fence + payload + Fence + suffix, JsonFence)
    ensures ExtractJsonText(prefix + Fence + payload + Fence + suffix) == Strip(payload)
  {
    var text := prefix + Fence + payload + Fence + suffix;
    FencedLayout(prefix, Fence, payload, suffix);
    assert |Fence| == 3;
    var start, end := |prefix| + 3, |prefix| + 3 + |payload|;
    assert Find(text, Fence) + 3 == start && FindFrom(text, Fence, start) == end;
    assert Slice(text, start, end) == payload;
  }

  /**
   * Layout of a reply whose opening fence is never closed: the opening fence
   * is found after backtick-free prose, no closing fence follows it, and
   * what follows it is the rest of the reply.
   */
  lemma UnclosedLayout(prefix: string, open: string, rest: string)
    requires NoChar(prefix, '`') && NoChar(rest, '`') && |open| > 0 && open[0] == '`'
    ensures
      var text := prefix + open + rest;
      && FindFrom(text, open, 0) == |prefix|
      && FindFrom(text, Fence, |prefix| + |open|) == -1
      && text[|prefix| + |open|..] == rest
  {
    var text := prefix + open + rest;
    var f1 := |prefix|;
    var p1 := f1 + |open|;
    assert FindFrom(text, open, 0) == f1 by {
      assert forall j :: 0 <= j < f1 ==> text[j] == prefix[j];
      assert text[f1..p1] == open;
      FindFromAt(text, open, 0, f1);
    }
    assert FindFrom(text, Fence, p1) == -1 by {
      assert forall j :: p1 <= j < |text| ==> text[j] == rest[j - p1];
      FindFromNone(text, Fence, p1);
    }
    assert text[p1..] == rest;
  }

  /** A ```json fence that is never closed yields everything after it except the reply's last character. */
  lemma UnclosedJsonFence(prefix: string, rest: string)
    requires NoChar(prefix, '`') && NoChar(rest, '`') && |rest| > 0
    ensures ExtractJsonText(prefix + JsonFence + rest) == Strip(rest[..|rest| - 1])
  {
    var text := prefix + JsonFence + rest;
    UnclosedLayout(prefix, JsonFence, rest);
    assert |JsonFence| == 7;
    var start := |prefix| + 7;
    assert Find(text, JsonFence) + 7 == start && FindFrom(text, Fence, start) == -1;
    assert text[start..] == rest;
    assert Slice(text, start, -1) == rest[..|rest| - 1];
  }

  /** The QC part of a Stage 4 reply: the marker, some text, and the JSON in a ```json fence. */
  function QcSection(mid: string, qc: string): string
  {
    QcMarker + mid + JsonFence + qc + Fence
  }

  /** The report part of a Stage 4 reply: the marker, some text, and the report in a ```markdown fence. */
  function ReportSection(intro: string, body: string): string
  {
    FinalReportMarker + intro + MarkdownFence + body + Fence
  }

  /** A Stage 4 reply laid out as its prompt asks: prose, the QC part, more prose, the report part. */
  function Stage4Reply(prefix: string, mid: string, qc: string, between: string, intro: string, body: string): string
  {
    prefix + QcSection(mid, qc) + between + ReportSection(intro, body)
  }

  /** A concatenation lacks a character that both parts lack. */
  lemma NoCharJoin(a: string, b: string, c: char)
    requires NoChar(a, c) && NoChar(b, c)
    ensures NoChar(a + b, c)
  {
    forall i | 0 <= i < |a + b| ensures (a + b)[i] != c {
      if i >= |a| {
        assert (a + b)[i] == b[i - |a|];
      }
    }
  }

  /** A slice of a concatenation's left part. */
  lemma SliceLeft(x: string, y: string, i: int, j: int)
    requires 0 <= i <= j <= |x|
    ensures (x + y)[i..j] == x[i..j]
  {
  }

  /** Where the fences of the QC part are found, and what lies between them. */
  lemma QcSectionLayout(mid: string, qc: string)
    requires NoChar(mid, '`') && NoChar(qc, '`')
    ensures
      var q := QcSection(mid, qc);
      && |q| == 24 + |mid| + |qc|
      && FindFrom(q, QcMarker, 0) == 0
      && FindFrom(q, JsonFence, 0) == 14 + |mid|
      && FindFrom(q, Fence, 21 + |mid|) == 21 + |mid| + |qc|
      && q[21 + |mid|..21 + |mid| + |qc|] == qc
  {
    assert |QcMarker| == 14 && |JsonFence| == 7 && JsonFence[0] == '`';
    assert NoChar(QcMarker, '`') by { assert '`' !in QcMarker; }
    NoCharJoin(QcMarker, mid, '`');
    FencedLayout(QcMarker + mid, JsonFence, qc, []);
    var q := QcSection(mid, qc);
    assert q + [] == q;
    assert q[..14] == QcMarker;
    FindFromAt(q, QcMarker, 0, 0);
  }

  /** The QC part holds an "F" only where its pieces do. */
  lemma QcSectionHasNoF(mid: string, qc: string)
    requires NoChar(mid, 'F') && NoChar(qc, 'F')
    ensures NoChar(QcSection(mid, qc), 'F')
  {
    assert NoChar(QcMarker, 'F') by { assert 'F' !in QcMarker; }
    assert NoChar(JsonFence, 'F') by { assert 'F' !in JsonFence; }
    assert NoChar(Fence, 'F') by { assert 'F' !in Fence; }
    NoCharJoin(QcMarker, mid, 'F');
    NoCharJoin(QcMarker + mid, JsonFence, 'F');
    NoCharJoin(QcMarker + mid + JsonFence, qc, 'F');
    NoCharJoin(QcMarker + mid + JsonFence + qc, Fence, 'F');
  }

  /** Where the fences of the report part are found, and what lies between them. */
  lemma ReportSectionLayout(intro: string, body: string)
    requires NoChar(intro, '`')
    ensures
      var r := ReportSection(intro, body);
      && |r| == 33 + |intro| + |body|
      && FindFrom(r, FinalReportMarker, 0) == 0
      && FindFrom(r, MarkdownFence, 0) == 19 + |intro|
      && OccursAt(r, Fence, |r| - 3)
      && r[30 + |intro|..|r| - 3] == body
  {
    assert |FinalReportMarker| == 19 && |MarkdownFence| == 11 && MarkdownFence[0] == '`';
    assert NoChar(FinalReportMarker, '`') by { assert '`' !in FinalReportMarker; }
    NoCharJoin(FinalReportMarker, intro, '`');
    var r := ReportSection(intro, body);
    var head := FinalReportMarker + intro;
    var withOpen := head + MarkdownFence;
    var m := |head|;
    assert forall j :: 0 <= j < m ==> r[j] == head[j];
    SliceRight(head, MarkdownFence, 0, 11);
    SliceLeft(withOpen, body, m, m + 11);
    SliceLeft(withOpen + body, Fence, m, m + 11);
    FindFromAt(r, MarkdownFence, 0, m);
    assert r[..19] == FinalReportMarker;
    FindFromAt(r, FinalReportMarker, 0, 0);
    SliceRight(withOpen + body, Fence, 0, 3);
    SliceRight(withOpen, body, 0, |body|);
    SliceLeft(withOpen + body, Fence, m + 11, m + 11 + |body|);
  }

  /** The QC searches of `SplitStage4` land in the QC part, whatever follows it. */
  lemma QcPartFound(prefix: string, q: string, between: string, r: string, a: int, b: int)
    requires NoChar(prefix, 'Q') && QcMarker[0] == 'Q'
    requires 0 <= a && a + 7 <= b <= |q|
    requires FindFrom(q, QcMarker, 0) == 0 && FindFrom(q, JsonFence, 0) == a && FindFrom(q, Fence, a + 7) == b
    ensures
      var text := prefix + q + between + r;
      && Find(text, QcMarker) == |prefix|
      && FindFrom(text, JsonFence, |prefix|) == |prefix| + a
      && FindFrom(text, Fence, |prefix| + a + 7) == |prefix| + b
  {
    var w := prefix + q;
    var text := w + between + r;
    assert FindFrom(text, QcMarker, 0) == |prefix| by {
      FindPast(prefix, q, QcMarker, 0);
      FindWithinTwo(w, between, r, QcMarker, 0);
    }
    assert FindFrom(text, JsonFence, |prefix|) == |prefix| + a by {
      FindPast(prefix, q, JsonFence, |prefix|);
      FindWithinTwo(w, between, r, JsonFence, |prefix|);
    }
    assert FindFrom(text, Fence, |prefix| + a + 7) == |prefix| + b by {
      FindPast(prefix, q, Fence, |prefix| + a + 7);
      FindWithinTwo(w, between, r, Fence, |prefix| + a + 7);
    }
  }

  /** A pattern found in the first of three concatenated parts is found there in the whole. */
  lemma FindWithinTwo(w: string, between: string, r: string, p: string, start: int)
    requires |p| > 0 && 0 <= start && FindFrom(w, p, start) != -1
    ensures FindFrom(w + between + r, p, start) == FindFrom(w, p, start)
  {
    FindWithin(w, between, p, start);
    FindWithin(w + between, r, p, start);
  }

  /** A slice of the second of four concatenated parts. */
  lemma SliceSecond(prefix: string, q: string, between: string, r: string, i: int, j: int)
    requires 0 <= i <= j <= |q|
    ensures (prefix + q + between + r)[|prefix| + i..|prefix| + j] == q[i..j]
  {
    var w := prefix + q;
    SliceRight(prefix, q, i, j);
    SliceLeft(w, between, |prefix| + i, |prefix| + j);
    SliceLeft(w + between, r, |prefix| + i, |prefix| + j);
  }

  /** The report searches of `SplitStage4` land in the report part when nothing before it holds an "F". */
  lemma ReportPartFound(left: string, r: string, c: int)
    requires NoChar(left, 'F') && FinalReportMarker[0] == 'F'
    requires 0 <= c && c + 11 <= |r| - 3
    requires FindFrom(r, FinalReportMarker, 0) == 0 && FindFrom(r, MarkdownFence, 0) == c
    requires OccursAt(r, Fence, |r| - 3)
    ensures
      var text := left + r;
      && Find(text, FinalReportMarker) == |left|
      && FindFrom(text, MarkdownFence, |left|) == |left| + c
      && RFind(text, Fence) == |text| - 3
      && text[|left| + c + 11..|text| - 3] == r[c + 11..|r| - 3]
  {
    var text := left + r;
    assert FindFrom(text, FinalReportMarker, 0) == |left| by {
      FindPast(left, r, FinalReportMarker, 0);
    }
    assert FindFrom(text, MarkdownFence, |left|) == |left| + c by {
      FindPast(left, r, MarkdownFence, |left|);
    }
    assert RFind(text, Fence) == |text| - 3 by {
      OccursShift(left, r, Fence, |r| - 3);
      RFindAt(text, Fence, |text| - 3);
    }
    SliceRight(left, r, c + 11, |r| - 3);
  }

  /** The QC text `SplitStage4` cuts out, once the positions of its searches are known. */
  lemma QcCut(text: string, m: int, i: int, j: int, v: string)
    requires Find(text, QcMarker) == m && FindFrom(text, JsonFence, m) == i - 7 && FindFrom(text, Fence, i) == j
    requires Slice(text, i, j) == v
    ensures Slice(text, Stage4QcStart(text), FindFrom(text, Fence, Stage4QcStart(text))) == v
  {
  }

  /** With the report part's fences at `c` and its end, the report `SplitStage4` cuts out is what lies between them. */
  lemma ReportPartSlice(left: string, r: string, c: int)
    requires NoChar(left, 'F') && FinalReportMarker[0] == 'F'
    requires 0 <= c && c + 11 <= |r| - 3
    requires FindFrom(r, FinalReportMarker, 0) == 0 && FindFrom(r, MarkdownFence, 0) == c
    requires OccursAt(r, Fence, |r| - 3)
    ensures
      var text := left + r;
      Slice(text, Stage4ReportStart(text), RFind(text, Fence)) == r[c + 11..|r| - 3]
  {
    var text := left + r;
    ReportPartFound(left, r, c);
    assert Stage4ReportStart(text) == |left| + c + 11;
  }

  /** In the Stage 4 layout, the QC searches of `SplitStage4` land on the QC part's fences. */
  lemma Stage4QcSearches(prefix: string, mid: string, qc: string, between: string, intro: string, body: string)
    requires NoChar(prefix, 'Q') && NoChar(mid, '`') && NoChar(qc, '`')
    ensures
      var text := Stage4Reply(prefix, mid, qc, between, intro, body);
      && Find(text, QcMarker) == |prefix|
      && FindFrom(text, JsonFence, |prefix|) == |prefix| + 14 + |mid|
      && FindFrom(text, Fence, |prefix| + 21 + |mid|) == |prefix| + 21 + |mid| + |qc|
  {
    assert QcMarker[0] == 'Q';
    QcSectionLayout(mid, qc);
    QcPartFound(prefix, QcSection(mid, qc), between, ReportSection(intro, body), 14 + |mid|, 21 + |mid| + |qc|);
  }

  /** In the Stage 4 layout, the QC JSON sits between the QC part's fences. */
  lemma Stage4QcPayload(prefix: string, mid: string, qc: string, between: string, intro: string, body: string)
    ensures
      var text := Stage4Reply(prefix, mid, qc, between, intro, body);
      Slice(text, |prefix| + 21 + |mid|, |prefix| + 21 + |mid| + |qc|) == qc
  {
    var q := QcSection(mid, qc);
    assert |q| == 24 + |mid| + |qc|;
    assert q[21 + |mid|..21 + |mid| + |qc|] == qc;
    SliceSecond(prefix, q, between, ReportSection(intro, body), 21 + |mid|, 21 + |mid| + |qc|);
    var text := Stage4Reply(prefix, mid, qc, between, intro, body);
    assert Slice(text, |prefix| + 21 + |mid|, |prefix| + 21 + |mid| + |qc|) == text[|prefix| + 21 + |mid|..|prefix| + 21 + |mid| + |qc|];
  }

  /** In the Stage 4 layout, the QC text is the stripped JSON of the QC part. */
  lemma Stage4QcFound(prefix: string, mid: string, qc: string, between: string, intro: string, body: string)
    requires NoChar(prefix, 'Q') && NoChar(mid, '`') && NoChar(qc, '`')
    ensures
      var text := Stage4Reply(prefix, mid, qc, between, intro, body);
      Slice(text, Stage4QcStart(text), FindFrom(text, Fence, Stage4QcStart(text))) == qc
  {
    var text := Stage4Reply(prefix, mid, qc, between, intro, body);
    Stage4QcSearches(prefix, mid, qc, between, intro, body);
    Stage4QcPayload(prefix, mid, qc, between, intro, body);
    var i, j := |prefix| + 21 + |mid|, |prefix| + 21 + |mid| + |qc|;
    assert Find(text, QcMarker) == |prefix|;
    assert FindFrom(text, JsonFence, |prefix|) == i - 7;
    assert FindFrom(text, Fence, i) == j;
    assert Slice(text, i, j) == qc;
    QcCut(text, |prefix|, i, j, qc);
  }

  /** In the Stage 4 layout, the report is the body of the ```markdown fence, up to the reply's last fence. */
  lemma Stage4ReportFound(prefix: string, mid: string, qc: string, between: string, intro: string, body: string)
    requires NoChar(prefix, 'F') && NoChar(mid, 'F') && NoChar(qc, 'F')
    requires NoChar(between, 'F') && NoChar(intro, '`')
    ensures
      var text := Stage4Reply(prefix, mid, qc, between, intro, body);
      Slice(text, Stage4ReportStart(text), RFind(text, Fence)) == body
  {
    var left := prefix + QcSection(mid, qc) + between;
    assert FinalReportMarker[0] == 'F';
    QcSectionHasNoF(mid, qc);
    NoCharJoin(prefix, QcSection(mid, qc), 'F');
    NoCharJoin(prefix + QcSection(mid, qc), between, 'F');
    ReportSectionLayout(intro, body);
    ReportPartSlice(left, ReportSection(intro, body), 19 + |intro|);
  }

  /**
   * A Stage 4 reply in the layout its prompt asks for splits into the
   * stripped JSON of the QC part and the stripped report of the report part,
   * whatever the report contains.
   */
  lemma Stage4RoundTrip(prefix: string, mid: string, qc: string, between: string, intro: string, body: string)
    requires NoChar(prefix, 'Q') && NoChar(prefix, 'F')
    requires NoChar(mid, '`') && NoChar(mid, 'F') && NoChar(qc, '`') && NoChar(qc, 'F')
    requires NoChar(between, 'F') && NoChar(intro, '`')
    ensures SplitStage4(Stage4Reply(prefix, mid, qc, between, intro, body)) == (Strip(qc), Strip(body))
  {
    Stage4QcFound(prefix, mid, qc, between, intro, body);
    Stage4ReportFound(prefix, mid, qc, between, intro, body);
  }

  /** A text opening with ```markdown also opens with a bare fence. */
  lemma MarkdownFenceIsFence(t: string)
    ensures StartsWith(t, MarkdownFence) ==> StartsWith(t, Fence)
  {
    if StartsWith(t, MarkdownFence) {
      assert t[..3] == t[..11][..3];
    }
  }

  lemma DropMarkdownOpening(tail: string)
    ensures DropOpeningFence(MarkdownFence + tail) == tail
  {
    var text := MarkdownFence + tail;
    assert text[..11] == MarkdownFence;
    assert text[11..] == tail;
  }

  lemma DropPlainOpening(tail: string)
    requires |tail| > 0 && tail[0] == '\n'
    ensures DropOpeningFence(Fence + tail) == tail
  {
    var text := Fence + tail;
    assert text[3] == '\n';
    assert MarkdownFence[3] == 'm';
    assert !StartsWith(text, MarkdownFence);
    assert text[..3] == Fence;
    assert text[3..] == tail;
  }

  lemma DropClosing(inner: string)
    ensures DropClosingFence(inner + Fence) == inner
  {
    var text := inner + Fence;
    assert text[|text| - 3..] == Fence;
    assert text[..|text| - 3] == inner;
  }

  /** A fenced body, regrouped as the opening fence and the rest. */
  lemma FenceAround(open: string, body: string)
    ensures open + "\n" + body + "\n" + Fence == open + (("\n" + body + "\n") + Fence)
  {
  }

  /** A markdown body in a ```markdown fence on lines of its own comes back unchanged. */
  lemma MarkdownFenceRoundTrip(body: string)
    requires IsStripped(body)
    ensures CleanMarkdown(MarkdownFence + "\n" + body + "\n" + Fence) == body
  {
    var inner := "\n" + body + "\n";
    var text := MarkdownFence + (inner + Fence);
    FenceAround(MarkdownFence, body);
    assert text[0] == '`' && text[|text| - 1] == '`';
    StripStripped(text);
    DropMarkdownOpening(inner + Fence);
    DropClosing(inner);
    StripPadded("\n", body, "\n");
  }

  /** The same for a bare ``` fence. */
  lemma PlainMarkdownRoundTrip(body: string)
    requires IsStripped(body)
    ensures CleanMarkdown(Fence + "\n" + body + "\n" + Fence) == body
  {
    var inner := "\n" + body + "\n";
    var text := Fence + (inner + Fence);
    FenceAround(Fence, body);
    assert text[0] == '`' && text[|text| - 1] == '`';
    StripStripped(text);
    DropPlainOpening(inner + Fence);
    DropClosing(inner);
    StripPadded("\n", body, "\n");
  }

  /** A reply with no fence at either end is only stripped. */
  lemma UnfencedMarkdown(text: string)
    requires !StartsWith(Strip(text), Fence) && !EndsWith(Strip(text), Fence)
    ensures CleanMarkdown(text) == Strip(text)
  {
    var t := Strip(text);
    MarkdownFenceIsFence(t);
    assert DropOpeningFence(t) == t;
    StripStripped(t);
  }
}
