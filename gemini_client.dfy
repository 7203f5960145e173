/**
 * The Gemini client of the linear pipeline: each stage call sends a prompt,
 * turns the reply into a JSON record or a cleaned markdown report, and is
 * retried up to three times on any exception. The model's replies, the
 * client's construction and `json.loads` are parameters.
 */
module GeminiClient {
  import opened Wrappers
  import opened Json
  import opened Fences
  import opened Pdfs
  import opened PyStr

  /** What each stage call sends to the model (the prompt templates themselves are left out). */
  datatype Prompt =
    | Stage1Prompt(files: seq<NamedPdf>)
    | Stage2aPrompt(stage1: Record, techPack: string)
    | Stage2bPrompt(stage1: Record, stage2a: Record, techPack: string)
    | Stage2cPrompt(stage1: Record, stage2a: Record, stage2b: Record, techPack: string)
    | Stage3Prompt(stage1: Record, forensic: Record)
    | Stage4Prompt(stage1: Record, forensic: Record, report: string)
    | SearchIntelPrompt(searchRecords: Json, convergenceRows: Json, technicalReps: Json, techPack: string)

  /**
   * The model and the libraries around it: `initError` is the exception
   * `GeminiClient()` raises, if any; `reply(p, n)` is the reply text to the
   * n-th attempt at prompt `p` (uploads included), or the exception text;
   * `decode` is `json.loads`.
   */
  datatype Gemini = Gemini(
    initError: Option<string>,
    reply: (Prompt, nat) -> Result<string, string>,
    decode: string -> Result<Json, string>)

  /** `stop_after_attempt(3)`. */
  const MaxAttempts := 3

  /** Attempts `i` .. `MaxAttempts`, stopping at the first that does not raise. */
  function RetryFrom<T>(attempt: nat -> Result<T, string>, i: nat): (r: Result<T, string>)
    requires 1 <= i <= MaxAttempts
    ensures exists k :: i <= k <= MaxAttempts && r == attempt(k) && forall j :: i <= j < k ==> attempt(j).Err?
    ensures r.Err? <==> forall j :: i <= j <= MaxAttempts ==> attempt(j).Err?
    decreases MaxAttempts - i
  {
    if i == MaxAttempts || attempt(i).Ok? then attempt(i) else RetryFrom(attempt, i + 1)
  }

  /**
   * A call under tenacity's `@retry`: the result of the first attempt that
   * does not raise; it fails only when all three attempts raise.
   */
  function Retry<T>(attempt: nat -> Result<T, string>): (r: Result<T, string>)
    ensures exists k :: 1 <= k <= MaxAttempts && r == attempt(k) && forall j :: 1 <= j < k ==> attempt(j).Err?
    ensures r.Err? <==> forall j :: 1 <= j <= MaxAttempts ==> attempt(j).Err?
  {
    RetryFrom(attempt, 1)
  }

  /**
   * `_parse_json_response` followed by `result.keys()`: the fenced text is
   * decoded, and anything but an object fails on `.keys()`.
   */
  function ParseRecord(decode: string -> Result<Json, string>, text: string): (r: Result<Record, string>)
    ensures r.Ok? <==> decode(ExtractJsonText(text)).Ok? && decode(ExtractJsonText(text)).value.JObj?
    ensures r.Ok? ==> decode(ExtractJsonText(text)) == Ok(JObj(r.value))
  {
    match decode(ExtractJsonText(text))
    case Err(e) => Err(e)
    case Ok(JObj(fields)) => Ok(fields)
    case Ok(v) => Err(AttrError(v, "keys"))
  }

  /** One attempt of a JSON stage call: the reply to attempt `n`, parsed. */
  function JsonAttempt(g: Gemini, p: Prompt, n: nat): (r: Result<Record, string>)
    ensures r.Ok? ==> g.reply(p, n).Ok? && g.decode(ExtractJsonText(g.reply(p, n).value)) == Ok(JObj(r.value))
  {
    match g.reply(p, n)
    case Err(e) => Err(e)
    case Ok(text) => ParseRecord(g.decode, text)
  }

  /** A JSON stage call (`call_stage1`, `call_stage2a/b/c`): the record some attempt's reply decodes to. */
  function CallJsonStage(g: Gemini, p: Prompt): (r: Result<Record, string>)
    ensures exists k :: 1 <= k <= MaxAttempts && r == JsonAttempt(g, p, k)
    ensures r.Err? <==> forall k :: 1 <= k <= MaxAttempts ==> JsonAttempt(g, p, k).Err?
  {
    var attempt := (n: nat) => JsonAttempt(g, p, n);
    assert forall n: nat :: attempt(n) == JsonAttempt(g, p, n);
    Retry(attempt)
  }

  /** One attempt of a markdown stage call: the reply to attempt `n`, cleaned. */
  function MarkdownAttempt(g: Gemini, p: Prompt, n: nat): (r: Result<string, string>)
    ensures r.Ok? ==> g.reply(p, n).Ok? && r.value == CleanMarkdown(g.reply(p, n).value)
  {
    match g.reply(p, n)
    case Err(e) => Err(e)
    case Ok(text) => Ok(CleanMarkdown(text))
  }

  /** A markdown stage call (`call_stage3`, `call_search_intel`): some attempt's reply, cleaned. */
  function CallMarkdownStage(g: Gemini, p: Prompt): (r: Result<string, string>)
    ensures r.Ok? ==> IsStripped(r.value)
    ensures exists k :: 1 <= k <= MaxAttempts && r == MarkdownAttempt(g, p, k)
    ensures r.Err? <==> forall k :: 1 <= k <= MaxAttempts ==> g.reply(p, k).Err?
  {
    var attempt := (n: nat) => MarkdownAttempt(g, p, n);
    assert forall n: nat :: attempt(n) == MarkdownAttempt(g, p, n);
    Retry(attempt)
  }

  /**
   * One attempt of `call_stage4`: split the reply, decode the QC block, and
   * take `len(qc_json.get("qc_issues", []))` for the log, which fails unless
   * the QC value is an object whose issues have a length.
   */
  function Stage4Attempt(g: Gemini, p: Prompt, n: nat): (r: Result<(Record, string), string>)
    ensures r.Ok? ==> LenError(GetOr(r.value.0, "qc_issues", JArr([]))).None?
    ensures r.Ok? ==> g.reply(p, n).Ok?
    ensures r.Ok? ==> g.decode(SplitStage4(g.reply(p, n).value).0) == Ok(JObj(r.value.0))
    ensures r.Ok? ==> r.value.1 == SplitStage4(g.reply(p, n).value).1
  {
    match g.reply(p, n)
    case Err(e) => Err(e)
    case Ok(text) =>
      var (qcText, report) := SplitStage4(text);
      match g.decode(qcText)
      case Err(e) => Err(e)
      case Ok(qc) =>
        match Get(qc, "qc_issues", JArr([]))
        case Err(e) => Err(e)
        case Ok(issues) =>
          match LenError(issues)
          case Some(e) => Err(e)
          case None => Ok((qc.fields, report))
  }

  /** `call_stage4`: the QC object and corrected report of some attempt's reply. */
  function CallStage4(g: Gemini, p: Prompt): (r: Result<(Record, string), string>)
    ensures exists k :: 1 <= k <= MaxAttempts && r == Stage4Attempt(g, p, k)
    ensures r.Err? <==> forall k :: 1 <= k <= MaxAttempts ==> Stage4Attempt(g, p, k).Err?
  {
    var attempt := (n: nat) => Stage4Attempt(g, p, n);
    assert forall n: nat :: attempt(n) == Stage4Attempt(g, p, n);
    Retry(attempt)
  }

  /** Stage 1: the prosecution history and, when non-empty, the issued patent. */
  function CallStage1(g: Gemini, history: Bytes, patent: Option<Bytes>): Result<Record, string>
  {
    CallJsonStage(g, Stage1Prompt(PdfParts(history, patent)))
  }
}
