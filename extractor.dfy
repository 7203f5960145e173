/**
 * The extractor agent: sends the PDFs to the model and parses its reply
 * into the Stage 1 extraction record.
 */
module Extractor {
  import opened Wrappers
  import opened Json
  import opened Fences
  import opened Pdfs
  import opened Agents

  const RequiredMessage := "history_pdf_bytes is required"

  /** The keys of `process`'s input; a missing key is None. */
  datatype ExtractorInput = ExtractorInput(historyPdfBytes: Option<Bytes>, patentPdfBytes: Option<Bytes>)

  /** The dict `process` returns. */
  datatype ExtractorOutput = ExtractorOutput(extraction: Record, status: string, error: Option<string>)

  /**
   * `_parse_json_response` and the completion log: the fenced text is
   * decoded, must be a dict for `.get`, and its `events` and `claims_diff`
   * must have a length.
   */
  function ParseExtraction(decode: string -> Result<Json, string>, text: string): (r: Result<Record, string>)
    ensures r.Ok? ==> decode(ExtractJsonText(text)) == Ok(JObj(r.value))
    ensures r.Ok? ==>
      LenError(GetOr(r.value, "events", JArr([]))).None? && LenError(GetOr(r.value, "claims_diff", JArr([]))).None?
    ensures decode(ExtractJsonText(text)).Err? ==> r == Err(decode(ExtractJsonText(text)).error)
    ensures decode(ExtractJsonText(text)).Ok? && !decode(ExtractJsonText(text)).value.JObj? ==>
      r == Err(AttrError(decode(ExtractJsonText(text)).value, "get"))
  {
    match decode(ExtractJsonText(text))
    case Err(e) => Err(e)
    case Ok(v) =>
      if !v.JObj? then Err(AttrError(v, "get"))
      else
        match LenError(GetOr(v.fields, "events", JArr([])))
        case Some(e) => Err(e)
        case None =>
          match LenError(GetOr(v.fields, "claims_diff", JArr([])))
          case Some(e) => Err(e)
          case None => Ok(v.fields)
  }

  /** The `except` branch of `process`. */
  function ExtractorFailure(message: string): (r: ExtractorOutput)
    ensures r.extraction == map[] && r.status == "failed" && r.error == Some(message)
  {
    ExtractorOutput(map[], "failed", Some(message))
  }

  /**
   * `process`: a missing or empty history PDF fails before any upload;
   * otherwise the history (and a non-empty patent) go to the model and the
   * parsed reply is the extraction.
   */
  function ExtractorProcess(env: AgentEnv, input: ExtractorInput, step: nat): (r: ExtractorOutput)
    ensures r.status == "completed" || r.status == "failed"
    ensures r.status == "failed" ==> r.extraction == map[] && r.error.Some?
    ensures r.status == "completed" ==> r.error.None?
    ensures input.historyPdfBytes.None? || input.historyPdfBytes.value == [] ==> r == ExtractorFailure(RequiredMessage)
    ensures input.historyPdfBytes.Some? && input.historyPdfBytes.value != [] ==>
      var request := ExtractRequest(PdfParts(input.historyPdfBytes.value, input.patentPdfBytes));
      match env.invoke(request, step)
      case Err(e) => r == ExtractorFailure(e)
      case Ok(text) =>
        (r.status == "completed" <==> ParseExtraction(env.decode, text).Ok?)
        && (r.status == "completed" ==> r.extraction == ParseExtraction(env.decode, text).value)
  {
    if input.historyPdfBytes.None? || input.historyPdfBytes.value == [] then ExtractorFailure(RequiredMessage)
    else
      var request := ExtractRequest(PdfParts(input.historyPdfBytes.value, input.patentPdfBytes));
      match env.invoke(request, step)
      case Err(e) => ExtractorFailure(e)
      case Ok(text) =>
        match ParseExtraction(env.decode, text)
        case Err(e) => ExtractorFailure(e)
        case Ok(extraction) => ExtractorOutput(extraction, "completed", None)
  }

  /** A non-empty history and patent are both sent, history first; an empty patent is left out. */
  lemma ExtractorSendsBothPdfs(env: AgentEnv, history: Bytes, patent: Bytes, step: nat)
    requires history != []
    ensures var files := if patent == [] then [NamedPdf(HistoryName, history)]
                         else [NamedPdf(HistoryName, history), NamedPdf(PatentName, patent)];
      ExtractorProcess(env, ExtractorInput(Some(history), Some(patent)), step).status == "completed" ==>
        env.invoke(ExtractRequest(files), step).Ok?
  {
    var parts := PdfParts(history, Some(patent));
    if patent == [] {
      assert parts == [NamedPdf(HistoryName, history)];
    } else {
      assert parts == [NamedPdf(HistoryName, history), NamedPdf(PatentName, patent)];
    }
  }
}
