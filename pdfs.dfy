/**
 * The PDFs sent to the extraction model: the prosecution history always,
 * the issued patent only when its bytes are non-empty.
 */
module Pdfs {
  import opened Wrappers
  import opened Json

  const HistoryName := "prosecution_history.pdf"
  const PatentName := "issued_patent.pdf"

  /** A PDF as uploaded: its display name and contents. */
  datatype NamedPdf = NamedPdf(displayName: string, content: Bytes)

  /** The upload list: history first, then the patent if it is present and non-empty. */
  function PdfParts(history: Bytes, patent: Option<Bytes>): (r: seq<NamedPdf>)
    ensures 1 <= |r| <= 2
    ensures r[0] == NamedPdf(HistoryName, history)
    ensures |r| == 2 <==> patent.Some? && |patent.value| > 0
    ensures |r| == 2 ==> r[1] == NamedPdf(PatentName, patent.value)
  {
    var files := [NamedPdf(HistoryName, history)];
    if patent.Some? && |patent.value| > 0 then files + [NamedPdf(PatentName, patent.value)] else files
  }
}
