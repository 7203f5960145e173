/**
 * `ingest_pdfs_node`: marks the run as processing, downloads the patent PDF
 * (when a URL is given) and the prosecution history PDF, and derives the
 * container URL and report base name from the history URL.
 */
module IngestNode {
  import opened Wrappers
  import opened Json
  import opened PyStr
  import opened AzureIo
  import opened PipelineState

  const Prefix := "PDF ingestion failed: "

  /** `if patent_url:` — a present, non-empty patent URL. */
  predicate FetchesPatent(s: State)
  {
    s.patentPdfUrl.Some? && |s.patentPdfUrl.value| > 0
  }

  /**
   * The node has no failure guard and starts by setting status
   * "processing". Each step's update survives a later step's failure.
   */
  function IngestPdfs(svc: Services, s: State): (r: State)
    ensures r == s.(patentPdfBytes := r.patentPdfBytes, historyPdfBytes := r.historyPdfBytes,
                    azureContainerUrl := r.azureContainerUrl, baseName := r.baseName,
                    status := r.status, error := r.error)
    ensures r.status == Some(Processing) || IsFailed(r)
    ensures IsFailed(r) ==> r.error.Some? && StartsWith(r.error.value, Prefix)
    ensures !FetchesPatent(s) ==> r.patentPdfBytes == s.patentPdfBytes
    ensures FetchesPatent(s) && svc.blobs.download(s.patentPdfUrl.value).Err? ==>
      r == Fail(s, Prefix, svc.blobs.download(s.patentPdfUrl.value).error)
    ensures FetchesPatent(s) && svc.blobs.download(s.patentPdfUrl.value).Ok? ==>
      r.patentPdfBytes == Some(svc.blobs.download(s.patentPdfUrl.value).value)
    ensures r.status == Some(Processing) <==>
      (FetchesPatent(s) ==> svc.blobs.download(s.patentPdfUrl.value).Ok?)
      && s.historyPdfUrl.Some?
      && svc.blobs.download(s.historyPdfUrl.value).Ok?
      && SplitContainerAndName(s.historyPdfUrl.value, svc.blobs.urlparse).Ok?
    ensures r.status == Some(Processing) ==>
      var h := s.historyPdfUrl.value;
      r.error == s.error
      && r.historyPdfBytes == Some(svc.blobs.download(h).value)
      && r.azureContainerUrl == Some(SplitContainerAndName(h, svc.blobs.urlparse).value.0)
      && r.baseName == Some(GetBaseName(h, svc.blobs.urlparse).value)
  {
    var s0 := s.(status := Some(Processing));
    if FetchesPatent(s) && svc.blobs.download(s.patentPdfUrl.value).Err? then
      Fail(s0, Prefix, svc.blobs.download(s.patentPdfUrl.value).error)
    else
      var s1 := if FetchesPatent(s) then s0.(patentPdfBytes := Some(svc.blobs.download(s.patentPdfUrl.value).value)) else s0;
      match Required(s.historyPdfUrl, "history_pdf_url")
      case Err(e) => Fail(s1, Prefix, e)
      case Ok(h) =>
        match svc.blobs.download(h)
        case Err(e) => Fail(s1, Prefix, e)
        case Ok(bytes) =>
          var s2 := s1.(historyPdfBytes := Some(bytes));
          match SplitContainerAndName(h, svc.blobs.urlparse)
          case Err(e) => Fail(s2, Prefix, e)
          case Ok((container, _)) =>
            s2.(azureContainerUrl := Some(container), baseName := Some(GetBaseName(h, svc.blobs.urlparse).value))
  }
}
