/**
 * `save_reports_node`: uploads each non-empty report next to the history
 * PDF under the run's base name, records the returned URLs and marks the
 * run completed.
 */
module SaveReportsNode {
  import opened Wrappers
  import opened Json
  import opened PyStr
  import opened AzureIo
  import opened PipelineState

  const Prefix := "Save Reports failed: "

  /** The state key an upload's URL is written to; the QC JSON's URL is not kept. */
  datatype UrlKey = Stage3UrlKey | Stage4UrlKey | NoUrlKey | SearchIntelUrlKey

  /** One blob to write: its name, contents, content type and where its URL goes. */
  datatype Upload = Upload(blobName: string, payload: Payload, contentType: string, key: UrlKey)

  const Stage3Suffix := "_Stage3_Report.md"
  const Stage4Suffix := "_Stage4_Final_Report.md"
  const QcSuffix := "_Stage4_QC.json"
  const SearchIntelSuffix := "_Search_Intelligence_Report.md"

  predicate NonEmptyText(v: Option<string>)
  {
    v.Some? && |v.value| > 0
  }

  /** Whether the node uploads the report a key stands for: its field is present and non-empty. */
  predicate Uploads(s: State, key: UrlKey)
  {
    match key
    case Stage3UrlKey => NonEmptyText(s.stage3ReportMd)
    case Stage4UrlKey => NonEmptyText(s.stage4FinalReportMd)
    case NoUrlKey => s.stage4QcJson.Some? && |s.stage4QcJson.value| > 0
    case SearchIntelUrlKey => s.searchIntelReportMd.Some? && NonEmptyText(s.searchIntelReportMd.value)
  }

  /** The blob a key's report is written to: the base name plus the report's suffix. */
  function UploadFor(s: State, baseName: string, key: UrlKey): (r: Upload)
    ensures r.key == key && StartsWith(r.blobName, baseName)
  {
    match key
    case Stage3UrlKey =>
      Upload(baseName + Stage3Suffix, MarkdownText(s.stage3ReportMd.GetOr("")), "text/markdown", key)
    case Stage4UrlKey =>
      Upload(baseName + Stage4Suffix, MarkdownText(s.stage4FinalReportMd.GetOr("")), "text/markdown", key)
    case NoUrlKey =>
      Upload(baseName + QcSuffix, QcJson(s.stage4QcJson.GetOr(map[])), "application/json", key)
    case SearchIntelUrlKey =>
      Upload(baseName + SearchIntelSuffix, MarkdownText(s.searchIntelReportMd.GetOr(None).GetOr("")), "text/markdown", key)
  }

  /** The upload for one key when its report is there, else none. */
  function UploadIf(s: State, baseName: string, key: UrlKey): (r: seq<Upload>)
    ensures |r| <= 1
    ensures forall u :: u in r ==> u == UploadFor(s, baseName, key)
    ensures UploadFor(s, baseName, key) in r <==> Uploads(s, key)
  {
    if Uploads(s, key) then [UploadFor(s, baseName, key)] else []
  }

  /** The uploads the node makes, in the order of the reports it checks. */
  function PlannedUploads(s: State, baseName: string): (r: seq<Upload>)
    ensures forall key :: (UploadFor(s, baseName, key) in r <==> Uploads(s, key))
    ensures forall u :: u in r ==> u == UploadFor(s, baseName, u.key)
    ensures forall i, j :: 0 <= i < j < |r| ==> r[i].key != r[j].key
  {
    var p3, p4, pq, ps :=
      UploadIf(s, baseName, Stage3UrlKey), UploadIf(s, baseName, Stage4UrlKey),
      UploadIf(s, baseName, NoUrlKey), UploadIf(s, baseName, SearchIntelUrlKey);
    var r := p3 + p4 + pq + ps;
    assert forall u :: u in r <==> u in p3 || u in p4 || u in pq || u in ps;
    r
  }

  /** Records an upload's URL under its key. */
  function WithUrl(s: State, key: UrlKey, url: string): State
  {
    match key
    case Stage3UrlKey => s.(stage3Url := Some(url))
    case Stage4UrlKey => s.(stage4Url := Some(url))
    case NoUrlKey => s
    case SearchIntelUrlKey => s.(searchIntelUrl := Some(url))
  }

  /** `upload_blob` for one planned upload. */
  function Put(b: Blobs, containerUrl: string, u: Upload): Result<string, string>
  {
    UploadBlob(b, containerUrl, u.blobName, u.payload, u.contentType)
  }

  /** The URL a key holds after the uploads: the last upload's for that key, if any. */
  function UrlAfter(b: Blobs, containerUrl: string, ups: seq<Upload>, key: UrlKey, before: Option<string>): Option<string>
  {
    if |ups| == 0 then before
    else UrlAfter(b, containerUrl, ups[1..], key,
                  if ups[0].key == key && Put(b, containerUrl, ups[0]).Ok? then Some(Put(b, containerUrl, ups[0]).value) else before)
  }

  /**
   * The uploads in order: the first failure stops them and fails the run,
   * keeping the URLs already recorded; otherwise status is "completed".
   */
  function UploadAll(b: Blobs, containerUrl: string, ups: seq<Upload>, s: State): (r: State)
    ensures r == s.(stage3Url := r.stage3Url, stage4Url := r.stage4Url, searchIntelUrl := r.searchIntelUrl,
                    status := r.status, error := r.error)
    ensures r.status == Some(Completed) <==> forall i :: 0 <= i < |ups| ==> Put(b, containerUrl, ups[i]).Ok?
    ensures r.status == Some(Completed) || (IsFailed(r) && r.error.Some? && StartsWith(r.error.value, Prefix))
    ensures r.status == Some(Completed) ==>
      r.error == s.error
      && r.stage3Url == UrlAfter(b, containerUrl, ups, Stage3UrlKey, s.stage3Url)
      && r.stage4Url == UrlAfter(b, containerUrl, ups, Stage4UrlKey, s.stage4Url)
      && r.searchIntelUrl == UrlAfter(b, containerUrl, ups, SearchIntelUrlKey, s.searchIntelUrl)
    decreases |ups|
  {
    if |ups| == 0 then s.(status := Some(Completed))
    else
      match Put(b, containerUrl, ups[0])
      case Err(e) => Fail(s, Prefix, e)
      case Ok(url) =>
        var r := UploadAll(b, containerUrl, ups[1..], WithUrl(s, ups[0].key, url));
        assert forall i :: 1 <= i < |ups| ==> ups[i] == ups[1..][i - 1];
        r
  }

  /**
   * The node: skipped after a failure; a missing container URL or base
   * name fails the run; otherwise the planned uploads are made.
   */
  function SaveReports(svc: Services, s: State): (r: State)
    ensures IsFailed(s) ==> r == s
    ensures r == s.(stage3Url := r.stage3Url, stage4Url := r.stage4Url, searchIntelUrl := r.searchIntelUrl,
                    status := r.status, error := r.error)
    ensures r.status == Some(Completed) || IsFailed(r)
    ensures !IsFailed(s) && s.azureContainerUrl.None? ==> r == Fail(s, Prefix, KeyError("azure_container_url"))
    ensures !IsFailed(s) && s.azureContainerUrl.Some? && s.baseName.None? ==> r == Fail(s, Prefix, KeyError("base_name"))
    ensures !IsFailed(s) && s.azureContainerUrl.Some? && s.baseName.Some? ==>
      r == UploadAll(svc.blobs, s.azureContainerUrl.value, PlannedUploads(s, s.baseName.value), s)
  {
    if IsFailed(s) then s
    else
      match Required(s.azureContainerUrl, "azure_container_url")
      case Err(e) => Fail(s, Prefix, e)
      case Ok(containerUrl) =>
        match Required(s.baseName, "base_name")
        case Err(e) => Fail(s, Prefix, e)
        case Ok(baseName) => UploadAll(svc.blobs, containerUrl, PlannedUploads(s, baseName), s)
  }

  /** Over uploads with distinct keys that all succeed, a key ends with its own upload's URL. */
  lemma {:induction false} UrlAfterDistinct(b: Blobs, containerUrl: string, ups: seq<Upload>, key: UrlKey, before: Option<string>)
    requires forall i, j :: 0 <= i < j < |ups| ==> ups[i].key != ups[j].key
    requires forall i :: 0 <= i < |ups| ==> Put(b, containerUrl, ups[i]).Ok?
    ensures forall u :: u in ups && u.key == key ==> UrlAfter(b, containerUrl, ups, key, before) == Some(Put(b, containerUrl, u).value)
    ensures (forall u :: u in ups ==> u.key != key) ==> UrlAfter(b, containerUrl, ups, key, before) == before
    decreases |ups|
  {
    if |ups| > 0 {
      var rest := ups[1..];
      var next := if ups[0].key == key then Some(Put(b, containerUrl, ups[0]).value) else before;
      assert forall i :: 0 <= i < |rest| ==> rest[i] == ups[i + 1];
      UrlAfterDistinct(b, containerUrl, rest, key, next);
      if ups[0].key == key {
        assert forall u :: u in rest ==> u.key != key;
      }
    }
  }

  /**
   * After a completed save, each report's URL is the one its upload
   * returned when the report was uploaded, and is unchanged otherwise.
   */
  lemma SavedUrls(svc: Services, s: State)
    requires !IsFailed(s) && SaveReports(svc, s).status == Some(Completed)
    ensures s.azureContainerUrl.Some? && s.baseName.Some?
    ensures
      var r := SaveReports(svc, s);
      var c := s.azureContainerUrl.value;
      var base := s.baseName.value;
      (r.stage3Url == if Uploads(s, Stage3UrlKey)
        then Some(UploadUrlsFor(c, base + Stage3Suffix, svc.blobs.urlparse).returned) else s.stage3Url)
      && (r.stage4Url == if Uploads(s, Stage4UrlKey)
        then Some(UploadUrlsFor(c, base + Stage4Suffix, svc.blobs.urlparse).returned) else s.stage4Url)
      && (r.searchIntelUrl == if Uploads(s, SearchIntelUrlKey)
        then Some(UploadUrlsFor(c, base + SearchIntelSuffix, svc.blobs.urlparse).returned) else s.searchIntelUrl)
  {
    var c := s.azureContainerUrl.value;
    var base := s.baseName.value;
    var ups := PlannedUploads(s, base);
    UrlAfterDistinct(svc.blobs, c, ups, Stage3UrlKey, s.stage3Url);
    UrlAfterDistinct(svc.blobs, c, ups, Stage4UrlKey, s.stage4Url);
    UrlAfterDistinct(svc.blobs, c, ups, SearchIntelUrlKey, s.searchIntelUrl);
    assert UploadFor(s, base, Stage3UrlKey).key == Stage3UrlKey;
    assert UploadFor(s, base, Stage4UrlKey).key == Stage4UrlKey;
    assert UploadFor(s, base, SearchIntelUrlKey).key == SearchIntelUrlKey;
  }
}
