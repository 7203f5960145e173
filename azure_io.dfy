/**
 * URL arithmetic around Azure Blob Storage: splitting a blob URL into its
 * container URL and blob name, deriving a report base name, removing the
 * SAS token for logging, and the URLs an upload writes to and returns.
 * `urllib.parse.urlparse` is a library call and is a parameter here.
 */
module AzureIo {
  import opened PyStr
  import opened Wrappers
  import opened Json

  /** The six fields of `urllib.parse.urlparse`'s result. */
  datatype ParsedUrl = ParsedUrl(
    scheme: string, netloc: string, path: string,
    params: string, query: string, fragment: string)

  type UrlParser = string -> ParsedUrl

  function Origin(u: ParsedUrl): string
  {
    u.scheme + "://" + u.netloc
  }

  /** `?query` when the URL has a query (the SAS token), else nothing. */
  function QuerySuffix(u: ParsedUrl): (r: string)
    ensures u.query == "" <==> r == ""
  {
    if u.query != "" then "?" + u.query else ""
  }

  /** The path with its leading slashes removed: "<container>/<blob name>". */
  function ContainerAndBlob(u: ParsedUrl): string
  {
    LStripChar(u.path, '/')
  }

  /**
   * The path split at the first "/" after its leading slashes, as
   * `path.lstrip("/").split("/", 1)` does; None when there is no such "/".
   */
  function PathParts(u: ParsedUrl): (r: Option<(string, string)>)
    ensures r.None? <==> NoChar(ContainerAndBlob(u), '/')
    ensures r.Some? ==> NoChar(r.value.0, '/') && ContainerAndBlob(u) == r.value.0 + "/" + r.value.1
  {
    var rest := ContainerAndBlob(u);
    if NoChar(rest, '/') then None
    else
      SplitAtFirst(rest, '/');
      var i := Find(rest, "/");
      Some((rest[..i], rest[i + 1..]))
  }

  /**
   * `split_container_and_name`: the first path segment names the container,
   * the rest of the path (which may hold further "/") is the blob name.
   * A path with no "/" after its leading ones raises `ValueError`.
   */
  function SplitContainerAndName(blobUrl: string, urlparse: UrlParser): (r: Result<(string, string), string>)
    ensures r.Err? <==> NoChar(ContainerAndBlob(urlparse(blobUrl)), '/')
    ensures r.Err? ==> r.error == "Invalid blob URL format: " + blobUrl
    ensures r.Ok? ==>
      var u := urlparse(blobUrl);
      var (container, blobName) := PathParts(u).value;
      r.value == (Origin(u) + "/" + container + QuerySuffix(u), blobName)
  {
    var u := urlparse(blobUrl);
    match PathParts(u)
    case None => Err("Invalid blob URL format: " + blobUrl)
    case Some((container, blobName)) => Ok((Origin(u) + "/" + container + QuerySuffix(u), blobName))
  }

  /**
   * `get_base_name`: the blob name's last "/"-segment without its last
   * ".extension"; errors of the split propagate.
   */
  function GetBaseName(blobUrl: string, urlparse: UrlParser): (r: Result<string, string>)
    ensures r.Ok? <==> SplitContainerAndName(blobUrl, urlparse).Ok?
    ensures r.Err? ==> r.error == SplitContainerAndName(blobUrl, urlparse).error
    ensures r.Ok? ==> NoChar(r.value, '/')
    ensures r.Ok? ==>
      var fileName := AfterLast(SplitContainerAndName(blobUrl, urlparse).value.1, '/');
      (NoChar(fileName, '.') ==> r.value == fileName)
      && (!NoChar(fileName, '.') ==> fileName == r.value + "." + AfterLast(fileName, '.'))
  {
    match SplitContainerAndName(blobUrl, urlparse)
    case Err(e) => Err(e)
    case Ok((_, blobName)) =>
      var fileName := AfterLast(blobName, '/');
      var base := BeforeLast(fileName, '.');
      assert NoChar(base, '/') by {
        forall i | 0 <= i < |base| ensures base[i] != '/' { assert base[i] == fileName[i]; }
      }
      Ok(base)
  }

  /** `_sanitize_url`: the URL for logs, without params, query (SAS token) or fragment. */
  function SanitizeUrl(url: string, urlparse: UrlParser): (r: string)
    ensures StartsWith(r, Origin(urlparse(url)))
    ensures EndsWith(r, urlparse(url).path)
  {
    Origin(urlparse(url)) + urlparse(url).path
  }

  /** The URL `upload_blob` writes to (with the SAS token) and the one it returns (without). */
  datatype UploadUrls = UploadUrls(target: string, returned: string)

  /**
   * URL construction in `upload_blob`: the container path loses its trailing
   * "/", gains "/" + blob name, and the target carries the container's query.
   */
  function UploadUrlsFor(containerUrl: string, blobName: string, urlparse: UrlParser): (r: UploadUrls)
    ensures r.target == r.returned + QuerySuffix(urlparse(containerUrl))
    ensures EndsWith(r.returned, "/" + blobName)
    ensures StartsWith(r.returned, Origin(urlparse(containerUrl)))
  {
    var u := urlparse(containerUrl);
    var base := Origin(u) + RStripChar(u.path, '/');
    var returned := base + "/" + blobName;
    assert returned == Origin(u) + (RStripChar(u.path, '/') + "/" + blobName);
    UploadUrls(returned + QuerySuffix(u), returned)
  }

  /** What a report upload sends: a markdown text, or a QC record serialised by `json.dumps`. */
  datatype Payload = MarkdownText(text: string) | QcJson(record: Record)

  /**
   * Azure Blob Storage: `download(url)` is the blob's contents or the
   * exception text; `upload(target, payload, contentType)` writes a blob.
   */
  datatype Blobs = Blobs(
    download: string -> Result<Bytes, string>,
    upload: (string, Payload, string) -> Result<(), string>,
    urlparse: UrlParser)

  /** `upload_blob`: writes to the target URL and returns the URL without the SAS token. */
  function UploadBlob(b: Blobs, containerUrl: string, blobName: string, payload: Payload, contentType: string)
    : (r: Result<string, string>)
    ensures var urls := UploadUrlsFor(containerUrl, blobName, b.urlparse);
      r.Ok? <==> b.upload(urls.target, payload, contentType).Ok?
    ensures r.Ok? ==> r.value == UploadUrlsFor(containerUrl, blobName, b.urlparse).returned
    ensures r.Err? ==>
      r.error == b.upload(UploadUrlsFor(containerUrl, blobName, b.urlparse).target, payload, contentType).error
  {
    var urls := UploadUrlsFor(containerUrl, blobName, b.urlparse);
    match b.upload(urls.target, payload, contentType)
    case Ok(_) => Ok(urls.returned)
    case Err(e) => Err(e)
  }

  /** A path with exactly one leading "/" loses exactly that one. */
  lemma OneLeadingSlash(p: string)
    requires StartsWith(p, "/") && !StartsWith(p, "//")
    ensures LStripChar(p, '/') == p[1..]
  {
    assert p[0] == '/';
    assert |p| >= 2 ==> p[1] != '/' by {
      assert |p| >= 2 ==> p[..2] == [p[0], p[1]];
    }
    assert p[1..] == [] || p[1..][0] != '/';
  }

  /** Joining an origin, a container and a blob name does not depend on grouping. */
  lemma Regroup(origin: string, container: string, blobName: string)
    ensures origin + "/" + container + "/" + blobName == origin + ("/" + container + "/" + blobName)
    ensures origin + ("/" + container) + "/" + blobName == origin + ("/" + container + "/" + blobName)
  {
  }

  /** A path with one leading "/" is that "/" followed by its two parts. */
  lemma PathFromParts(u: ParsedUrl)
    requires StartsWith(u.path, "/") && !StartsWith(u.path, "//")
    requires PathParts(u).Some?
    ensures u.path == "/" + PathParts(u).value.0 + "/" + PathParts(u).value.1
  {
    OneLeadingSlash(u.path);
    assert u.path == [u.path[0]] + u.path[1..];
  }

  /**
   * Splitting a query-less blob URL whose path has exactly one leading "/"
   * and joining the parts again gives back the URL without params or fragment.
   */
  lemma SplitJoinRoundTrip(blobUrl: string, urlparse: UrlParser)
    requires urlparse(blobUrl).query == ""
    requires StartsWith(urlparse(blobUrl).path, "/") && !StartsWith(urlparse(blobUrl).path, "//")
    requires SplitContainerAndName(blobUrl, urlparse).Ok?
    ensures
      var (containerUrl, blobName) := SplitContainerAndName(blobUrl, urlparse).value;
      containerUrl + "/" + blobName == Origin(urlparse(blobUrl)) + urlparse(blobUrl).path
  {
    var u := urlparse(blobUrl);
    PathFromParts(u);
    var (container, blobName) := PathParts(u).value;
    assert Origin(u) + "/" + container + QuerySuffix(u) == Origin(u) + "/" + container;
    Regroup(Origin(u), container, blobName);
  }

  /**
   * Uploading under the split's container URL and blob name targets the blob
   * the URL was split from, SAS token included, provided `urlparse` reads the
   * container URL back as the same origin, path "/<container>" and query.
   */
  lemma UploadTargetsSplitBlob(blobUrl: string, urlparse: UrlParser)
    requires StartsWith(urlparse(blobUrl).path, "/") && !StartsWith(urlparse(blobUrl).path, "//")
    requires SplitContainerAndName(blobUrl, urlparse).Ok?
    requires
      var u := urlparse(blobUrl);
      var cu := urlparse(SplitContainerAndName(blobUrl, urlparse).value.0);
      cu.scheme == u.scheme && cu.netloc == u.netloc && cu.query == u.query
      && cu.path == "/" + PathParts(u).value.0
    ensures
      var u := urlparse(blobUrl);
      var (containerUrl, blobName) := SplitContainerAndName(blobUrl, urlparse).value;
      UploadUrlsFor(containerUrl, blobName, urlparse)
        == UploadUrls(Origin(u) + u.path + QuerySuffix(u), Origin(u) + u.path)
  {
    var u := urlparse(blobUrl);
    PathFromParts(u);
    var (container, blobName) := PathParts(u).value;
    var cu := urlparse(SplitContainerAndName(blobUrl, urlparse).value.0);
    assert RStripChar(cu.path, '/') == cu.path by {
      assert |container| > 0 ==> cu.path[|cu.path| - 1] == container[|container| - 1];
    }
    assert Origin(cu) == Origin(u) && QuerySuffix(cu) == QuerySuffix(u);
    Regroup(Origin(u), container, blobName);
  }
}
