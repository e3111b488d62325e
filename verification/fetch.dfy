/** The remote side of the client, seen through `getManifest`: the documents
    the Elastic Maps Service serves, how a failed request is reported, and the
    error text each implementation turns it into. */
module Fetch {
  import opened Wrappers
  import opened Strings
  import opened Url
  import opened Catalog
  import opened EmsService
  import opened FileLayerRules
  import opened TmsRules
  import D = Dict

  /** What a failed request rejects with: an `Error`, a falsy value, or any
      other value with optional `data`, `statusText` and `status`. */
  datatype Rejection =
    | ErrorObject(message: string)
    | Falsy
    | Other(data: Option<string>, statusText: Option<string>, status: Option<string>)

  /** A raster style (TileJSON): its tile URL templates, at least one. */
  datatype RasterStyle = RasterStyle(firstTile: string, moreTiles: seq<string>)

  /** A `getManifest` request: the endpoint it was given and the query
      parameters it extends the endpoint with. */
  datatype Request = Request(endpoint: string, params: Query)

  /** The URL the request fetches: `extendUrl(endpoint, {query: params})`. */
  function RequestUrl(req: Request): string {
    ExtendUrl(req.endpoint, req.params)
  }

  /** The server's answers to the requests it knows, for one document kind. */
  type Table<T> = map<Request, Result<T, Rejection>>

  /** The server, one table per document kind. `geoJson` answers `None` for
      an empty response. */
  datatype Remote = Remote(
    mainCatalog: Table<seq<CatalogService>>,
    tmsCatalog: Table<seq<TmsServiceConfig>>,
    fileCatalog: Table<seq<FileLayerConfig>>,
    rasterStyle: Table<RasterStyle>,
    vectorStyle: Table<VectorStyle>,
    source: Table<Source>,
    geoJson: Table<Option<Json>>)

  /** Every vector style the server sends is a well-formed JavaScript object. */
  ghost predicate RemoteWellFormed(remote: Remote) {
    forall u :: u in remote.vectorStyle && remote.vectorStyle[u].Success? ==> D.Valid(remote.vectorStyle[u].value.sources)
  }

  /** What a request is answered with: its entry in the table, and otherwise
      an `Error` carrying the status text `Not Found` -- what the TypeScript
      `getManifest` makes of a response that is not `ok`, and for the legacy
      client a fetch that rejects with that `Error`. */
  function Answer<T>(table: Table<T>, req: Request): Result<T, Rejection> {
    if req in table then table[req] else Failure(ErrorObject("Not Found"))
  }

  /** The error message of the TypeScript `getManifest`: an `Error` is
      rethrown as it is, anything else becomes `Unknown error`. */
  function TsErrorMessage(e: Rejection): (r: string)
    ensures e.ErrorObject? ==> r == e.message
    ensures !e.ErrorObject? ==> r == "Unknown error"
  {
    if e.ErrorObject? then e.message else "Unknown error"
  }

  /** The message of the error the legacy `getManifest` builds from a
      rejection: a falsy one becomes `Unknown error`, another non-`Error`
      reports its `data` or else its status. */
  function JsErrorMessage(e: Rejection): (r: string)
    ensures e.Falsy? ==> r == "Unknown error"
    ensures e.ErrorObject? ==> r == e.message
    ensures e.Other? && Truthy(e.data) ==> r == e.data.value
    ensures e.Other? && !Truthy(e.data) ==> StartsWith(r, "status ")
  {
    match e
    case ErrorObject(m) => m
    case Falsy => "Unknown error"
    case Other(data, statusText, status) =>
      if Truthy(data) then data.value
      else "status " + (if Truthy(statusText) then statusText.value else Show(status))
  }

  /** `Unable to retrieve manifest from <url>: <message>` */
  function JsManifestError(endpointUrl: string, e: Rejection): (r: string)
    ensures StartsWith(r, "Unable to retrieve manifest from " + endpointUrl + ": ")
    ensures EndsWith(r, JsErrorMessage(e))
  {
    var prefix := "Unable to retrieve manifest from " + endpointUrl + ": ";
    var r := prefix + JsErrorMessage(e);
    assert r[..|prefix|] == prefix;
    assert r[|r| - |JsErrorMessage(e)|..] == JsErrorMessage(e);
    r
  }

  /** What the TypeScript `getManifest` resolves or rejects with. */
  function TsManifestResult<T>(response: Result<T, Rejection>): (r: Result<T, string>)
    ensures r.Success? <==> response.Success?
    ensures response.Success? ==> r.value == response.value
    ensures response.Failure? ==> r.error == TsErrorMessage(response.error)
  {
    match response
    case Success(v) => Success(v)
    case Failure(e) => Failure(TsErrorMessage(e))
  }

  /** What the legacy `getManifest` resolves or rejects with: every failure is
      reported with the endpoint it was asked for. */
  function JsManifestResult<T>(endpointUrl: string, response: Result<T, Rejection>): (r: Result<T, string>)
    ensures r.Success? <==> response.Success?
    ensures response.Success? ==> r.value == response.value
    ensures response.Failure? ==> r.error == JsManifestError(endpointUrl, response.error)
  {
    match response
    case Success(v) => Success(v)
    case Failure(e) => Failure(JsManifestError(endpointUrl, e))
  }

  /** The two implementations agree on the message of an `Error` and of a
      falsy rejection; the legacy one only adds the endpoint in front. */
  lemma ErrorMessagesAgree(e: Rejection)
    requires !e.Other?
    ensures JsErrorMessage(e) == TsErrorMessage(e)
  {
  }

  /** A legacy failure names the endpoint and keeps the original reason, so
      two failures of different endpoints never read the same. */
  lemma {:induction false} JsManifestErrorNamesEndpoint(u1: string, u2: string, e: Rejection)
    requires JsManifestError(u1, e) == JsManifestError(u2, e)
    ensures u1 == u2
  {
    var p1 := "Unable to retrieve manifest from " + u1 + ": ";
    var p2 := "Unable to retrieve manifest from " + u2 + ": ";
    var m := JsErrorMessage(e);
    assert p1 + m == p2 + m;
    assert |p1| == |p2|;
    assert p1 == (p1 + m)[..|p1|] == (p2 + m)[..|p2|] == p2;
    assert u1 == p1[33..|p1| - 2] == p2[33..|p2| - 2] == u2;
  }
}
