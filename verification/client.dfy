/** The stateful part of the TypeScript client (src/ems_client.ts,
    src/file_layer.ts, src/tms_service.ts): `EMSClient` with its query
    parameters, GeoJSON cache and run-once loaders, and the `FileLayer` and
    `TMSService` objects it creates. A `_.once` loader is an `Option` slot:
    `None` until its body has run, then the memoised outcome, a failure
    included. Every `getManifest` call is logged in `requests`. */
module EmsClientTs {
  import opened Wrappers
  import opened Strings
  import opened Dict
  import D = Dict
  import Lru
  import opened Utils
  import opened Url
  import opened Catalog
  import opened EmsService
  import opened FileLayerRules
  import opened TmsRules
  import opened Fetch

  // ---------------------------------------------------------------------------
  // The vector-style inlining loop, as a function of the raw style

  /** `proxyPath + _getAbsoluteUrl(url)` extended with the client's parameters:
      the endpoint a source (or a tile) is requested from. */
  function Endpoint(proxyPath: string, tileApiUrl: string, params: Query, url: string): string
  {
    Url.ExtendUrlWithParams(ProxiedUrl(proxyPath, tileApiUrl, url), params)
  }

  /** The sources of the raw style that have a URL, in enumeration order. */
  function SourcesWithUrl(names: seq<string>, sources: Dict<Source>): (r: seq<string>)
    requires forall i :: 0 <= i < |names| ==> names[i] in sources.vals
    ensures forall n :: n in r <==> n in names && Truthy(sources.vals[n].url)
    ensures forall n :: n in r ==> n in sources.vals
    ensures |r| <= |names|
    decreases |names|
  {
    if names == [] then []
    else
      var init := names[..|names| - 1];
      var n := names[|names| - 1];
      assert forall m :: m in names <==> m in init || m == n;
      SourcesWithUrl(init, sources) + (if Truthy(sources.vals[n].url) then [n] else [])
  }

  /** One iteration of the `_getVectorStyleJsonInlined` loop on the source
      `name`, from the sources inlined so far: the sources afterwards, or the
      error of its request, and the endpoints requested. */
  function InlineStep(acc: Dict<Source>, name: string, sources: Dict<Source>, fetch: Table<Source>,
                      proxyPath: string, tileApiUrl: string, params: Query): (Result<Dict<Source>, string>, seq<string>)
  {
    if name !in sources.vals || !Truthy(sources.vals[name].url) then (Success(acc), [])
    else
      var endpoint := Endpoint(proxyPath, tileApiUrl, params, sources.vals[name].url.value);
      match TsManifestResult(Answer(fetch, Request(endpoint, params)))
      case Failure(e) => (Failure(e), [endpoint])
      case Success(fetched) => (Success(Put(acc, name, InlineSource(fetched, proxyPath, tileApiUrl, params))), [endpoint])
  }

  /** The `_getVectorStyleJsonInlined` loop over `names`: the inlined sources,
      or the error that stopped the loop, and the endpoints requested. */
  function InlineLoop(names: seq<string>, sources: Dict<Source>, fetch: Table<Source>,
                      proxyPath: string, tileApiUrl: string, params: Query): (Result<Dict<Source>, string>, seq<string>)
    decreases |names|
  {
    if names == [] then (Success(Empty()), [])
    else
      var (acc, reqs) := InlineLoop(names[..|names| - 1], sources, fetch, proxyPath, tileApiUrl, params);
      if acc.Failure? then (acc, reqs)
      else
        var (res, more) := InlineStep(acc.value, names[|names| - 1], sources, fetch, proxyPath, tileApiUrl, params);
        (res, reqs + more)
  }

  /** The endpoints of the sources with a URL, in enumeration order. */
  function SourceEndpoints(names: seq<string>, sources: Dict<Source>, proxyPath: string, tileApiUrl: string, params: Query): seq<string>
    requires forall i :: 0 <= i < |names| ==> names[i] in sources.vals
    decreases |names|
  {
    if names == [] then []
    else
      var n := names[|names| - 1];
      SourceEndpoints(names[..|names| - 1], sources, proxyPath, tileApiUrl, params)
        + (if Truthy(sources.vals[n].url) then [Endpoint(proxyPath, tileApiUrl, params, sources.vals[n].url.value)] else [])
  }

  /** One endpoint for each source with a URL, in the same order. */
  lemma {:induction false} SourceEndpointsMatchSources(names: seq<string>, sources: Dict<Source>, proxyPath: string, tileApiUrl: string, params: Query)
    requires forall i :: 0 <= i < |names| ==> names[i] in sources.vals
    ensures var r := SourceEndpoints(names, sources, proxyPath, tileApiUrl, params);
      var withUrl := SourcesWithUrl(names, sources);
      && |r| == |withUrl|
      && forall i :: 0 <= i < |r| ==> r[i] == Endpoint(proxyPath, tileApiUrl, params, sources.vals[withUrl[i]].url.value)
    decreases |names|
  {
    if names != [] {
      SourceEndpointsMatchSources(names[..|names| - 1], sources, proxyPath, tileApiUrl, params);
    }
  }

  /** A completed inlining loop holds exactly the sources that have a URL, in
      the style's order. */
  lemma {:induction false} InlineLoopKeys(names: seq<string>, sources: Dict<Source>, fetch: Table<Source>,
                                         proxyPath: string, tileApiUrl: string, params: Query)
    requires NoDup(names)
    requires forall i :: 0 <= i < |names| ==> names[i] in sources.vals
    ensures var res := InlineLoop(names, sources, fetch, proxyPath, tileApiUrl, params).0;
      res.Success? ==> Valid(res.value) && res.value.keys == SourcesWithUrl(names, sources)
    decreases |names|
  {
    if names != [] {
      var init := names[..|names| - 1];
      var n := names[|names| - 1];
      NoDupLast(names);
      InlineLoopKeys(init, sources, fetch, proxyPath, tileApiUrl, params);
      var acc := InlineLoop(init, sources, fetch, proxyPath, tileApiUrl, params).0;
      if acc.Success? && Truthy(sources.vals[n].url) {
        assert n !in acc.value.vals;
        var endpoint := Endpoint(proxyPath, tileApiUrl, params, sources.vals[n].url.value);
        var fetched := TsManifestResult(Answer(fetch, Request(endpoint, params)));
        if fetched.Success? {
          PutSpec(acc.value, n, InlineSource(fetched.value, proxyPath, tileApiUrl, params));
        }
      }
    }
  }

  /** A completed inlining loop requested each source with a URL once, in order. */
  lemma {:induction false} InlineLoopRequests(names: seq<string>, sources: Dict<Source>, fetch: Table<Source>,
                                             proxyPath: string, tileApiUrl: string, params: Query)
    requires forall i :: 0 <= i < |names| ==> names[i] in sources.vals
    ensures var (res, reqs) := InlineLoop(names, sources, fetch, proxyPath, tileApiUrl, params);
      res.Success? ==> reqs == SourceEndpoints(names, sources, proxyPath, tileApiUrl, params)
    decreases |names|
  {
    if names != [] {
      InlineLoopRequests(names[..|names| - 1], sources, fetch, proxyPath, tileApiUrl, params);
    }
  }

  /** Each inlined source is the fetched one made `vector`, its tiles rewritten. */
  lemma {:induction false} InlineLoopValues(names: seq<string>, sources: Dict<Source>, fetch: Table<Source>,
                                           proxyPath: string, tileApiUrl: string, params: Query)
    requires forall i :: 0 <= i < |names| ==> names[i] in sources.vals
    ensures var res := InlineLoop(names, sources, fetch, proxyPath, tileApiUrl, params).0;
      res.Success? ==> forall n :: n in res.value.vals ==>
        && n in sources.vals
        && Truthy(sources.vals[n].url)
        && var fetched := TsManifestResult(Answer(fetch, Request(Endpoint(proxyPath, tileApiUrl, params, sources.vals[n].url.value), params)));
        && fetched.Success?
        && res.value.vals[n] == InlineSource(fetched.value, proxyPath, tileApiUrl, params)
    decreases |names|
  {
    if names != [] {
      InlineLoopValues(names[..|names| - 1], sources, fetch, proxyPath, tileApiUrl, params);
    }
  }

  /** The loop over one more name is one more step of the loop so far. */
  lemma InlineLoopExtend(names: seq<string>, i: nat, sources: Dict<Source>, fetch: Table<Source>,
                         proxyPath: string, tileApiUrl: string, params: Query, acc: Dict<Source>, reqs: seq<string>)
    requires i < |names|
    requires InlineLoop(names[..i], sources, fetch, proxyPath, tileApiUrl, params) == (Success(acc), reqs)
    ensures var (res, more) := InlineStep(acc, names[i], sources, fetch, proxyPath, tileApiUrl, params);
      InlineLoop(names[..i + 1], sources, fetch, proxyPath, tileApiUrl, params) == (res, reqs + more)
  {
    var post := names[..i + 1];
    assert post[..|post| - 1] == names[..i] && post[|post| - 1] == names[i];
  }

  /** The rest of the loop, from position `i` on, with the sources inlined so
      far: how the loop body sees it. */
  function InlineFrom(names: seq<string>, i: nat, acc: Dict<Source>, sources: Dict<Source>, fetch: Table<Source>,
                      proxyPath: string, tileApiUrl: string, params: Query): (Result<Dict<Source>, string>, seq<string>)
    requires i <= |names|
    decreases |names| - i
  {
    if i == |names| then (Success(acc), [])
    else
      var (res, more) := InlineStep(acc, names[i], sources, fetch, proxyPath, tileApiUrl, params);
      if res.Failure? then (res, more)
      else
        var (r, rest) := InlineFrom(names, i + 1, res.value, sources, fetch, proxyPath, tileApiUrl, params);
        (r, more + rest)
  }

  /** Running the first `i` steps and then the rest is running the whole loop. */
  lemma {:induction false} InlineFromRest(names: seq<string>, i: nat, sources: Dict<Source>, fetch: Table<Source>,
                                         proxyPath: string, tileApiUrl: string, params: Query, acc: Dict<Source>, reqs: seq<string>)
    requires i <= |names|
    requires InlineLoop(names[..i], sources, fetch, proxyPath, tileApiUrl, params) == (Success(acc), reqs)
    ensures var (r, rest) := InlineFrom(names, i, acc, sources, fetch, proxyPath, tileApiUrl, params);
      InlineLoop(names, sources, fetch, proxyPath, tileApiUrl, params) == (r, reqs + rest)
    decreases |names| - i
  {
    if i == |names| {
      assert names[..i] == names;
      assert reqs + [] == reqs;
    } else {
      InlineLoopExtend(names, i, sources, fetch, proxyPath, tileApiUrl, params, acc, reqs);
      var (res, more) := InlineStep(acc, names[i], sources, fetch, proxyPath, tileApiUrl, params);
      if res.Failure? {
        InlineLoopStopsAtFailure(names, i + 1, sources, fetch, proxyPath, tileApiUrl, params);
      } else {
        InlineFromRest(names, i + 1, sources, fetch, proxyPath, tileApiUrl, params, res.value, reqs + more);
        ConcatAssoc(reqs, more, InlineFrom(names, i + 1, res.value, sources, fetch, proxyPath, tileApiUrl, params).1);
      }
    }
  }

  /** One step of the loop body: a failing step ends the loop with its
      failure, a successful one leaves the rest of the loop to do. */
  lemma InlineAdvance(names: seq<string>, i: nat, sources: Dict<Source>, fetch: Table<Source>,
                      proxyPath: string, tileApiUrl: string, params: Query, acc: Dict<Source>,
                      reqs: seq<string>, next: Result<Dict<Source>, string>, more: seq<string>)
    requires i < |names| && (next, more) == InlineStep(acc, names[i], sources, fetch, proxyPath, tileApiUrl, params)
    requires var (r, rest) := InlineFrom(names, i, acc, sources, fetch, proxyPath, tileApiUrl, params);
      InlineLoop(names, sources, fetch, proxyPath, tileApiUrl, params) == (r, reqs + rest)
    ensures next.Failure? ==> InlineLoop(names, sources, fetch, proxyPath, tileApiUrl, params) == (next, reqs + more)
    ensures next.Success? ==> var (r, rest) := InlineFrom(names, i + 1, next.value, sources, fetch, proxyPath, tileApiUrl, params);
      InlineLoop(names, sources, fetch, proxyPath, tileApiUrl, params) == (r, (reqs + more) + rest)
  {
    if next.Success? {
      ConcatAssoc(reqs, more, InlineFrom(names, i + 1, next.value, sources, fetch, proxyPath, tileApiUrl, params).1);
    }
  }

  /** Once a request of the loop has failed, the later sources are neither
      requested nor inlined. */
  lemma {:induction false} InlineLoopStopsAtFailure(names: seq<string>, k: nat, sources: Dict<Source>, fetch: Table<Source>,
                                                   proxyPath: string, tileApiUrl: string, params: Query)
    requires k <= |names|
    requires InlineLoop(names[..k], sources, fetch, proxyPath, tileApiUrl, params).0.Failure?
    ensures InlineLoop(names, sources, fetch, proxyPath, tileApiUrl, params) == InlineLoop(names[..k], sources, fetch, proxyPath, tileApiUrl, params)
    decreases |names| - k
  {
    if k < |names| {
      var init := names[..|names| - 1];
      assert init[..k] == names[..k];
      InlineLoopStopsAtFailure(init, k, sources, fetch, proxyPath, tileApiUrl, params);
    } else {
      assert names[..k] == names;
    }
  }

  /** The inlined style: the sources after the loop, and the sprite and glyph
      paths of the raw style. */
  function InlinedStyle(style: VectorStyle, fetch: Table<Source>,
                        proxyPath: string, tileApiUrl: string, params: Query): (r: Result<VectorStyle, string>)
  {
    var (res, _) := InlineLoop(style.sources.keys, style.sources, fetch, proxyPath, tileApiUrl, params);
    match res
    case Failure(e) => Failure(e)
    case Success(inlined) =>
      Success(VectorStyle(inlined, Some(StylePath(proxyPath, tileApiUrl, style.sprite)), Some(StylePath(proxyPath, tileApiUrl, style.glyphs))))
  }

  /** `_getVectorStyleJsonInlined` on the outcome of the raw style: a failure
      or a missing style is passed on without a request; a style is inlined.
      The second component is the endpoints requested. */
  function InlineRaw(raw: Result<Option<VectorStyle>, string>, fetch: Table<Source>,
                     proxyPath: string, tileApiUrl: string, params: Query): (Result<Option<VectorStyle>, string>, seq<string>)
  {
    match raw
    case Failure(e) => (Failure(e), [])
    case Success(None) => (Success(None), [])
    case Success(Some(style)) =>
      var inlined := match InlinedStyle(style, fetch, proxyPath, tileApiUrl, params)
        case Failure(e) => Failure(e)
        case Success(v) => Success(Some(v));
      (inlined, InlineLoop(style.sources.keys, style.sources, fetch, proxyPath, tileApiUrl, params).1)
  }

  /** An inlined style holds exactly the sources with a url, in the raw
      style's order, each the inlining of what its endpoint answered; its
      sprite and glyphs are proxied; and loading it requested each source
      endpoint once, in order. */
  lemma InlinedStyleSpec(style: VectorStyle, fetch: Table<Source>, proxyPath: string, tileApiUrl: string, params: Query)
    requires D.Valid(style.sources)
    ensures var r := InlinedStyle(style, fetch, proxyPath, tileApiUrl, params);
      r.Success? ==>
        && D.Valid(r.value.sources) && r.value.sources.keys == SourcesWithUrl(style.sources.keys, style.sources)
        && r.value.sprite == Some(StylePath(proxyPath, tileApiUrl, style.sprite))
        && r.value.glyphs == Some(StylePath(proxyPath, tileApiUrl, style.glyphs))
        && (forall n :: n in r.value.sources.vals ==>
              && n in style.sources.vals && Truthy(style.sources.vals[n].url)
              && var fetched := TsManifestResult(Answer(fetch, Request(Endpoint(proxyPath, tileApiUrl, params, style.sources.vals[n].url.value), params)));
              && fetched.Success? && r.value.sources.vals[n] == InlineSource(fetched.value, proxyPath, tileApiUrl, params))
    ensures var (r, reqs) := InlineRaw(Success(Some(style)), fetch, proxyPath, tileApiUrl, params);
      r.Success? ==> reqs == SourceEndpoints(style.sources.keys, style.sources, proxyPath, tileApiUrl, params)
  {
    var names := style.sources.keys;
    InlineLoopKeys(names, style.sources, fetch, proxyPath, tileApiUrl, params);
    InlineLoopValues(names, style.sources, fetch, proxyPath, tileApiUrl, params);
    InlineLoopRequests(names, style.sources, fetch, proxyPath, tileApiUrl, params);
  }

  /** `getUrlTemplateForVector(sourceId)` on a memoised inlined style: the URL
      of the popped tile (`''` when there is none) and the style left behind. */
  function VectorTemplate(style: VectorStyle, sourceId: string, proxyPath: string, tileApiUrl: string, params: Query): (r: (string, VectorStyle))
    ensures Lookup(style.sources, sourceId).None? ==> r == ("", style)
    ensures (Lookup(style.sources, sourceId).Some? && (Lookup(style.sources, sourceId).value.tiles.None?
      || Lookup(style.sources, sourceId).value.tiles.value == [])) ==> r == ("", style)
    ensures (Lookup(style.sources, sourceId).Some? && Lookup(style.sources, sourceId).value.tiles.Some?
      && Lookup(style.sources, sourceId).value.tiles.value != []) ==>
        var src := Lookup(style.sources, sourceId).value;
        var ts := src.tiles.value;
        && r.1 == style.(sources := Put(style.sources, sourceId, src.(tiles := Some(ts[..|ts| - 1]))))
        && r.0 == (if ts[|ts| - 1] != "" then Endpoint(proxyPath, tileApiUrl, params, ts[|ts| - 1]) else "")
  {
    match Lookup(style.sources, sourceId)
    case None => ("", style)
    case Some(src) =>
      var (tile, rest) := PopTile(src.tiles);
      if tile.None? then ("", style)
      else
        var style' := style.(sources := Put(style.sources, sourceId, src.(tiles := rest)));
        (if tile.value != "" then Endpoint(proxyPath, tileApiUrl, params, tile.value) else "", style')
  }

  /** Each call consumes the last tile: on a source with one tile the second
      call finds none and answers `''`. */
  lemma SecondTemplateOfSingleTileIsEmpty(style: VectorStyle, sourceId: string, tile: string, proxyPath: string, tileApiUrl: string, params: Query)
    requires Lookup(style.sources, sourceId).Some? && Lookup(style.sources, sourceId).value.tiles == Some([tile])
    ensures var (_, style') := VectorTemplate(style, sourceId, proxyPath, tileApiUrl, params);
      VectorTemplate(style', sourceId, proxyPath, tileApiUrl, params).0 == ""
  {
    var (_, style') := VectorTemplate(style, sourceId, proxyPath, tileApiUrl, params);
    assert Lookup(style'.sources, sourceId).value.tiles == Some([]);
  }

  // ---------------------------------------------------------------------------
  // EMSClient

  class EMSClient {
    const appVersion: string
    const manifestServiceUrl: Option<string>
    const tileApiUrl: string
    const fileApiUrl: string
    const emsVersion: string
    const landingPageUrl: string
    const language: string
    const proxyPath: string
    const remote: Remote
    var queryParams: Query
    var cache: Lru.Cache<GeoJson>
    var mainCatalog: Option<Result<seq<CatalogService>, string>>
    var tmsCatalog: Option<Result<seq<TmsServiceConfig>, string>>
    var fileCatalog: Option<Result<seq<FileLayerConfig>, string>>
    var tmsServices: Option<Result<seq<TMSService>, string>>
    var fileLayers: Option<Result<seq<FileLayer>, string>>
    /** The endpoints passed to `getManifest`, in order. */
    var requests: seq<string>
    /** How many times `_invalidateSettings` has run since construction. */
    var epoch: nat

    ghost predicate Valid()
      reads this`queryParams, this`cache, this`mainCatalog, this`tmsCatalog, this`fileCatalog, this`tmsServices, this`fileLayers
    {
      D.Valid(queryParams) && Lru.Valid(cache) && RemoteWellFormed(remote) && LoadersConsistent(mainCatalog, tmsCatalog, fileCatalog, tmsServices, fileLayers)
    }

    /** A loader runs only after the loaders it awaits, and the services and
        layers are one object per catalog entry, bound to this client. */
    ghost predicate LoadersConsistent(main: Option<Result<seq<CatalogService>, string>>,
                                      tms: Option<Result<seq<TmsServiceConfig>, string>>,
                                      file: Option<Result<seq<FileLayerConfig>, string>>,
                                      services: Option<Result<seq<TMSService>, string>>,
                                      layers: Option<Result<seq<FileLayer>, string>>)
    {
      && (tms.Some? ==> main.Some?)
      && (file.Some? ==> main.Some?)
      && (services.Some? ==> tms.Some? && (services.value.Success? <==> tms.value.Success?))
      && (layers.Some? ==> file.Some? && (layers.value.Success? <==> file.value.Success?))
      && (services.Some? && services.value.Success? ==>
            && |services.value.value| == |tms.value.value|
            && (forall i :: 0 <= i < |services.value.value| ==> services.value.value[i].config == tms.value.value[i])
            && (forall s :: s in services.value.value ==> s.client == this && s.proxyPath == proxyPath))
      && (layers.Some? && layers.value.Success? ==>
            && |layers.value.value| == |file.value.value|
            && (forall i :: 0 <= i < |layers.value.value| ==> layers.value.value[i].config == file.value.value[i])
            && (forall l :: l in layers.value.value ==> l.client == this && l.proxyPath == proxyPath))
    }

    /** The state `_invalidateSettings` leaves: an empty cache and five loaders
        that have not run. */
    ghost predicate Invalidated()
      reads this
    {
      && cache.keys == []
      && mainCatalog.None? && tmsCatalog.None? && fileCatalog.None?
      && tmsServices.None? && fileLayers.None?
    }

    constructor(appVersion: string, kbnVersion: Option<string>, appName: Option<string>,
                manifestServiceUrl: Option<string>, tileApiUrl: string, fileApiUrl: string,
                emsVersion: Option<string>, language: Option<string>, landingPageUrl: Option<string>,
                proxyPath: Option<string>, cacheSize: Option<nat>, remote: Remote)
      requires RemoteWellFormed(remote)
      ensures Valid() && Invalidated()
      ensures this.appVersion == TsAppVersion(appVersion, kbnVersion)
      ensures queryParams == InitialQueryParams(appName, this.appVersion)
      ensures this.emsVersion == ServiceVersion(emsVersion)
      ensures this.language == (if Truthy(language) then language.value else DefaultLanguage)
      ensures this.landingPageUrl == landingPageUrl.GetOr("") && this.proxyPath == proxyPath.GetOr("")
      ensures cache.max == (if cacheSize.Some? && cacheSize.value != 0 then cacheSize.value else 10)
      ensures this.manifestServiceUrl == manifestServiceUrl && this.tileApiUrl == tileApiUrl && this.fileApiUrl == fileApiUrl
      ensures this.remote == remote && requests == [] && epoch == 0
    {
      this.appVersion := TsAppVersion(appVersion, kbnVersion);
      this.manifestServiceUrl := manifestServiceUrl;
      this.tileApiUrl := tileApiUrl;
      this.fileApiUrl := fileApiUrl;
      this.emsVersion := ServiceVersion(emsVersion);
      this.landingPageUrl := landingPageUrl.GetOr("");
      this.language := if Truthy(language) then language.value else DefaultLanguage;
      this.proxyPath := proxyPath.GetOr("");
      this.remote := remote;
      InitialQueryParamsValid(appName, TsAppVersion(appVersion, kbnVersion));
      queryParams := InitialQueryParams(appName, TsAppVersion(appVersion, kbnVersion));
      cache := Lru.New(if cacheSize.Some? && cacheSize.value != 0 then cacheSize.value else 10);
      mainCatalog, tmsCatalog, fileCatalog, tmsServices, fileLayers := None, None, None, None, None;
      requests := [];
      epoch := 0;
    }

    /** `getManifest(endpointUrl)`: the endpoint is extended with the current
        parameters and requested; a failure is reported as the TypeScript
        client does. */
    method GetManifest<T>(endpointUrl: string, fetch: Table<T>) returns (r: Result<T, string>)
      modifies this`requests
      ensures requests == old(requests) + [endpointUrl]
      ensures r == TsManifestResult(Answer(fetch, Request(endpointUrl, queryParams)))
    {
      requests := requests + [endpointUrl];
      r := TsManifestResult(Answer(fetch, Request(endpointUrl, queryParams)));
    }

    /** `_invalidateSettings()`: empties the cache and reinstalls the loaders. */
    method InvalidateSettings()
      requires Valid()
      modifies this`cache, this`mainCatalog, this`tmsCatalog, this`fileCatalog, this`tmsServices, this`fileLayers, this`epoch
      ensures Valid() && Invalidated()
      ensures cache.max == old(cache.max) && epoch == old(epoch) + 1
    {
      cache := Lru.Reset(cache);
      mainCatalog, tmsCatalog, fileCatalog, tmsServices, fileLayers := None, None, None, None, None;
      epoch := epoch + 1;
    }

    /** `addQueryParams(additional)`: when some value differs from the current
        one, all pairs are overlaid and the settings are invalidated once;
        otherwise nothing changes. Either way the parameters end up as the
        overlay. */
    method AddQueryParams(additional: Query)
      requires Valid() && D.Valid(additional)
      modifies this`queryParams, this`cache, this`mainCatalog, this`tmsCatalog, this`fileCatalog, this`tmsServices, this`fileLayers, this`epoch
      ensures Valid()
      ensures queryParams == Overlay(old(queryParams), additional)
      ensures (forall k :: k in additional.vals ==> Lookup(old(queryParams), k) == Some(additional.vals[k])) ==>
        unchanged(this)
      ensures !(forall k :: k in additional.vals ==> Lookup(old(queryParams), k) == Some(additional.vals[k])) ==>
        Invalidated() && epoch == old(epoch) + 1 && cache.max == old(cache.max)
    {
      for i := 0 to |additional.keys|
        invariant unchanged(this)
        invariant forall j :: 0 <= j < i ==> Lookup(queryParams, additional.keys[j]) == Some(additional.vals[additional.keys[j]])
      {
        var key := additional.keys[i];
        if Lookup(queryParams, key) != Some(additional.vals[key]) {
          OverlaySpec(queryParams, additional);
          queryParams := Overlay(queryParams, additional);
          InvalidateSettings();
          return;
        }
      }
      OverlayNoChange(queryParams, additional);
    }

    /** `cacheGeoJson(layerId, geoJson)` */
    method CacheGeoJson(layerId: string, geoJson: GeoJson)
      requires Lru.Valid(cache)
      modifies this`cache
      ensures Lru.Valid(cache)
      ensures cache == Lru.Set(old(cache), layerId, geoJson)
    {
      cache := Lru.Set(cache, layerId, geoJson);
    }

    /** `getCachedGeoJson(layerId)`: the cached value, which becomes the most
        recently used. */
    method GetCachedGeoJson(layerId: string) returns (r: Option<GeoJson>)
      requires Lru.Valid(cache)
      modifies this`cache
      ensures Lru.Valid(cache)
      ensures r == Lru.Peek(old(cache), layerId) && cache == Lru.Touch(old(cache), layerId)
    {
      r := Lru.Peek(cache, layerId);
      cache := Lru.Touch(cache, layerId);
    }

    /** What `_getMainCatalog` settles to when awaited with the memo slot
        `memo` and the parameters `params`, and the requests that makes: the
        memoised outcome, without a request, once it has run. */
    function MainCatalogOutcome(memo: Option<Result<seq<CatalogService>, string>>, params: Query)
      : (Result<seq<CatalogService>, string>, seq<string>)
    {
      if memo.Some? then (memo.value, [])
      else if Truthy(manifestServiceUrl) then
        var endpoint := Url.ExtendUrlWithParams(manifestServiceUrl.value, params);
        (TsManifestResult(Answer(remote.mainCatalog, Request(endpoint, params))), [endpoint])
      else (Success(MainCatalogServices(tileApiUrl, fileApiUrl, emsVersion)), [])
    }

    /** What `_getDefaultTMSCatalog` or `_getDefaultFileCatalog` settles to
        when awaited with the memo slots `mainMemo` of the main catalog and
        `memo` of its own, and the parameters `params`, and the requests that
        makes: the main catalog's, then the manifest of the first service of
        `kind`. */
    function CatalogOutcome<T>(mainMemo: Option<Result<seq<CatalogService>, string>>, memo: Option<Result<seq<T>, string>>,
                               kind: string, fetch: Table<seq<T>>, params: Query)
      : (Result<seq<T>, string>, seq<string>)
    {
      if memo.Some? then (memo.value, [])
      else
        var (main, mainRequests) := MainCatalogOutcome(mainMemo, params);
        match main
        case Failure(e) => (Failure(e), mainRequests)
        case Success(services) =>
          match FirstServiceOfType(services, kind)
          case None => (Success([]), mainRequests)
          case Some(s) =>
            (TsManifestResult(Answer(fetch, Request(proxyPath + s.manifest, params))), mainRequests + [proxyPath + s.manifest])
    }

    function TmsCatalogOutcome(mainMemo: Option<Result<seq<CatalogService>, string>>, memo: Option<Result<seq<TmsServiceConfig>, string>>, params: Query)
      : (Result<seq<TmsServiceConfig>, string>, seq<string>)
    {
      CatalogOutcome(mainMemo, memo, "tms", remote.tmsCatalog, params)
    }

    function FileCatalogOutcome(mainMemo: Option<Result<seq<CatalogService>, string>>, memo: Option<Result<seq<FileLayerConfig>, string>>, params: Query)
      : (Result<seq<FileLayerConfig>, string>, seq<string>)
    {
      CatalogOutcome(mainMemo, memo, "file", remote.fileCatalog, params)
    }

    /** The body of `_getMainCatalog` once it runs: the `manifestServiceUrl`
        manifest when one is configured, else the catalog built from the API
        URLs without a request. */
    method LoadMainCatalog() returns (r: Result<seq<CatalogService>, string>)
      modifies this`requests
      ensures !Truthy(manifestServiceUrl) ==>
        r == Success(MainCatalogServices(tileApiUrl, fileApiUrl, emsVersion)) && requests == old(requests)
      ensures Truthy(manifestServiceUrl) ==>
        var endpoint := Url.ExtendUrlWithParams(manifestServiceUrl.value, queryParams);
        requests == old(requests) + [endpoint] && r == TsManifestResult(Answer(remote.mainCatalog, Request(endpoint, queryParams)))
      ensures r == MainCatalogOutcome(None, queryParams).0 && requests == old(requests) + MainCatalogOutcome(None, queryParams).1
    {
      if Truthy(manifestServiceUrl) {
        r := GetManifest(Url.ExtendUrlWithParams(manifestServiceUrl.value, queryParams), remote.mainCatalog);
      } else {
        r := Success(MainCatalogServices(tileApiUrl, fileApiUrl, emsVersion));
      }
    }

    /** `_getMainCatalog`: the `manifestServiceUrl` manifest when one is
        configured, else the catalog built from the API URLs without a request. */
    method GetMainCatalog() returns (r: Result<seq<CatalogService>, string>)
      requires Valid()
      modifies this`mainCatalog, this`requests
      ensures Valid()
      ensures mainCatalog == Some(r)
      ensures old(mainCatalog).Some? ==> r == old(mainCatalog).value && requests == old(requests)
      ensures old(mainCatalog).None? && !Truthy(manifestServiceUrl) ==>
        r == Success(MainCatalogServices(tileApiUrl, fileApiUrl, emsVersion)) && requests == old(requests)
      ensures old(mainCatalog).None? && Truthy(manifestServiceUrl) ==>
        var endpoint := Url.ExtendUrlWithParams(manifestServiceUrl.value, queryParams);
        requests == old(requests) + [endpoint] && r == TsManifestResult(Answer(remote.mainCatalog, Request(endpoint, queryParams)))
      ensures r == MainCatalogOutcome(old(mainCatalog), queryParams).0 && requests == old(requests) + MainCatalogOutcome(old(mainCatalog), queryParams).1
    {
      if mainCatalog.Some? {
        return mainCatalog.value;
      }
      r := LoadMainCatalog();
      assert LoadersConsistent(Some(r), tmsCatalog, fileCatalog, tmsServices, fileLayers);
      mainCatalog := Some(r);
    }

    /** `_getDefaultTMSCatalog`: the manifest of the first `tms` service, or no
        services (and no request) when the catalog has none. */
    method GetDefaultTmsCatalog() returns (r: Result<seq<TmsServiceConfig>, string>)
      requires Valid()
      modifies this`mainCatalog, this`tmsCatalog, this`requests
      ensures Valid()
      ensures tmsCatalog == Some(r) && mainCatalog.Some?
      ensures old(tmsCatalog).Some? ==> r == old(tmsCatalog).value && requests == old(requests) && mainCatalog == old(mainCatalog)
      ensures old(tmsCatalog).None? && mainCatalog.value.Failure? ==> r == Failure(mainCatalog.value.error)
      ensures old(tmsCatalog).None? && mainCatalog.value.Success? ==>
        var mainRequests := MainCatalogOutcome(old(mainCatalog), queryParams).1;
        match FirstServiceOfType(mainCatalog.value.value, "tms")
        case None => r == Success([]) && requests == old(requests) + mainRequests
        case Some(s) =>
          requests == old(requests) + mainRequests + [proxyPath + s.manifest]
          && r == TsManifestResult(Answer(remote.tmsCatalog, Request(proxyPath + s.manifest, queryParams)))
      ensures mainCatalog == Some(MainCatalogOutcome(old(mainCatalog), queryParams).0)
      ensures r == TmsCatalogOutcome(old(mainCatalog), old(tmsCatalog), queryParams).0 && requests == old(requests) + TmsCatalogOutcome(old(mainCatalog), old(tmsCatalog), queryParams).1
    {
      if tmsCatalog.Some? {
        return tmsCatalog.value;
      }
      var catalogue := GetMainCatalog();
      if catalogue.Failure? {
        r := Failure(catalogue.error);
      } else {
        var firstService := FirstServiceOfType(catalogue.value, "tms");
        if firstService.None? {
          r := Success([]);
        } else {
          r := GetManifest(proxyPath + firstService.value.manifest, remote.tmsCatalog);
          ConcatAssoc(old(requests), MainCatalogOutcome(old(mainCatalog), queryParams).1, [proxyPath + firstService.value.manifest]);
        }
      }
      tmsCatalog := Some(r);
    }

    /** `_getDefaultFileCatalog`: the manifest of the first `file` service, or
        no layers (and no request) when the catalog has none. */
    method GetDefaultFileCatalog() returns (r: Result<seq<FileLayerConfig>, string>)
      requires Valid()
      modifies this`mainCatalog, this`fileCatalog, this`requests
      ensures Valid()
      ensures fileCatalog == Some(r) && mainCatalog.Some?
      ensures old(fileCatalog).Some? ==> r == old(fileCatalog).value && requests == old(requests) && mainCatalog == old(mainCatalog)
      ensures old(fileCatalog).None? && mainCatalog.value.Failure? ==> r == Failure(mainCatalog.value.error)
      ensures old(fileCatalog).None? && mainCatalog.value.Success? ==>
        var mainRequests := MainCatalogOutcome(old(mainCatalog), queryParams).1;
        match FirstServiceOfType(mainCatalog.value.value, "file")
        case None => r == Success([]) && requests == old(requests) + mainRequests
        case Some(s) =>
          requests == old(requests) + mainRequests + [proxyPath + s.manifest]
          && r == TsManifestResult(Answer(remote.fileCatalog, Request(proxyPath + s.manifest, queryParams)))
      ensures mainCatalog == Some(MainCatalogOutcome(old(mainCatalog), queryParams).0)
      ensures r == FileCatalogOutcome(old(mainCatalog), old(fileCatalog), queryParams).0 && requests == old(requests) + FileCatalogOutcome(old(mainCatalog), old(fileCatalog), queryParams).1
    {
      if fileCatalog.Some? {
        return fileCatalog.value;
      }
      var catalogue := GetMainCatalog();
      if catalogue.Failure? {
        r := Failure(catalogue.error);
      } else {
        var firstService := FirstServiceOfType(catalogue.value, "file");
        if firstService.None? {
          r := Success([]);
        } else {
          r := GetManifest(proxyPath + firstService.value.manifest, remote.fileCatalog);
          ConcatAssoc(old(requests), MainCatalogOutcome(old(mainCatalog), queryParams).1, [proxyPath + firstService.value.manifest]);
        }
      }
      fileCatalog := Some(r);
    }

    /** One fresh `TMSService` per entry of `configs`, bound to this client. */
    method NewTmsServices(configs: seq<TmsServiceConfig>) returns (services: seq<TMSService>)
      requires RemoteWellFormed(remote)
      ensures |services| == |configs|
      ensures forall j :: 0 <= j < |configs| ==> services[j].config == configs[j] && fresh(services[j])
      ensures forall x :: x in services ==> x.client == this && x.proxyPath == proxyPath
    {
      services := [];
      for i := 0 to |configs|
        invariant |services| == i
        invariant forall j :: 0 <= j < i ==> services[j].config == configs[j] && fresh(services[j])
        invariant forall x :: x in services ==> x.client == this && x.proxyPath == proxyPath
      {
        var x := new TMSService(configs[i], this, proxyPath);
        services := services + [x];
      }
    }

    /** `_loadTMSServices`: one `TMSService` per service of the TMS catalog. */
    method GetTmsServices() returns (r: Result<seq<TMSService>, string>)
      requires Valid()
      modifies this`mainCatalog, this`tmsCatalog, this`tmsServices, this`requests
      ensures Valid()
      ensures tmsServices == Some(r) && tmsCatalog.Some?
      ensures old(tmsServices).Some? ==> r == old(tmsServices).value && requests == old(requests)
      ensures old(tmsServices).None? ==>
        && mainCatalog == Some(MainCatalogOutcome(old(mainCatalog), queryParams).0)
        && tmsCatalog == Some(TmsCatalogOutcome(old(mainCatalog), old(tmsCatalog), queryParams).0)
        && requests == old(requests) + TmsCatalogOutcome(old(mainCatalog), old(tmsCatalog), queryParams).1
      ensures r.Success? <==> tmsCatalog.value.Success?
      ensures r.Success? ==>
        |r.value| == |tmsCatalog.value.value| && forall i :: 0 <= i < |r.value| ==> r.value[i].config == tmsCatalog.value.value[i]
      ensures old(tmsServices).None? && r.Success? ==> forall i :: 0 <= i < |r.value| ==> fresh(r.value[i])
    {
      if tmsServices.Some? {
        return tmsServices.value;
      }
      var catalog := GetDefaultTmsCatalog();
      if catalog.Failure? {
        r := Failure(catalog.error);
      } else {
        var services := NewTmsServices(catalog.value);
        r := Success(services);
      }
      tmsServices := Some(r);
    }

    /** One fresh `FileLayer` per entry of `configs`, bound to this client. */
    method NewFileLayers(configs: seq<FileLayerConfig>) returns (layers: seq<FileLayer>)
      ensures |layers| == |configs|
      ensures forall j :: 0 <= j < |configs| ==> layers[j].config == configs[j] && fresh(layers[j])
      ensures forall x :: x in layers ==> x.client == this && x.proxyPath == proxyPath
    {
      layers := [];
      for i := 0 to |configs|
        invariant |layers| == i
        invariant forall j :: 0 <= j < i ==> layers[j].config == configs[j] && fresh(layers[j])
        invariant forall x :: x in layers ==> x.client == this && x.proxyPath == proxyPath
      {
        var x := new FileLayer(configs[i], this, proxyPath);
        layers := layers + [x];
      }
    }

    /** `_loadFileLayers`: one `FileLayer` per layer of the file catalog. */
    method GetFileLayers() returns (r: Result<seq<FileLayer>, string>)
      requires Valid()
      modifies this`mainCatalog, this`fileCatalog, this`fileLayers, this`requests
      ensures Valid()
      ensures fileLayers == Some(r) && fileCatalog.Some?
      ensures old(fileLayers).Some? ==> r == old(fileLayers).value && requests == old(requests)
      ensures old(fileLayers).None? ==>
        && mainCatalog == Some(MainCatalogOutcome(old(mainCatalog), queryParams).0)
        && fileCatalog == Some(FileCatalogOutcome(old(mainCatalog), old(fileCatalog), queryParams).0)
        && requests == old(requests) + FileCatalogOutcome(old(mainCatalog), old(fileCatalog), queryParams).1
      ensures r.Success? <==> fileCatalog.value.Success?
      ensures r.Success? ==>
        |r.value| == |fileCatalog.value.value| && forall i :: 0 <= i < |r.value| ==> r.value[i].config == fileCatalog.value.value[i]
      ensures old(fileLayers).None? && r.Success? ==> forall i :: 0 <= i < |r.value| ==> fresh(r.value[i])
    {
      if fileLayers.Some? {
        return fileLayers.value;
      }
      var catalog := GetDefaultFileCatalog();
      if catalog.Failure? {
        r := Failure(catalog.error);
      } else {
        var layers := NewFileLayers(catalog.value);
        r := Success(layers);
      }
      fileLayers := Some(r);
    }

    /** `findFileLayerById(id)`: the first file layer that answers to `id`. */
    method FindFileLayerById(id: string) returns (r: Result<Option<FileLayer>, string>)
      requires Valid()
      modifies this`mainCatalog, this`fileCatalog, this`fileLayers, this`requests
      ensures Valid()
      ensures old(fileLayers).Some? ==> fileLayers == old(fileLayers) && requests == old(requests)
      ensures old(fileLayers).None? ==>
        && fileCatalog == Some(FileCatalogOutcome(old(mainCatalog), old(fileCatalog), queryParams).0)
        && requests == old(requests) + FileCatalogOutcome(old(mainCatalog), old(fileCatalog), queryParams).1
      ensures fileLayers.Some? && (r.Success? <==> fileLayers.value.Success?)
      ensures r.Success? && r.value.None? ==> forall l :: l in fileLayers.value.value ==> !l.HasId(id)
      ensures r.Success? && r.value.Some? ==>
        exists i :: (0 <= i < |fileLayers.value.value| && fileLayers.value.value[i] == r.value.value
          && r.value.value.HasId(id) && forall j :: 0 <= j < i ==> !fileLayers.value.value[j].HasId(id))
    {
      var layers := GetFileLayers();
      if layers.Failure? {
        return Failure(layers.error);
      }
      var list := layers.value;
      for i := 0 to |list|
        invariant forall j :: 0 <= j < i ==> !list[j].HasId(id)
      {
        if list[i].HasId(id) {
          return Success(Some(list[i]));
        }
      }
      return Success(None);
    }

    /** `findTMSServiceById(id)`: the first tile service with that id. */
    method FindTmsServiceById(id: string) returns (r: Result<Option<TMSService>, string>)
      requires Valid()
      modifies this`mainCatalog, this`tmsCatalog, this`tmsServices, this`requests
      ensures Valid()
      ensures old(tmsServices).Some? ==> tmsServices == old(tmsServices) && requests == old(requests)
      ensures old(tmsServices).None? ==>
        && tmsCatalog == Some(TmsCatalogOutcome(old(mainCatalog), old(tmsCatalog), queryParams).0)
        && requests == old(requests) + TmsCatalogOutcome(old(mainCatalog), old(tmsCatalog), queryParams).1
      ensures tmsServices.Some? && (r.Success? <==> tmsServices.value.Success?)
      ensures r.Success? && r.value.None? ==> forall s :: s in tmsServices.value.value ==> !s.HasId(id)
      ensures r.Success? && r.value.Some? ==>
        exists i :: (0 <= i < |tmsServices.value.value| && tmsServices.value.value[i] == r.value.value
          && r.value.value.HasId(id) && forall j :: 0 <= j < i ==> !tmsServices.value.value[j].HasId(id))
    {
      var services := GetTmsServices();
      if services.Failure? {
        return Failure(services.error);
      }
      var list := services.value;
      for i := 0 to |list|
        invariant forall j :: 0 <= j < i ==> !list[j].HasId(id)
      {
        if list[i].HasId(id) {
          return Success(Some(list[i]));
        }
      }
      return Success(None);
    }
  }

  // ---------------------------------------------------------------------------
  // FileLayer

  class FileLayer {
    const config: FileLayerConfig
    const client: EMSClient
    const proxyPath: string

    constructor(config: FileLayerConfig, client: EMSClient, proxyPath: string)
      ensures this.config == config && this.client == client && this.proxyPath == proxyPath
    {
      this.config := config;
      this.client := client;
      this.proxyPath := proxyPath;
    }

    /** `hasId(id)` */
    predicate HasId(id: string) {
      FileLayerRules.HasId(config, id)
    }

    /** `getGeoJson()`: a cached layer is answered without a request; otherwise
        the default format is requested and a GeoJSON or TopoJSON answer is
        cached under the layer id. An empty answer or an unknown format type
        gives `None` and leaves the cache alone. */
    method GetGeoJson() returns (r: Result<Option<GeoJson>, string>)
      requires Lru.Valid(client.cache)
      modifies client`cache, client`requests
      ensures Lru.Valid(client.cache)
      ensures Lru.Peek(old(client.cache), config.layerId).Some? ==>
        && r == Success(Lru.Peek(old(client.cache), config.layerId))
        && client.requests == old(client.requests)
        && client.cache == Lru.Touch(old(client.cache), config.layerId)
      ensures Lru.Peek(old(client.cache), config.layerId).None? && DefaultFormat(config.formats).None? ==>
        r.Failure? && client.requests == old(client.requests) && client.cache == old(client.cache)
      ensures Lru.Peek(old(client.cache), config.layerId).None? && DefaultFormat(config.formats).Some? ==>
        var format := DefaultFormat(config.formats).value;
        var url := FormatUrl(proxyPath, client.fileApiUrl, client.queryParams, format);
        var loaded := LoadedGeoJson(format, TsManifestResult(Answer(client.remote.geoJson, Request(url, client.queryParams))));
        && r == loaded
        && client.requests == old(client.requests) + [url]
        && client.cache == (if loaded.Success? && loaded.value.Some? then Lru.Set(old(client.cache), config.layerId, loaded.value.value) else old(client.cache))
    {
      var cached := client.GetCachedGeoJson(config.layerId);
      if cached.Some? {
        return Success(cached);
      }
      var format := DefaultFormat(config.formats);
      if format.None? {
        return Failure("Cannot read properties of undefined (reading 'type')");
      }
      r := FetchGeoJson(format.value);
    }

    /** The part of `getGeoJson()` after a cache miss: request the layer in
        `format` and cache a GeoJSON or TopoJSON answer under the layer id. */
    method FetchGeoJson(format: FileFormat) returns (r: Result<Option<GeoJson>, string>)
      requires Lru.Valid(client.cache)
      modifies client`cache, client`requests
      ensures Lru.Valid(client.cache)
      ensures var url := FormatUrl(proxyPath, client.fileApiUrl, client.queryParams, format);
        && r == LoadedGeoJson(format, TsManifestResult(Answer(client.remote.geoJson, Request(url, client.queryParams))))
        && client.requests == old(client.requests) + [url]
        && client.cache == (if r.Success? && r.value.Some? then Lru.Set(old(client.cache), config.layerId, r.value.value) else old(client.cache))
    {
      var fetchUrl := FormatUrl(proxyPath, client.fileApiUrl, client.queryParams, format);
      var fetched := client.GetManifest(fetchUrl, client.remote.geoJson);
      r := LoadedGeoJson(format, fetched);
      if r.Success? && r.value.Some? {
        client.CacheGeoJson(config.layerId, r.value.value);
      }
    }
  }

  // ---------------------------------------------------------------------------
  // TMSService

  class TMSService {
    const config: TmsServiceConfig
    const client: EMSClient
    const proxyPath: string
    /** The `_.once` loaders: the raster style, the raw vector style and the
        inlined vector style (`Success(None)` is `undefined`). */
    var rasterStyle: Option<Result<Option<RasterStyle>, string>>
    var vectorRaw: Option<Result<Option<VectorStyle>, string>>
    var vectorInlined: Option<Result<Option<VectorStyle>, string>>

    /** The server sends well-formed styles, so the memoised raw style is a
        well-formed object. */
    ghost predicate Valid()
      reads this`vectorRaw
    {
      && RemoteWellFormed(client.remote)
      && (vectorRaw.Some? && vectorRaw.value.Success? && vectorRaw.value.value.Some? ==>
            D.Valid(vectorRaw.value.value.value.sources))
    }

    constructor(config: TmsServiceConfig, client: EMSClient, proxyPath: string)
      requires RemoteWellFormed(client.remote)
      ensures Valid()
      ensures this.config == config && this.client == client && this.proxyPath == proxyPath
      ensures rasterStyle.None? && vectorRaw.None? && vectorInlined.None?
    {
      this.config := config;
      this.client := client;
      this.proxyPath := proxyPath;
      rasterStyle, vectorRaw, vectorInlined := None, None, None;
    }

    /** `hasId(id)` */
    predicate HasId(id: string) {
      config.id == id
    }

    /** `_getStyleUrlForLocale(formatType)` with the client's locale. */
    function StyleUrl(formatType: string): Result<Option<string>, string> {
      StyleUrlForLocale(config.formats, formatType, client.language, DefaultLanguage)
    }

    /** What `_getRasterStyleJson` settles to when awaited with the memo slot
        `memo` and the parameters `params`, and the request that makes: the
        memoised style, without a request, once it has run. */
    function RasterOutcome(memo: Option<Result<Option<RasterStyle>, string>>, params: Query): (Result<Option<RasterStyle>, string>, seq<string>)
    {
      if memo.Some? then (memo.value, [])
      else StyleOutcome(StyleUrl("raster"), client.remote.rasterStyle, params)
    }

    /** A style loader's first run: the selected URL's style, fetched, or
        `None` without a request when the selected style has no URL. */
    function StyleOutcome<T>(url: Result<Option<string>, string>, fetch: Table<T>, params: Query): (Result<Option<T>, string>, seq<string>)
    {
      match url
      case Failure(e) => (Failure(e), [])
      case Success(u) =>
        if !Truthy(u) then (Success(None), [])
        else
          var endpoint := Endpoint(proxyPath, client.tileApiUrl, params, u.value);
          var fetched := TsManifestResult(Answer(fetch, Request(endpoint, params)));
          (if fetched.Success? then Success(Some(fetched.value)) else Failure(fetched.error), [endpoint])
    }

    /** What `_getVectorStyleJsonRaw` settles to when awaited with the memo slot
        `memo` and the parameters `params`, and the request that makes: the
        memoised style, without a request, once it has run. */
    function RawOutcome(memo: Option<Result<Option<VectorStyle>, string>>, params: Query): (Result<Option<VectorStyle>, string>, seq<string>)
    {
      if memo.Some? then (memo.value, [])
      else StyleOutcome(StyleUrl("vector"), client.remote.vectorStyle, params)
    }

    /** `_getRasterStyleJson`: the raster style of the client's locale, `None`
        when the selected style has no URL. */
    method GetRasterStyleJson() returns (r: Result<Option<RasterStyle>, string>)
      modifies this`rasterStyle, client`requests
      ensures rasterStyle == Some(r)
      ensures old(rasterStyle).Some? ==> r == old(rasterStyle).value && client.requests == old(client.requests)
      ensures old(rasterStyle).None? && StyleUrl("raster").Failure? ==>
        r == Failure(StyleUrl("raster").error) && client.requests == old(client.requests)
      ensures old(rasterStyle).None? && StyleUrl("raster").Success? && !Truthy(StyleUrl("raster").value) ==>
        r == Success(None) && client.requests == old(client.requests)
      ensures old(rasterStyle).None? && StyleUrl("raster").Success? && Truthy(StyleUrl("raster").value) ==>
        var endpoint := Endpoint(proxyPath, client.tileApiUrl, client.queryParams, StyleUrl("raster").value.value);
        var fetched := TsManifestResult(Answer(client.remote.rasterStyle, Request(endpoint, client.queryParams)));
        && client.requests == old(client.requests) + [endpoint]
        && r == (if fetched.Success? then Success(Some(fetched.value)) else Failure(fetched.error))
      ensures r == RasterOutcome(old(rasterStyle), client.queryParams).0 && client.requests == old(client.requests) + RasterOutcome(old(rasterStyle), client.queryParams).1
    {
      if rasterStyle.Some? {
        return rasterStyle.value;
      }
      var rasterUrl := StyleUrl("raster");
      if rasterUrl.Failure? {
        r := Failure(rasterUrl.error);
      } else if Truthy(rasterUrl.value) {
        var fetched := client.GetManifest(Endpoint(proxyPath, client.tileApiUrl, client.queryParams, rasterUrl.value.value), client.remote.rasterStyle);
        r := if fetched.Success? then Success(Some(fetched.value)) else Failure(fetched.error);
      } else {
        r := Success(None);
      }
      rasterStyle := Some(r);
    }

    /** `_getVectorStyleJsonRaw`: the vector style of the client's locale,
        `None` when the selected style has no URL. */
    method GetVectorStyleJsonRaw() returns (r: Result<Option<VectorStyle>, string>)
      requires Valid()
      modifies this`vectorRaw, client`requests
      ensures Valid()
      ensures vectorRaw == Some(r)
      ensures r.Success? && r.value.Some? ==> D.Valid(r.value.value.sources)
      ensures old(vectorRaw).Some? ==> r == old(vectorRaw).value && client.requests == old(client.requests)
      ensures old(vectorRaw).None? && StyleUrl("vector").Failure? ==>
        r == Failure(StyleUrl("vector").error) && client.requests == old(client.requests)
      ensures old(vectorRaw).None? && StyleUrl("vector").Success? && !Truthy(StyleUrl("vector").value) ==>
        r == Success(None) && client.requests == old(client.requests)
      ensures old(vectorRaw).None? && StyleUrl("vector").Success? && Truthy(StyleUrl("vector").value) ==>
        var endpoint := Endpoint(proxyPath, client.tileApiUrl, client.queryParams, StyleUrl("vector").value.value);
        var fetched := TsManifestResult(Answer(client.remote.vectorStyle, Request(endpoint, client.queryParams)));
        && client.requests == old(client.requests) + [endpoint]
        && r == (if fetched.Success? then Success(Some(fetched.value)) else Failure(fetched.error))
      ensures r == RawOutcome(old(vectorRaw), client.queryParams).0 && client.requests == old(client.requests) + RawOutcome(old(vectorRaw), client.queryParams).1
    {
      if vectorRaw.Some? {
        return vectorRaw.value;
      }
      var vectorUrl := StyleUrl("vector");
      if vectorUrl.Failure? {
        r := Failure(vectorUrl.error);
      } else if Truthy(vectorUrl.value) {
        var endpoint := Endpoint(proxyPath, client.tileApiUrl, client.queryParams, vectorUrl.value.value);
        var fetched := client.GetManifest(endpoint, client.remote.vectorStyle);
        r := if fetched.Success? then Success(Some(fetched.value)) else Failure(fetched.error);
      } else {
        r := Success(None);
      }
      vectorRaw := Some(r);
    }

    /** The body of the `_getVectorStyleJsonInlined` loop for the source `name`. */
    method InlineNext(sources: Dict<Source>, name: string, inlined: Dict<Source>, fetch: Table<Source>, apiUrl: string, params: Query)
      returns (next: Result<Dict<Source>, string>, ghost more: seq<string>)
      requires name in sources.vals
      requires fetch == client.remote.source && apiUrl == client.tileApiUrl && params == client.queryParams
      modifies client`requests
      ensures (next, more) == InlineStep(inlined, name, sources, fetch, proxyPath, apiUrl, params)
      ensures client.requests == old(client.requests) + more
    {
      var url := sources.vals[name].url;
      if !Truthy(url) {
        return Success(inlined), [];
      }
      var endpoint := Endpoint(proxyPath, apiUrl, params, url.value);
      var fetched := client.GetManifest(endpoint, fetch);
      more := [endpoint];
      next := if fetched.Failure? then Failure(fetched.error)
        else Success(Put(inlined, name, InlineSource(fetched.value, proxyPath, apiUrl, params)));
    }

    /** The loop of `_getVectorStyleJsonInlined` over the raw style's sources,
        in enumeration order: each source with a URL is fetched and inlined. */
    method InlineSources(sources: Dict<Source>) returns (res: Result<Dict<Source>, string>)
      requires forall i :: 0 <= i < |sources.keys| ==> sources.keys[i] in sources.vals
      modifies client`requests
      ensures var (expected, reqs) := InlineLoop(sources.keys, sources, client.remote.source, proxyPath, client.tileApiUrl, client.queryParams);
        res == expected && client.requests == old(client.requests) + reqs
    {
      var names := sources.keys;
      var fetch, apiUrl, params := client.remote.source, client.tileApiUrl, client.queryParams;
      var inlined: Dict<Source> := Empty();
      assert names[..0] == [];
      InlineFromRest(names, 0, sources, fetch, proxyPath, apiUrl, params, inlined, []);
      ghost var reqs: seq<string> := [];
      var i := 0;
      while i < |names|
        invariant 0 <= i <= |names|
        invariant client.requests == old(client.requests) + reqs
        invariant var (r, rest) := InlineFrom(names, i, inlined, sources, fetch, proxyPath, apiUrl, params);
          InlineLoop(names, sources, fetch, proxyPath, apiUrl, params) == (r, reqs + rest)
      {
        var next, more := InlineNext(sources, names[i], inlined, fetch, apiUrl, params);
        InlineAdvance(names, i, sources, fetch, proxyPath, apiUrl, params, inlined, reqs, next, more);
        ConcatAssoc(old(client.requests), reqs, more);
        if next.Failure? {
          return next;
        }
        reqs := reqs + more;
        inlined := next.value;
        i := i + 1;
      }
      res := Success(inlined);
    }

    /** The part of `_getVectorStyleJsonInlined` after the raw style is loaded. */
    method InlineLoaded(raw: Result<Option<VectorStyle>, string>) returns (r: Result<Option<VectorStyle>, string>)
      requires raw.Success? && raw.value.Some? ==> D.Valid(raw.value.value.sources)
      modifies client`requests
      ensures var (expected, reqs) := InlineRaw(raw, client.remote.source, proxyPath, client.tileApiUrl, client.queryParams);
        r == expected && client.requests == old(client.requests) + reqs
    {
      if raw.Failure? {
        r := Failure(raw.error);
      } else if raw.value.None? {
        r := Success(None);
      } else {
        var style := raw.value.value;
        var sources := InlineSources(style.sources);
        r := match sources
          case Failure(e) => Failure(e)
          case Success(inlined) =>
            Success(Some(VectorStyle(inlined, Some(StylePath(proxyPath, client.tileApiUrl, style.sprite)),
                                     Some(StylePath(proxyPath, client.tileApiUrl, style.glyphs)))));
      }
    }

    /** `_getVectorStyleJsonInlined`: the raw style with every source that has
        a URL replaced by the fetched source, and the sprite and glyph paths
        proxied; the first failing request fails the whole style. */
    method GetVectorStyleJsonInlined() returns (r: Result<Option<VectorStyle>, string>)
      requires Valid()
      modifies this`vectorRaw, this`vectorInlined, client`requests
      ensures Valid()
      ensures vectorInlined == Some(r)
      ensures old(vectorRaw).Some? ==> vectorRaw == old(vectorRaw)
      ensures old(vectorInlined).Some? ==> r == old(vectorInlined).value && client.requests == old(client.requests)
      ensures old(vectorInlined).None? ==> vectorRaw == Some(RawOutcome(old(vectorRaw), client.queryParams).0)
      ensures old(vectorInlined).None? && vectorRaw.Some? ==>
        var (expected, reqs) := InlineRaw(vectorRaw.value, client.remote.source, proxyPath, client.tileApiUrl, client.queryParams);
        r == expected && client.requests == old(client.requests) + RawOutcome(old(vectorRaw), client.queryParams).1 + reqs
    {
      if vectorInlined.Some? {
        return vectorInlined.value;
      }
      r := LoadInlined();
    }

    /** The first call of `_getVectorStyleJsonInlined`: load the raw style,
        inline it and memoise the outcome. */
    method LoadInlined() returns (r: Result<Option<VectorStyle>, string>)
      requires Valid() && vectorInlined.None?
      modifies this`vectorRaw, this`vectorInlined, client`requests
      ensures Valid() && vectorInlined == Some(r) && vectorRaw == Some(RawOutcome(old(vectorRaw), client.queryParams).0)
      ensures old(vectorRaw).Some? ==> vectorRaw == old(vectorRaw)
      ensures var (expected, reqs) := InlineRaw(vectorRaw.value, client.remote.source, proxyPath, client.tileApiUrl, client.queryParams);
        r == expected && client.requests == old(client.requests) + RawOutcome(old(vectorRaw), client.queryParams).1 + reqs
    {
      ghost var pending := RawOutcome(vectorRaw, client.queryParams).1;
      var raw := GetVectorStyleJsonRaw();
      assert vectorRaw == Some(raw) && client.requests == old(client.requests) + pending;
      r := InlineLoaded(raw);
      vectorInlined := Some(r);
    }

    /** `getUrlTemplate()`: the first raster tile, proxied, made absolute and
        extended; `''` when the locale's raster style has no URL. */
    method GetUrlTemplate() returns (r: Result<string, string>)
      modifies this`rasterStyle, client`requests
      ensures rasterStyle == Some(RasterOutcome(old(rasterStyle), client.queryParams).0) && client.requests == old(client.requests) + RasterOutcome(old(rasterStyle), client.queryParams).1
      ensures old(rasterStyle).Some? ==> rasterStyle == old(rasterStyle) && client.requests == old(client.requests)
      ensures rasterStyle.value.Failure? ==> r == Failure(rasterStyle.value.error)
      ensures rasterStyle.value == Success(None) ==> r == Success("")
      ensures rasterStyle.value.Success? && rasterStyle.value.value.Some? ==>
        r == Success(Endpoint(proxyPath, client.tileApiUrl, client.queryParams, rasterStyle.value.value.value.firstTile))
    {
      var tileJson := GetRasterStyleJson();
      r := match tileJson
        case Failure(e) => Failure(e)
        case Success(None) => Success("")
        case Success(Some(style)) => Success(Endpoint(proxyPath, client.tileApiUrl, client.queryParams, style.firstTile));
    }

    /** `getUrlTemplateForVector(sourceId)`: pops the last tile of the source
        from the memoised inlined style; `loaded` is that style before the pop. */
    method GetUrlTemplateForVector(sourceId: string) returns (r: Result<string, string>, ghost loaded: Result<Option<VectorStyle>, string>)
      requires Valid()
      modifies this`vectorRaw, this`vectorInlined, client`requests
      ensures Valid()
      ensures old(vectorInlined).Some? ==> loaded == old(vectorInlined).value && client.requests == old(client.requests)
      ensures old(vectorInlined).None? ==> vectorRaw == Some(RawOutcome(old(vectorRaw), client.queryParams).0)
      ensures old(vectorInlined).None? ==>
        var (expected, reqs) := InlineRaw(vectorRaw.value, client.remote.source, proxyPath, client.tileApiUrl, client.queryParams);
        loaded == expected && client.requests == old(client.requests) + RawOutcome(old(vectorRaw), client.queryParams).1 + reqs
      ensures loaded.Failure? ==> r == Failure(loaded.error) && vectorInlined == Some(loaded)
      ensures loaded == Success(None) ==> r == Success("") && vectorInlined == Some(loaded)
      ensures loaded.Success? && loaded.value.Some? ==>
        var (url, popped) := VectorTemplate(loaded.value.value, sourceId, proxyPath, client.tileApiUrl, client.queryParams);
        r == Success(url) && vectorInlined == Some(Success(Some(popped)))
    {
      var tileJson := GetVectorStyleJsonInlined();
      loaded := tileJson;
      match tileJson
      case Failure(e) =>
        r := Failure(e);
      case Success(None) =>
        r := Success("");
      case Success(Some(style)) =>
        var (url, popped) := VectorTemplate(style, sourceId, proxyPath, client.tileApiUrl, client.queryParams);
        vectorInlined := Some(Success(Some(popped)));
        r := Success(url);
    }

    /** `_getSpriteSheetRootPath()`: the raw style's sprite, proxied and made
        absolute; `''` without a vector style or a sprite. */
    method GetSpriteSheetRootPath() returns (r: Result<string, string>)
      requires Valid()
      modifies this`vectorRaw, client`requests
      ensures Valid()
      ensures vectorRaw == Some(RawOutcome(old(vectorRaw), client.queryParams).0) && client.requests == old(client.requests) + RawOutcome(old(vectorRaw), client.queryParams).1
      ensures old(vectorRaw).Some? ==> vectorRaw == old(vectorRaw) && client.requests == old(client.requests)
      ensures vectorRaw.value.Failure? ==> r == Failure(vectorRaw.value.error)
      ensures vectorRaw.value == Success(None) ==> r == Success("")
      ensures vectorRaw.value.Success? && vectorRaw.value.value.Some? ==>
        r == Success(StylePath(proxyPath, client.tileApiUrl, vectorRaw.value.value.value.sprite))
    {
      var style := GetVectorStyleJsonRaw();
      r := match style
        case Failure(e) => Failure(e)
        case Success(None) => Success("")
        case Success(Some(s)) => Success(StylePath(proxyPath, client.tileApiUrl, s.sprite));
    }

    /** `_getUrlTemplateForGlyphs()`: the raw style's glyphs, proxied and made
        absolute; `''` without a vector style or glyphs. */
    method GetUrlTemplateForGlyphs() returns (r: Result<string, string>)
      requires Valid()
      modifies this`vectorRaw, client`requests
      ensures Valid()
      ensures vectorRaw == Some(RawOutcome(old(vectorRaw), client.queryParams).0) && client.requests == old(client.requests) + RawOutcome(old(vectorRaw), client.queryParams).1
      ensures old(vectorRaw).Some? ==> vectorRaw == old(vectorRaw) && client.requests == old(client.requests)
      ensures vectorRaw.value.Failure? ==> r == Failure(vectorRaw.value.error)
      ensures vectorRaw.value == Success(None) ==> r == Success("")
      ensures vectorRaw.value.Success? && vectorRaw.value.value.Some? ==>
        r == Success(StylePath(proxyPath, client.tileApiUrl, vectorRaw.value.value.value.glyphs))
    {
      var style := GetVectorStyleJsonRaw();
      r := match style
        case Failure(e) => Failure(e)
        case Success(None) => Success("")
        case Success(Some(s)) => Success(StylePath(proxyPath, client.tileApiUrl, s.glyphs));
    }

    /** `getSpriteSheetJsonPath(isRetina)`: the sprite root with the optional
        `@2x` suffix and `.json`; `''` without a sprite. */
    method GetSpriteSheetJsonPath(isRetina: bool) returns (r: Result<string, string>)
      requires Valid()
      modifies this`vectorRaw, client`requests
      ensures Valid()
      ensures vectorRaw == Some(RawOutcome(old(vectorRaw), client.queryParams).0) && client.requests == old(client.requests) + RawOutcome(old(vectorRaw), client.queryParams).1
      ensures old(vectorRaw).Some? ==> vectorRaw == old(vectorRaw) && client.requests == old(client.requests)
      ensures vectorRaw.value.Failure? ==> r == Failure(vectorRaw.value.error)
      ensures vectorRaw.value.Success? ==>
        var root := if vectorRaw.value.value.Some? then StylePath(proxyPath, client.tileApiUrl, vectorRaw.value.value.value.sprite) else "";
        r == Success(SpriteSheetPath(root, isRetina, ".json"))
    {
      var root := GetSpriteSheetRootPath();
      r := match root
        case Failure(e) => Failure(e)
        case Success(path) => Success(SpriteSheetPath(path, isRetina, ".json"));
    }

    /** `getSpriteSheetPngPath(isRetina)`: the sprite root with the optional
        `@2x` suffix and `.png`; `''` without a sprite. */
    method GetSpriteSheetPngPath(isRetina: bool) returns (r: Result<string, string>)
      requires Valid()
      modifies this`vectorRaw, client`requests
      ensures Valid()
      ensures vectorRaw == Some(RawOutcome(old(vectorRaw), client.queryParams).0) && client.requests == old(client.requests) + RawOutcome(old(vectorRaw), client.queryParams).1
      ensures old(vectorRaw).Some? ==> vectorRaw == old(vectorRaw) && client.requests == old(client.requests)
      ensures vectorRaw.value.Failure? ==> r == Failure(vectorRaw.value.error)
      ensures vectorRaw.value.Success? ==>
        var root := if vectorRaw.value.value.Some? then StylePath(proxyPath, client.tileApiUrl, vectorRaw.value.value.value.sprite) else "";
        r == Success(SpriteSheetPath(root, isRetina, ".png"))
    {
      var root := GetSpriteSheetRootPath();
      r := match root
        case Failure(e) => Failure(e)
        case Success(path) => Success(SpriteSheetPath(path, isRetina, ".png"));
    }
  }
}
