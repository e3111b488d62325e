/** The stateful part of the legacy JavaScript client (src/ems_client.js and
    src/tms_service.js): its `EMSClient`, which has no GeoJSON cache, and its
    `TMSService`, which fetches every source of a vector style and stamps the
    HTML attribution on each. Loaders are `Option` slots as in the TypeScript
    model, and every `getManifest` call is logged in `requests`. */
module EmsClientJs {
  import opened Wrappers
  import opened Strings
  import opened Dict
  import D = Dict
  import opened Url
  import opened Catalog
  import opened EmsService
  import opened FileLayerRules
  import opened TmsRules
  import opened LegacyRules
  import opened Fetch

  // ---------------------------------------------------------------------------
  // The legacy inlining loop, as a function of the raw style

  /** `extendUrlWithParams(proxyPath + _getAbsoluteUrl(url))`, or the error of
      resolving an `undefined` URL against a tile API. */
  function LegacyEndpoint(proxyPath: string, tileApiUrl: string, params: Query, url: Option<string>): Result<string, string>
  {
    match LegacyProxiedUrl(proxyPath, tileApiUrl, url)
    case Failure(e) => Failure(e)
    case Success(u) => Success(ExtendUrlWithParams(u, params))
  }

  /** The source requested from `endpoint`, inlined: the request's error, the
      error of a source without tiles, or the source with the HTML attribution. */
  function LegacyFetchSource(endpoint: string, fetch: Table<Source>, html: string,
                             proxyPath: string, tileApiUrl: string, params: Query): Result<Source, string>
  {
    match JsManifestResult(endpoint, Answer(fetch, Request(endpoint, params)))
    case Failure(e) => Failure(e)
    case Success(fetched) => LegacyInlineSource(fetched, html, proxyPath, tileApiUrl, params)
  }

  /** What one iteration of the legacy loop makes of a raw source: the inlined
      source or the error that stops the loop, and the endpoints requested. */
  type Outcome = (Result<Source, string>, seq<string>)

  /** The iteration on a raw source: every source is requested, whatever its
      URL, and the answer is inlined with the HTML attribution. */
  function LegacySourceOutcome(source: Source, fetch: Table<Source>, html: string,
                               proxyPath: string, tileApiUrl: string, params: Query): (r: Outcome)
    ensures r.0.Success? ==>
      && LegacyEndpoint(proxyPath, tileApiUrl, params, source.url).Success?
      && r.1 == [LegacyEndpoint(proxyPath, tileApiUrl, params, source.url).value]
      && r.0 == LegacyFetchSource(r.1[0], fetch, html, proxyPath, tileApiUrl, params)
      && r.0.value.attribution == Some(html)
  {
    match LegacyEndpoint(proxyPath, tileApiUrl, params, source.url)
    case Failure(e) => (Failure(e), [])
    case Success(endpoint) => (LegacyFetchSource(endpoint, fetch, html, proxyPath, tileApiUrl, params), [endpoint])
  }

  /** The iteration of each source named in `names`; no iteration depends on
      the sources inlined before it. */
  function LegacyOutcomesOver(names: seq<string>, sources: Dict<Source>, fetch: Table<Source>, html: string,
                              proxyPath: string, tileApiUrl: string, params: Query): map<string, Outcome>
    decreases |names|
  {
    if names == [] then map[]
    else
      var n := names[|names| - 1];
      var init := LegacyOutcomesOver(names[..|names| - 1], sources, fetch, html, proxyPath, tileApiUrl, params);
      if n in sources.vals then init[n := LegacySourceOutcome(sources.vals[n], fetch, html, proxyPath, tileApiUrl, params)]
      else init
  }

  /** The iteration of each source of the style. */
  function LegacyOutcomes(sources: Dict<Source>, fetch: Table<Source>, html: string,
                          proxyPath: string, tileApiUrl: string, params: Query): map<string, Outcome>
  {
    LegacyOutcomesOver(sources.keys, sources, fetch, html, proxyPath, tileApiUrl, params)
  }

  /** The iterations are those of the named sources that have a value, each
      one made from its own raw source. */
  lemma {:induction false} LegacyOutcomesOverAt(names: seq<string>, sources: Dict<Source>, fetch: Table<Source>, html: string,
                                                proxyPath: string, tileApiUrl: string, params: Query, n: string)
    ensures var outcomes := LegacyOutcomesOver(names, sources, fetch, html, proxyPath, tileApiUrl, params);
      && (n in outcomes <==> n in names && n in sources.vals)
      && (n in outcomes ==> outcomes[n] == LegacySourceOutcome(sources.vals[n], fetch, html, proxyPath, tileApiUrl, params))
    decreases |names|
  {
    if names != [] {
      var init := names[..|names| - 1];
      LegacyOutcomesOverAt(init, sources, fetch, html, proxyPath, tileApiUrl, params, n);
      assert names == init + [names[|names| - 1]];
    }
  }

  /** `outcomes` holds the iteration of every source of `sources`. The
      quantifier only fires where an iteration is named, so the loop that
      passes this fact along never unfolds one. */
  ghost predicate OutcomesMatch(outcomes: map<string, Outcome>, sources: Dict<Source>, fetch: Table<Source>, html: string,
                                proxyPath: string, tileApiUrl: string, params: Query)
  {
    forall n {:trigger LegacySourceOutcome(sources.vals[n], fetch, html, proxyPath, tileApiUrl, params)} ::
      n in sources.vals ==> n in outcomes && outcomes[n] == LegacySourceOutcome(sources.vals[n], fetch, html, proxyPath, tileApiUrl, params)
  }

  /** The iterations of a well-formed style are those of its sources. */
  lemma LegacyOutcomesMatch(sources: Dict<Source>, fetch: Table<Source>, html: string,
                            proxyPath: string, tileApiUrl: string, params: Query)
    requires forall n :: n in sources.vals ==> n in sources.keys
    ensures OutcomesMatch(LegacyOutcomes(sources, fetch, html, proxyPath, tileApiUrl, params), sources, fetch, html, proxyPath, tileApiUrl, params)
  {
    forall n | n in sources.vals
      ensures var outcomes := LegacyOutcomes(sources, fetch, html, proxyPath, tileApiUrl, params);
        n in outcomes && outcomes[n] == LegacySourceOutcome(sources.vals[n], fetch, html, proxyPath, tileApiUrl, params)
    {
      LegacyOutcomesOverAt(sources.keys, sources, fetch, html, proxyPath, tileApiUrl, params, n);
    }
  }

  /** One iteration of the legacy loop on the source `name`. */
  function LegacyInlineStep(acc: Dict<Source>, name: string, outcomes: map<string, Outcome>): (Result<Dict<Source>, string>, seq<string>)
  {
    if name !in outcomes then (Success(acc), [])
    else
      var (src, more) := outcomes[name];
      (if src.Failure? then Failure(src.error) else Success(Put(acc, name, src.value)), more)
  }

  /** The legacy `_getVectorStyleJsonInlined` loop over `names`: the inlined
      sources, or the error that stopped it, and the endpoints requested. */
  function LegacyInlineLoop(names: seq<string>, outcomes: map<string, Outcome>): (Result<Dict<Source>, string>, seq<string>)
    decreases |names|
  {
    if names == [] then (Success(Empty()), [])
    else
      var (acc, reqs) := LegacyInlineLoop(names[..|names| - 1], outcomes);
      if acc.Failure? then (acc, reqs)
      else
        var (res, more) := LegacyInlineStep(acc.value, names[|names| - 1], outcomes);
        (res, reqs + more)
  }

  /** A completed legacy loop holds every source of the style, in the style's
      order: there is no URL guard. */
  lemma {:induction false} LegacyInlineLoopKeys(names: seq<string>, outcomes: map<string, Outcome>)
    requires NoDup(names)
    requires forall i :: 0 <= i < |names| ==> names[i] in outcomes
    ensures var res := LegacyInlineLoop(names, outcomes).0;
      res.Success? ==> Valid(res.value) && res.value.keys == names
    decreases |names|
  {
    if names != [] {
      var init := names[..|names| - 1];
      var n := names[|names| - 1];
      NoDupLast(names);
      LegacyInlineLoopKeys(init, outcomes);
      var acc := LegacyInlineLoop(init, outcomes).0;
      if acc.Success? && outcomes[n].0.Success? {
        PutSpec(acc.value, n, outcomes[n].0.value);
      }
    }
  }

  /** A completed legacy loop made the requests of its iterations, one per
      name, in order, when every successful iteration makes one request. */
  lemma {:induction false} LegacyInlineLoopRequests(names: seq<string>, outcomes: map<string, Outcome>)
    requires forall i :: 0 <= i < |names| ==> names[i] in outcomes
    requires forall n :: n in outcomes && outcomes[n].0.Success? ==> |outcomes[n].1| == 1
    ensures var (res, reqs) := LegacyInlineLoop(names, outcomes);
      res.Success? ==>
        && |reqs| == |names|
        && forall i :: 0 <= i < |names| ==> outcomes[names[i]].0.Success? && outcomes[names[i]].1 == [reqs[i]]
    decreases |names|
  {
    if names != [] {
      var init := names[..|names| - 1];
      var n := names[|names| - 1];
      LegacyInlineLoopRequests(init, outcomes);
      var (res, reqs) := LegacyInlineLoop(names, outcomes);
      var (acc, reqs0) := LegacyInlineLoop(init, outcomes);
      if res.Success? {
        assert acc.Success? && outcomes[n].0.Success?;
        assert reqs == reqs0 + outcomes[n].1;
        forall i | 0 <= i < |names|
          ensures outcomes[names[i]].0.Success? && outcomes[names[i]].1 == [reqs[i]]
        {
          if i < |init| {
            assert names[i] == init[i] && reqs[i] == reqs0[i];
          }
        }
      }
    }
  }

  /** Each source of a completed legacy loop is the one its iteration made:
      the fetched source with its tiles rewritten and the HTML attribution. */
  lemma {:induction false} LegacyInlineLoopValues(names: seq<string>, outcomes: map<string, Outcome>)
    ensures var res := LegacyInlineLoop(names, outcomes).0;
      res.Success? ==> forall n :: n in res.value.vals ==> n in outcomes && outcomes[n].0 == Success(res.value.vals[n])
    decreases |names|
  {
    if names != [] {
      LegacyInlineLoopValues(names[..|names| - 1], outcomes);
    }
  }

  /** The loop over one more name is one more step of the loop so far. */
  lemma LegacyInlineLoopExtend(names: seq<string>, i: nat, outcomes: map<string, Outcome>, acc: Dict<Source>, reqs: seq<string>)
    requires i < |names|
    requires LegacyInlineLoop(names[..i], outcomes) == (Success(acc), reqs)
    ensures var (res, more) := LegacyInlineStep(acc, names[i], outcomes);
      LegacyInlineLoop(names[..i + 1], outcomes) == (res, reqs + more)
  {
    var post := names[..i + 1];
    assert post[..|post| - 1] == names[..i] && post[|post| - 1] == names[i];
  }

  /** Once a step of the legacy loop has failed, the later sources are neither
      requested nor inlined. */
  lemma {:induction false} LegacyInlineLoopStopsAtFailure(names: seq<string>, k: nat, outcomes: map<string, Outcome>)
    requires k <= |names|
    requires LegacyInlineLoop(names[..k], outcomes).0.Failure?
    ensures LegacyInlineLoop(names, outcomes) == LegacyInlineLoop(names[..k], outcomes)
    decreases |names| - k
  {
    if k < |names| {
      var init := names[..|names| - 1];
      assert init[..k] == names[..k];
      LegacyInlineLoopStopsAtFailure(init, k, outcomes);
    } else {
      assert names[..k] == names;
    }
  }

  /** The rest of the legacy loop from position `i` on, with the sources
      inlined so far: how the loop body sees it. */
  function LegacyInlineFrom(names: seq<string>, i: nat, acc: Dict<Source>, outcomes: map<string, Outcome>): (Result<Dict<Source>, string>, seq<string>)
    requires i <= |names|
    decreases |names| - i
  {
    if i == |names| then (Success(acc), [])
    else
      var (res, more) := LegacyInlineStep(acc, names[i], outcomes);
      if res.Failure? then (res, more)
      else
        var (r, rest) := LegacyInlineFrom(names, i + 1, res.value, outcomes);
        (r, more + rest)
  }

  /** Running the first `i` steps and then the rest is running the whole loop. */
  lemma {:induction false} LegacyInlineFromRest(names: seq<string>, i: nat, outcomes: map<string, Outcome>, acc: Dict<Source>, reqs: seq<string>)
    requires i <= |names|
    requires LegacyInlineLoop(names[..i], outcomes) == (Success(acc), reqs)
    ensures var (r, rest) := LegacyInlineFrom(names, i, acc, outcomes);
      LegacyInlineLoop(names, outcomes) == (r, reqs + rest)
    decreases |names| - i
  {
    if i == |names| {
      assert names[..i] == names;
      assert reqs + [] == reqs;
    } else {
      LegacyInlineLoopExtend(names, i, outcomes, acc, reqs);
      var (res, more) := LegacyInlineStep(acc, names[i], outcomes);
      if res.Failure? {
        LegacyInlineLoopStopsAtFailure(names, i + 1, outcomes);
      } else {
        LegacyInlineFromRest(names, i + 1, outcomes, res.value, reqs + more);
        ConcatAssoc(reqs, more, LegacyInlineFrom(names, i + 1, res.value, outcomes).1);
      }
    }
  }

  /** One step of the loop, from position `i`: a failing step ends the loop
      with its failure, a successful one leaves the rest of the loop from
      `i + 1` on the new accumulator. */
  lemma LegacyInlineAdvance(names: seq<string>, i: nat, outcomes: map<string, Outcome>, acc: Dict<Source>, reqs: seq<string>,
                            next: Result<Dict<Source>, string>, more: seq<string>)
    requires i < |names| && (next, more) == LegacyInlineStep(acc, names[i], outcomes)
    requires var (r, rest) := LegacyInlineFrom(names, i, acc, outcomes);
      LegacyInlineLoop(names, outcomes) == (r, reqs + rest)
    ensures next.Failure? ==> LegacyInlineLoop(names, outcomes) == (next, reqs + more)
    ensures next.Success? ==> var (r, rest) := LegacyInlineFrom(names, i + 1, next.value, outcomes);
      LegacyInlineLoop(names, outcomes) == (r, (reqs + more) + rest)
  {
    if next.Success? {
      ConcatAssoc(reqs, more, LegacyInlineFrom(names, i + 1, next.value, outcomes).1);
    }
  }

  /** The legacy inlined style: the raw style with the sources of the loop and
      the sprite and glyphs proxied and made absolute. The second component
      is the endpoints requested. */
  function LegacyInlinedStyle(style: VectorStyle, fetch: Table<Source>, html: string,
                              proxyPath: string, tileApiUrl: string, params: Query): (Result<VectorStyle, string>, seq<string>)
  {
    var (res, reqs) := LegacyInlineLoop(style.sources.keys, LegacyOutcomes(style.sources, fetch, html, proxyPath, tileApiUrl, params));
    if res.Failure? then (Failure(res.error), reqs)
    else
      var sprite := LegacyProxiedUrl(proxyPath, tileApiUrl, style.sprite);
      var glyphs := LegacyProxiedUrl(proxyPath, tileApiUrl, style.glyphs);
      if sprite.Failure? then (Failure(sprite.error), reqs)
      else if glyphs.Failure? then (Failure(glyphs.error), reqs)
      else (Success(VectorStyle(res.value, Some(sprite.value), Some(glyphs.value))), reqs)
  }

  /** A legacy inlined style holds every source of the raw style, in the same
      order and each with the HTML attribution, and its endpoints are those
      of the raw sources, each requested once, in order. */
  lemma LegacyInlinedStyleSpec(style: VectorStyle, fetch: Table<Source>, html: string,
                               proxyPath: string, tileApiUrl: string, params: Query)
    requires D.Valid(style.sources)
    ensures var (r, reqs) := LegacyInlinedStyle(style, fetch, html, proxyPath, tileApiUrl, params);
      r.Success? ==>
        && D.Valid(r.value.sources) && r.value.sources.keys == style.sources.keys
        && (forall n :: n in r.value.sources.vals ==> r.value.sources.vals[n].attribution == Some(html))
        && |reqs| == |style.sources.keys|
        && (forall i :: 0 <= i < |reqs| ==>
              LegacyEndpoint(proxyPath, tileApiUrl, params, style.sources.vals[style.sources.keys[i]].url) == Success(reqs[i]))
  {
    var sources := style.sources;
    var names := sources.keys;
    var outcomes := LegacyOutcomes(sources, fetch, html, proxyPath, tileApiUrl, params);
    forall n | n in outcomes
      ensures n in sources.vals && outcomes[n] == LegacySourceOutcome(sources.vals[n], fetch, html, proxyPath, tileApiUrl, params)
    {
      LegacyOutcomesOverAt(names, sources, fetch, html, proxyPath, tileApiUrl, params, n);
    }
    forall i | 0 <= i < |names|
      ensures names[i] in outcomes
    {
      LegacyOutcomesOverAt(names, sources, fetch, html, proxyPath, tileApiUrl, params, names[i]);
    }
    LegacyInlineLoopKeys(names, outcomes);
    LegacyInlineLoopRequests(names, outcomes);
    LegacyInlineLoopValues(names, outcomes);
  }

  /** The legacy `_getVectorStyleJsonInlined` on the outcome of the raw style:
      a failure is passed on without a request. */
  function LegacyInlineRaw(raw: Result<VectorStyle, string>, fetch: Table<Source>, html: string,
                           proxyPath: string, tileApiUrl: string, params: Query): (Result<VectorStyle, string>, seq<string>)
  {
    if raw.Failure? then (Failure(raw.error), [])
    else LegacyInlinedStyle(raw.value, fetch, html, proxyPath, tileApiUrl, params)
  }

  /** The endpoint of the style of a type for the client's locale: the error
      of `_getStyleUrlForLocale`, or its URL (perhaps `undefined`) resolved. */
  function LegacyStyleEndpoint(formats: seq<TmsFormat>, formatType: string, language: string,
                               proxyPath: string, tileApiUrl: string, params: Query): Result<string, string>
  {
    match StyleUrlForLocale(formats, formatType, language, DefaultLanguage)
    case Failure(e) => Failure(e)
    case Success(url) => LegacyEndpoint(proxyPath, tileApiUrl, params, url)
  }

  // ---------------------------------------------------------------------------
  // EMSClient

  class EMSClient {
    /** The app version; an `undefined` one is sent as an empty parameter. */
    const appVersion: string
    const manifestServiceUrl: Option<string>
    const tileApiUrl: string
    const fileApiUrl: string
    const emsVersion: string
    const landingPageUrl: string
    const language: string
    const proxyPath: string
    const sanitizer: string -> string
    const remote: Remote
    var queryParams: Query
    var mainCatalog: Option<Result<seq<CatalogService>, string>>
    var tmsCatalog: Option<Result<seq<TmsServiceConfig>, string>>
    var fileCatalog: Option<Result<seq<FileLayerConfig>, string>>
    var tmsServices: Option<Result<seq<TMSService>, string>>
    /** The configurations the file layers are built from. */
    var fileLayers: Option<Result<seq<FileLayerConfig>, string>>
    /** The endpoints passed to `getManifest`, in order. */
    var requests: seq<string>
    /** How many times `_invalidateSettings` has run since construction. */
    var epoch: nat

    ghost predicate Valid()
      reads this`queryParams, this`mainCatalog, this`tmsCatalog, this`fileCatalog, this`tmsServices, this`fileLayers
    {
      D.Valid(queryParams) && RemoteWellFormed(remote) && LoadersConsistent(mainCatalog, tmsCatalog, fileCatalog, tmsServices, fileLayers)
    }

    /** A loader runs only after the loaders it awaits, and the services and
        layers are one per catalog entry. */
    ghost predicate LoadersConsistent(main: Option<Result<seq<CatalogService>, string>>,
                                      tms: Option<Result<seq<TmsServiceConfig>, string>>,
                                      file: Option<Result<seq<FileLayerConfig>, string>>,
                                      services: Option<Result<seq<TMSService>, string>>,
                                      layers: Option<Result<seq<FileLayerConfig>, string>>)
    {
      && (tms.Some? ==> main.Some?)
      && (file.Some? ==> main.Some?)
      && (services.Some? ==> tms.Some? && (services.value.Success? <==> tms.value.Success?))
      && (layers.Some? ==> file.Some? && layers.value == file.value)
      && (services.Some? && services.value.Success? ==>
            && |services.value.value| == |tms.value.value|
            && (forall i :: 0 <= i < |services.value.value| ==> services.value.value[i].config == tms.value.value[i])
            && (forall s :: s in services.value.value ==> s.client == this && s.proxyPath == proxyPath))
    }

    /** The state `_invalidateSettings` leaves: five loaders that have not run. */
    ghost predicate Invalidated()
      reads this
    {
      mainCatalog.None? && tmsCatalog.None? && fileCatalog.None? && tmsServices.None? && fileLayers.None?
    }

    constructor(kbnVersion: Option<string>, appVersion: Option<string>, appName: Option<string>,
                manifestServiceUrl: Option<string>, tileApiUrl: string, fileApiUrl: string,
                emsVersion: Option<string>, htmlSanitizer: Option<string -> string>, language: Arg,
                landingPageUrl: Arg, proxyPath: Arg, remote: Remote)
      requires RemoteWellFormed(remote)
      ensures Valid() && Invalidated()
      ensures this.appVersion == LegacyAppVersion(appVersion, kbnVersion).GetOr("")
      ensures queryParams == InitialQueryParams(appName, this.appVersion)
      ensures this.emsVersion == LegacyServiceVersion(emsVersion)
      ensures this.language == StringOr(language, DefaultLanguage)
      ensures this.landingPageUrl == StringOr(landingPageUrl, "") && this.proxyPath == StringOr(proxyPath, "")
      ensures this.sanitizer == (if htmlSanitizer.Some? then htmlSanitizer.value else x => x)
      ensures this.manifestServiceUrl == manifestServiceUrl && this.tileApiUrl == tileApiUrl && this.fileApiUrl == fileApiUrl
      ensures this.remote == remote && requests == [] && epoch == 0
    {
      this.appVersion := LegacyAppVersion(appVersion, kbnVersion).GetOr("");
      var sanitizer: string -> string := x => x;
      if htmlSanitizer.Some? {
        sanitizer := htmlSanitizer.value;
      }
      this.sanitizer := sanitizer;
      this.manifestServiceUrl := manifestServiceUrl;
      this.tileApiUrl := tileApiUrl;
      this.fileApiUrl := fileApiUrl;
      this.emsVersion := LegacyServiceVersion(emsVersion);
      this.landingPageUrl := StringOr(landingPageUrl, "");
      this.language := StringOr(language, DefaultLanguage);
      this.proxyPath := StringOr(proxyPath, "");
      this.remote := remote;
      InitialQueryParamsValid(appName, LegacyAppVersion(appVersion, kbnVersion).GetOr(""));
      queryParams := InitialQueryParams(appName, LegacyAppVersion(appVersion, kbnVersion).GetOr(""));
      mainCatalog, tmsCatalog, fileCatalog, tmsServices, fileLayers := None, None, None, None, None;
      requests := [];
      epoch := 0;
    }

    /** `getManifest(manifestUrl)`: the URL is extended with the current
        parameters and requested; every failure is rethrown naming the URL. */
    method GetManifest<T>(manifestUrl: string, fetch: Table<T>) returns (r: Result<T, string>)
      modifies this`requests
      ensures requests == old(requests) + [manifestUrl]
      ensures r == JsManifestResult(manifestUrl, Answer(fetch, Request(manifestUrl, queryParams)))
    {
      requests := requests + [manifestUrl];
      r := JsManifestResult(manifestUrl, Answer(fetch, Request(manifestUrl, queryParams)));
    }

    /** `_invalidateSettings()`: reinstalls the five loaders. */
    method InvalidateSettings()
      requires Valid()
      modifies this`mainCatalog, this`tmsCatalog, this`fileCatalog, this`tmsServices, this`fileLayers, this`epoch
      ensures Valid() && Invalidated()
      ensures epoch == old(epoch) + 1
    {
      mainCatalog, tmsCatalog, fileCatalog, tmsServices, fileLayers := None, None, None, None, None;
      epoch := epoch + 1;
    }

    /** `addQueryParams(additional)`: when some value differs from the current
        one, all pairs are overlaid and the settings are invalidated once;
        otherwise nothing changes. */
    method AddQueryParams(additional: Query)
      requires Valid() && D.Valid(additional)
      modifies this`queryParams, this`mainCatalog, this`tmsCatalog, this`fileCatalog, this`tmsServices, this`fileLayers, this`epoch
      ensures Valid()
      ensures queryParams == Overlay(old(queryParams), additional)
      ensures (forall k :: k in additional.vals ==> Lookup(old(queryParams), k) == Some(additional.vals[k])) ==>
        unchanged(this)
      ensures !(forall k :: k in additional.vals ==> Lookup(old(queryParams), k) == Some(additional.vals[k])) ==>
        Invalidated() && epoch == old(epoch) + 1
    {
      for i := 0 to |additional.keys|
        invariant unchanged(this)
        invariant forall j :: 0 <= j < i ==> Lookup(queryParams, additional.keys[j]) == Some(additional.vals[additional.keys[j]])
      {
        var key := additional.keys[i];
        if Lookup(queryParams, key) != Some(additional.vals[key]) {
          OverlaySpec(queryParams, additional);
          queryParams := Overlay(queryParams, additional);
          InvalidateSettings();
          return;
        }
      }
      OverlayNoChange(queryParams, additional);
    }

    /** What `_getMainCatalog` settles to when awaited with the memo slot
        `memo` and the parameters `params`, and the requests that makes: the
        memoised outcome, without a request, once it has run. */
    function MainCatalogOutcome(memo: Option<Result<seq<CatalogService>, string>>, params: Query)
      : (Result<seq<CatalogService>, string>, seq<string>)
    {
      if memo.Some? then (memo.value, [])
      else if Truthy(manifestServiceUrl) then
        var endpoint := ExtendUrlWithParams(manifestServiceUrl.value, params);
        (JsManifestResult(endpoint, Answer(remote.mainCatalog, Request(endpoint, params))), [endpoint])
      else (Success(LegacyMainCatalogServices(tileApiUrl, fileApiUrl, emsVersion)), [])
    }

    /** What `_getDefaultTMSCatalog` or `_getDefaultFileCatalog` settles to
        when awaited with the memo slots `mainMemo` of the main catalog and
        `memo` of its own, and the parameters `params`, and the requests that
        makes: the main catalog's, then the manifest of the first service of
        `kind`. */
    function CatalogOutcome<T>(mainMemo: Option<Result<seq<CatalogService>, string>>, memo: Option<Result<seq<T>, string>>,
                               kind: string, fetch: Table<seq<T>>, params: Query)
      : (Result<seq<T>, string>, seq<string>)
    {
      if memo.Some? then (memo.value, [])
      else
        var (main, mainRequests) := MainCatalogOutcome(mainMemo, params);
        match main
        case Failure(e) => (Failure(e), mainRequests)
        case Success(services) =>
          match FirstServiceOfType(services, kind)
          case None => (Success([]), mainRequests)
          case Some(s) =>
            var endpoint := proxyPath + s.manifest;
            (JsManifestResult(endpoint, Answer(fetch, Request(endpoint, params))), mainRequests + [endpoint])
    }

    function TmsCatalogOutcome(mainMemo: Option<Result<seq<CatalogService>, string>>, memo: Option<Result<seq<TmsServiceConfig>, string>>, params: Query)
      : (Result<seq<TmsServiceConfig>, string>, seq<string>)
    {
      CatalogOutcome(mainMemo, memo, "tms", remote.tmsCatalog, params)
    }

    function FileCatalogOutcome(mainMemo: Option<Result<seq<CatalogService>, string>>, memo: Option<Result<seq<FileLayerConfig>, string>>, params: Query)
      : (Result<seq<FileLayerConfig>, string>, seq<string>)
    {
      CatalogOutcome(mainMemo, memo, "file", remote.fileCatalog, params)
    }

    /** The body of `_getMainCatalog` once it runs: the `manifestServiceUrl`
        manifest when one is configured, else the catalog built from the API
        URLs without a request. */
    method LoadMainCatalog() returns (r: Result<seq<CatalogService>, string>)
      modifies this`requests
      ensures !Truthy(manifestServiceUrl) ==>
        r == Success(LegacyMainCatalogServices(tileApiUrl, fileApiUrl, emsVersion)) && requests == old(requests)
      ensures Truthy(manifestServiceUrl) ==>
        var endpoint := ExtendUrlWithParams(manifestServiceUrl.value, queryParams);
        requests == old(requests) + [endpoint] && r == JsManifestResult(endpoint, Answer(remote.mainCatalog, Request(endpoint, queryParams)))
      ensures r == MainCatalogOutcome(None, queryParams).0 && requests == old(requests) + MainCatalogOutcome(None, queryParams).1
    {
      if Truthy(manifestServiceUrl) {
        r := GetManifest(ExtendUrlWithParams(manifestServiceUrl.value, queryParams), remote.mainCatalog);
      } else {
        r := Success(LegacyMainCatalogServices(tileApiUrl, fileApiUrl, emsVersion));
      }
    }

    /** `_getMainCatalog`: the `manifestServiceUrl` manifest, requested with
        the parameters applied twice, when one is configured; else the
        catalog built from the API URLs without a request. */
    method GetMainCatalog() returns (r: Result<seq<CatalogService>, string>)
      requires Valid()
      modifies this`mainCatalog, this`requests
      ensures Valid()
      ensures mainCatalog == Some(r)
      ensures old(mainCatalog).Some? ==> r == old(mainCatalog).value && requests == old(requests)
      ensures old(mainCatalog).None? && !Truthy(manifestServiceUrl) ==>
        r == Success(LegacyMainCatalogServices(tileApiUrl, fileApiUrl, emsVersion)) && requests == old(requests)
      ensures old(mainCatalog).None? && Truthy(manifestServiceUrl) ==>
        var endpoint := ExtendUrlWithParams(manifestServiceUrl.value, queryParams);
        requests == old(requests) + [endpoint] && r == JsManifestResult(endpoint, Answer(remote.mainCatalog, Request(endpoint, queryParams)))
      ensures r == MainCatalogOutcome(old(mainCatalog), queryParams).0 && requests == old(requests) + MainCatalogOutcome(old(mainCatalog), queryParams).1
    {
      if mainCatalog.Some? {
        return mainCatalog.value;
      }
      r := LoadMainCatalog();
      assert LoadersConsistent(Some(r), tmsCatalog, fileCatalog, tmsServices, fileLayers);
      mainCatalog := Some(r);
    }

    /** `_getDefaultTMSCatalog`: the manifest of the first `tms` service, or no
        services (and no request) when the catalog has none. */
    method GetDefaultTmsCatalog() returns (r: Result<seq<TmsServiceConfig>, string>)
      requires Valid()
      modifies this`mainCatalog, this`tmsCatalog, this`requests
      ensures Valid()
      ensures tmsCatalog == Some(r) && mainCatalog.Some?
      ensures old(tmsCatalog).Some? ==> r == old(tmsCatalog).value && requests == old(requests) && mainCatalog == old(mainCatalog)
      ensures old(tmsCatalog).None? && mainCatalog.value.Failure? ==> r == Failure(mainCatalog.value.error)
      ensures old(tmsCatalog).None? && mainCatalog.value.Success? ==>
        var mainRequests := MainCatalogOutcome(old(mainCatalog), queryParams).1;
        match FirstServiceOfType(mainCatalog.value.value, "tms")
        case None => r == Success([]) && requests == old(requests) + mainRequests
        case Some(s) =>
          requests == old(requests) + mainRequests + [proxyPath + s.manifest]
          && r == JsManifestResult(proxyPath + s.manifest, Answer(remote.tmsCatalog, Request(proxyPath + s.manifest, queryParams)))
      ensures mainCatalog == Some(MainCatalogOutcome(old(mainCatalog), queryParams).0)
      ensures r == TmsCatalogOutcome(old(mainCatalog), old(tmsCatalog), queryParams).0 && requests == old(requests) + TmsCatalogOutcome(old(mainCatalog), old(tmsCatalog), queryParams).1
    {
      if tmsCatalog.Some? {
        return tmsCatalog.value;
      }
      var catalogue := GetMainCatalog();
      if catalogue.Failure? {
        r := Failure(catalogue.error);
      } else {
        var firstService := FirstServiceOfType(catalogue.value, "tms");
        if firstService.None? {
          r := Success([]);
        } else {
          r := GetManifest(proxyPath + firstService.value.manifest, remote.tmsCatalog);
          ConcatAssoc(old(requests), MainCatalogOutcome(old(mainCatalog), queryParams).1, [proxyPath + firstService.value.manifest]);
        }
      }
      tmsCatalog := Some(r);
    }

    /** `_getDefaultFileCatalog`: the manifest of the first `file` service, or
        no layers (and no request) when the catalog has none. */
    method GetDefaultFileCatalog() returns (r: Result<seq<FileLayerConfig>, string>)
      requires Valid()
      modifies this`mainCatalog, this`fileCatalog, this`requests
      ensures Valid()
      ensures fileCatalog == Some(r) && mainCatalog.Some?
      ensures old(fileCatalog).Some? ==> r == old(fileCatalog).value && requests == old(requests) && mainCatalog == old(mainCatalog)
      ensures old(fileCatalog).None? && mainCatalog.value.Failure? ==> r == Failure(mainCatalog.value.error)
      ensures old(fileCatalog).None? && mainCatalog.value.Success? ==>
        var mainRequests := MainCatalogOutcome(old(mainCatalog), queryParams).1;
        match FirstServiceOfType(mainCatalog.value.value, "file")
        case None => r == Success([]) && requests == old(requests) + mainRequests
        case Some(s) =>
          requests == old(requests) + mainRequests + [proxyPath + s.manifest]
          && r == JsManifestResult(proxyPath + s.manifest, Answer(remote.fileCatalog, Request(proxyPath + s.manifest, queryParams)))
      ensures mainCatalog == Some(MainCatalogOutcome(old(mainCatalog), queryParams).0)
      ensures r == FileCatalogOutcome(old(mainCatalog), old(fileCatalog), queryParams).0 && requests == old(requests) + FileCatalogOutcome(old(mainCatalog), old(fileCatalog), queryParams).1
    {
      if fileCatalog.Some? {
        return fileCatalog.value;
      }
      var catalogue := GetMainCatalog();
      if catalogue.Failure? {
        r := Failure(catalogue.error);
      } else {
        var firstService := FirstServiceOfType(catalogue.value, "file");
        if firstService.None? {
          r := Success([]);
        } else {
          r := GetManifest(proxyPath + firstService.value.manifest, remote.fileCatalog);
          ConcatAssoc(old(requests), MainCatalogOutcome(old(mainCatalog), queryParams).1, [proxyPath + firstService.value.manifest]);
        }
      }
      fileCatalog := Some(r);
    }

    /** One fresh `TMSService` per entry of `configs`, bound to this client. */
    method NewTmsServices(configs: seq<TmsServiceConfig>) returns (services: seq<TMSService>)
      requires RemoteWellFormed(remote)
      ensures |services| == |configs|
      ensures forall j :: 0 <= j < |configs| ==> services[j].config == configs[j] && fresh(services[j])
      ensures forall x :: x in services ==> x.client == this && x.proxyPath == proxyPath
    {
      services := [];
      for i := 0 to |configs|
        invariant |services| == i
        invariant forall j :: 0 <= j < i ==> services[j].config == configs[j] && fresh(services[j])
        invariant forall x :: x in services ==> x.client == this && x.proxyPath == proxyPath
      {
        var x := new TMSService(configs[i], this, proxyPath);
        services := services + [x];
      }
    }

    /** `_loadTMSServices`: one legacy `TMSService` per service of the catalog. */
    method GetTmsServices() returns (r: Result<seq<TMSService>, string>)
      requires Valid()
      modifies this`mainCatalog, this`tmsCatalog, this`tmsServices, this`requests
      ensures Valid()
      ensures tmsServices == Some(r) && tmsCatalog.Some?
      ensures old(tmsServices).Some? ==> r == old(tmsServices).value && requests == old(requests)
      ensures old(tmsServices).None? ==>
        && mainCatalog == Some(MainCatalogOutcome(old(mainCatalog), queryParams).0)
        && tmsCatalog == Some(TmsCatalogOutcome(old(mainCatalog), old(tmsCatalog), queryParams).0)
        && requests == old(requests) + TmsCatalogOutcome(old(mainCatalog), old(tmsCatalog), queryParams).1
      ensures r.Success? <==> tmsCatalog.value.Success?
      ensures r.Success? ==>
        |r.value| == |tmsCatalog.value.value| && forall i :: 0 <= i < |r.value| ==> r.value[i].config == tmsCatalog.value.value[i]
      ensures old(tmsServices).None? && r.Success? ==> forall i :: 0 <= i < |r.value| ==> fresh(r.value[i])
    {
      if tmsServices.Some? {
        return tmsServices.value;
      }
      var catalog := GetDefaultTmsCatalog();
      if catalog.Failure? {
        r := Failure(catalog.error);
      } else {
        var services := NewTmsServices(catalog.value);
        r := Success(services);
      }
      tmsServices := Some(r);
    }

    /** `_loadFileLayers`: the layers of the file catalog, one per entry. */
    method GetFileLayers() returns (r: Result<seq<FileLayerConfig>, string>)
      requires Valid()
      modifies this`mainCatalog, this`fileCatalog, this`fileLayers, this`requests
      ensures Valid()
      ensures fileLayers == Some(r) && fileCatalog == Some(r)
      ensures old(fileLayers).Some? ==> r == old(fileLayers).value && requests == old(requests)
      ensures old(fileLayers).None? ==>
        && mainCatalog == Some(MainCatalogOutcome(old(mainCatalog), queryParams).0)
        && r == FileCatalogOutcome(old(mainCatalog), old(fileCatalog), queryParams).0
        && requests == old(requests) + FileCatalogOutcome(old(mainCatalog), old(fileCatalog), queryParams).1
    {
      if fileLayers.Some? {
        return fileLayers.value;
      }
      r := GetDefaultFileCatalog();
      fileLayers := Some(r);
    }

    /** `findTMSServiceById(id)`: the first tile service with that id. */
    method FindTmsServiceById(id: string) returns (r: Result<Option<TMSService>, string>)
      requires Valid()
      modifies this`mainCatalog, this`tmsCatalog, this`tmsServices, this`requests
      ensures Valid()
      ensures old(tmsServices).Some? ==> tmsServices == old(tmsServices) && requests == old(requests)
      ensures old(tmsServices).None? ==>
        && tmsCatalog == Some(TmsCatalogOutcome(old(mainCatalog), old(tmsCatalog), queryParams).0)
        && requests == old(requests) + TmsCatalogOutcome(old(mainCatalog), old(tmsCatalog), queryParams).1
      ensures tmsServices.Some? && (r.Success? <==> tmsServices.value.Success?)
      ensures r.Success? && r.value.None? ==> forall s :: s in tmsServices.value.value ==> !s.HasId(id)
      ensures r.Success? && r.value.Some? ==>
        exists i :: (0 <= i < |tmsServices.value.value| && tmsServices.value.value[i] == r.value.value
          && r.value.value.HasId(id) && forall j :: 0 <= j < i ==> !tmsServices.value.value[j].HasId(id))
    {
      var services := GetTmsServices();
      if services.Failure? {
        return Failure(services.error);
      }
      var list := services.value;
      for i := 0 to |list|
        invariant forall j :: 0 <= j < i ==> !list[j].HasId(id)
      {
        if list[i].HasId(id) {
          return Success(Some(list[i]));
        }
      }
      return Success(None);
    }
  }

  // ---------------------------------------------------------------------------
  // TMSService

  class TMSService {
    const config: TmsServiceConfig
    const client: EMSClient
    const proxyPath: string
    /** The three `_.once` loaders: the raster style, the raw and the inlined
        vector style. */
    var rasterStyle: Option<Result<RasterStyle, string>>
    var vectorRaw: Option<Result<VectorStyle, string>>
    var vectorInlined: Option<Result<VectorStyle, string>>

    /** The server sends well-formed styles, so the memoised raw style is a
        well-formed object. */
    ghost predicate Valid()
      reads this`vectorRaw
    {
      && RemoteWellFormed(client.remote)
      && (vectorRaw.Some? && vectorRaw.value.Success? ==> D.Valid(vectorRaw.value.value.sources))
    }

    constructor(config: TmsServiceConfig, client: EMSClient, proxyPath: string)
      requires RemoteWellFormed(client.remote)
      ensures Valid()
      ensures this.config == config && this.client == client && this.proxyPath == proxyPath
      ensures rasterStyle.None? && vectorRaw.None? && vectorInlined.None?
    {
      this.config := config;
      this.client := client;
      this.proxyPath := proxyPath;
      rasterStyle, vectorRaw, vectorInlined := None, None, None;
    }

    /** `hasId(id)` */
    predicate HasId(id: string) {
      config.id == id
    }

    /** The endpoint of the locale's style of a type. */
    function StyleEndpoint(formatType: string): Result<string, string>
      reads client`queryParams
    {
      LegacyStyleEndpoint(config.formats, formatType, client.language, proxyPath, client.tileApiUrl, client.queryParams)
    }

    /** `getHTMLAttribution()` with the client's locale and sanitizer. */
    function Html(): string {
      HtmlAttribution(client.language, config.attribution, client.sanitizer)
    }

    /** A style loader's first run: the endpoint of the locale's style of
        `formatType`, fetched, or the endpoint's failure without a request. */
    function StyleOutcome<T>(formatType: string, fetch: Table<T>, params: Query): (Result<T, string>, seq<string>)
    {
      match LegacyStyleEndpoint(config.formats, formatType, client.language, proxyPath, client.tileApiUrl, params)
      case Failure(e) => (Failure(e), [])
      case Success(endpoint) => (JsManifestResult(endpoint, Answer(fetch, Request(endpoint, params))), [endpoint])
    }

    /** What `_getRasterStyleJson` settles to when awaited with the memo slot
        `memo` and the parameters `params`, and the request that makes: the
        memoised style, without a request, once it has run. */
    function RasterOutcome(memo: Option<Result<RasterStyle, string>>, params: Query): (Result<RasterStyle, string>, seq<string>)
    {
      if memo.Some? then (memo.value, []) else StyleOutcome("raster", client.remote.rasterStyle, params)
    }

    /** What `_getVectorStyleJsonRaw` settles to when awaited with the memo slot
        `memo` and the parameters `params`, and the request that makes: the
        memoised style, without a request, once it has run. */
    function RawOutcome(memo: Option<Result<VectorStyle, string>>, params: Query): (Result<VectorStyle, string>, seq<string>)
    {
      if memo.Some? then (memo.value, []) else StyleOutcome("vector", client.remote.vectorStyle, params)
    }

    /** `_getRasterStyleJson`: the raster style of the client's locale. */
    method GetRasterStyleJson() returns (r: Result<RasterStyle, string>)
      modifies this`rasterStyle, client`requests
      ensures rasterStyle == Some(r)
      ensures old(rasterStyle).Some? ==> r == old(rasterStyle).value && client.requests == old(client.requests)
      ensures old(rasterStyle).None? && StyleEndpoint("raster").Failure? ==>
        r == Failure(StyleEndpoint("raster").error) && client.requests == old(client.requests)
      ensures old(rasterStyle).None? && StyleEndpoint("raster").Success? ==>
        var endpoint := StyleEndpoint("raster").value;
        && client.requests == old(client.requests) + [endpoint]
        && r == JsManifestResult(endpoint, Answer(client.remote.rasterStyle, Request(endpoint, client.queryParams)))
      ensures r == RasterOutcome(old(rasterStyle), client.queryParams).0 && client.requests == old(client.requests) + RasterOutcome(old(rasterStyle), client.queryParams).1
    {
      if rasterStyle.Some? {
        return rasterStyle.value;
      }
      var endpoint := StyleEndpoint("raster");
      if endpoint.Failure? {
        r := Failure(endpoint.error);
      } else {
        r := client.GetManifest(endpoint.value, client.remote.rasterStyle);
      }
      rasterStyle := Some(r);
    }

    /** `_getVectorStyleJsonRaw`: the vector style of the client's locale. */
    method GetVectorStyleJsonRaw() returns (r: Result<VectorStyle, string>)
      requires Valid()
      modifies this`vectorRaw, client`requests
      ensures Valid()
      ensures vectorRaw == Some(r)
      ensures r.Success? ==> D.Valid(r.value.sources)
      ensures old(vectorRaw).Some? ==> r == old(vectorRaw).value && client.requests == old(client.requests)
      ensures old(vectorRaw).None? && StyleEndpoint("vector").Failure? ==>
        r == Failure(StyleEndpoint("vector").error) && client.requests == old(client.requests)
      ensures old(vectorRaw).None? && StyleEndpoint("vector").Success? ==>
        var endpoint := StyleEndpoint("vector").value;
        && client.requests == old(client.requests) + [endpoint]
        && r == JsManifestResult(endpoint, Answer(client.remote.vectorStyle, Request(endpoint, client.queryParams)))
      ensures r == RawOutcome(old(vectorRaw), client.queryParams).0 && client.requests == old(client.requests) + RawOutcome(old(vectorRaw), client.queryParams).1
    {
      if vectorRaw.Some? {
        return vectorRaw.value;
      }
      var endpoint := StyleEndpoint("vector");
      if endpoint.Failure? {
        r := Failure(endpoint.error);
      } else {
        r := client.GetManifest(endpoint.value, client.remote.vectorStyle);
      }
      vectorRaw := Some(r);
    }

    /** The body of the legacy loop for the source `name`. */
    method InlineNext(sources: Dict<Source>, name: string, inlined: Dict<Source>, fetch: Table<Source>, html: string,
                      apiUrl: string, params: Query, ghost outcomes: map<string, Outcome>)
      returns (next: Result<Dict<Source>, string>, ghost more: seq<string>)
      requires name in sources.vals
      requires fetch == client.remote.source && apiUrl == client.tileApiUrl && params == client.queryParams
      requires OutcomesMatch(outcomes, sources, client.remote.source, html, proxyPath, client.tileApiUrl, client.queryParams)
      modifies client`requests
      ensures (next, more) == LegacyInlineStep(inlined, name, outcomes)
      ensures client.requests == old(client.requests) + more
    {
      ghost var outcome := LegacySourceOutcome(sources.vals[name], fetch, html, proxyPath, apiUrl, params);
      assert outcomes[name] == outcome;
      var endpoint := LegacyEndpoint(proxyPath, apiUrl, params, sources.vals[name].url);
      if endpoint.Failure? {
        return Failure(endpoint.error), [];
      }
      var fetched := client.GetManifest(endpoint.value, fetch);
      more := [endpoint.value];
      if fetched.Failure? {
        next := Failure(fetched.error);
      } else {
        var src := LegacyInlineSource(fetched.value, html, proxyPath, apiUrl, params);
        next := if src.Failure? then Failure(src.error) else Success(Put(inlined, name, src.value));
      }
    }

    /** The loop of the legacy `_getVectorStyleJsonInlined` over the raw
        style's sources, in enumeration order: each one is fetched and inlined. */
    method InlineSources(sources: Dict<Source>, html: string, ghost outcomes: map<string, Outcome>) returns (res: Result<Dict<Source>, string>)
      requires forall i :: 0 <= i < |sources.keys| ==> sources.keys[i] in sources.vals
      requires OutcomesMatch(outcomes, sources, client.remote.source, html, proxyPath, client.tileApiUrl, client.queryParams)
      modifies client`requests
      ensures var (expected, reqs) := LegacyInlineLoop(sources.keys, outcomes);
        res == expected && client.requests == old(client.requests) + reqs
    {
      var names := sources.keys;
      var fetch, apiUrl, params := client.remote.source, client.tileApiUrl, client.queryParams;
      var inlined: Dict<Source> := Empty();
      assert names[..0] == [];
      LegacyInlineFromRest(names, 0, outcomes, inlined, []);
      ghost var reqs: seq<string> := [];
      var i := 0;
      while i < |names|
        invariant 0 <= i <= |names|
        invariant client.requests == old(client.requests) + reqs
        invariant var (r, rest) := LegacyInlineFrom(names, i, inlined, outcomes);
          LegacyInlineLoop(names, outcomes) == (r, reqs + rest)
      {
        var next, more := InlineNext(sources, names[i], inlined, fetch, html, apiUrl, params, outcomes);
        LegacyInlineAdvance(names, i, outcomes, inlined, reqs, next, more);
        ConcatAssoc(old(client.requests), reqs, more);
        if next.Failure? {
          return next;
        }
        reqs := reqs + more;
        inlined := next.value;
        i := i + 1;
      }
      res := Success(inlined);
    }

    /** The part of the legacy `_getVectorStyleJsonInlined` after the raw
        style is loaded. */
    method InlineLoaded(raw: Result<VectorStyle, string>) returns (r: Result<VectorStyle, string>)
      requires raw.Success? ==> D.Valid(raw.value.sources)
      modifies client`requests
      ensures var (expected, reqs) := LegacyInlineRaw(raw, client.remote.source, Html(), proxyPath, client.tileApiUrl, client.queryParams);
        r == expected && client.requests == old(client.requests) + reqs
    {
      if raw.Failure? {
        return Failure(raw.error);
      }
      var style := raw.value;
      ghost var outcomes := LegacyOutcomes(style.sources, client.remote.source, Html(), proxyPath, client.tileApiUrl, client.queryParams);
      LegacyOutcomesMatch(style.sources, client.remote.source, Html(), proxyPath, client.tileApiUrl, client.queryParams);
      var sources := InlineSources(style.sources, Html(), outcomes);
      if sources.Failure? {
        return Failure(sources.error);
      }
      var sprite := LegacyProxiedUrl(proxyPath, client.tileApiUrl, style.sprite);
      var glyphs := LegacyProxiedUrl(proxyPath, client.tileApiUrl, style.glyphs);
      if sprite.Failure? {
        r := Failure(sprite.error);
      } else if glyphs.Failure? {
        r := Failure(glyphs.error);
      } else {
        r := Success(VectorStyle(sources.value, Some(sprite.value), Some(glyphs.value)));
      }
    }

    /** The legacy `_getVectorStyleJsonInlined`: every source of the raw style
        replaced by the fetched one with the HTML attribution, and the sprite
        and glyphs proxied; the first failure fails the whole style. */
    method GetVectorStyleJsonInlined() returns (r: Result<VectorStyle, string>)
      requires Valid()
      modifies this`vectorRaw, this`vectorInlined, client`requests
      ensures Valid()
      ensures vectorInlined == Some(r)
      ensures old(vectorRaw).Some? ==> vectorRaw == old(vectorRaw)
      ensures old(vectorInlined).Some? ==> r == old(vectorInlined).value && client.requests == old(client.requests)
      ensures old(vectorInlined).None? ==> vectorRaw == Some(RawOutcome(old(vectorRaw), client.queryParams).0)
      ensures old(vectorInlined).None? && vectorRaw.Some? ==>
        var (expected, reqs) := LegacyInlineRaw(vectorRaw.value, client.remote.source, Html(), proxyPath, client.tileApiUrl, client.queryParams);
        r == expected && client.requests == old(client.requests) + RawOutcome(old(vectorRaw), client.queryParams).1 + reqs
    {
      if vectorInlined.Some? {
        return vectorInlined.value;
      }
      r := LoadInlined();
    }

    /** The first call of `_getVectorStyleJsonInlined`: load the raw style,
        inline it and memoise the outcome. */
    method LoadInlined() returns (r: Result<VectorStyle, string>)
      requires Valid() && vectorInlined.None?
      modifies this`vectorRaw, this`vectorInlined, client`requests
      ensures Valid() && vectorInlined == Some(r) && vectorRaw == Some(RawOutcome(old(vectorRaw), client.queryParams).0)
      ensures old(vectorRaw).Some? ==> vectorRaw == old(vectorRaw)
      ensures var (expected, reqs) := LegacyInlineRaw(vectorRaw.value, client.remote.source, Html(), proxyPath, client.tileApiUrl, client.queryParams);
        r == expected && client.requests == old(client.requests) + RawOutcome(old(vectorRaw), client.queryParams).1 + reqs
    {
      ghost var pending := RawOutcome(vectorRaw, client.queryParams).1;
      var raw := GetVectorStyleJsonRaw();
      assert vectorRaw == Some(raw) && client.requests == old(client.requests) + pending;
      r := InlineLoaded(raw);
      vectorInlined := Some(r);
    }

    /** `getUrlTemplate()`: the first raster tile, proxied, made absolute and
        extended. */
    method GetUrlTemplate() returns (r: Result<string, string>)
      modifies this`rasterStyle, client`requests
      ensures rasterStyle == Some(RasterOutcome(old(rasterStyle), client.queryParams).0) && client.requests == old(client.requests) + RasterOutcome(old(rasterStyle), client.queryParams).1
      ensures old(rasterStyle).Some? ==> rasterStyle == old(rasterStyle) && client.requests == old(client.requests)
      ensures rasterStyle.value.Failure? ==> r == Failure(rasterStyle.value.error)
      ensures rasterStyle.value.Success? ==>
        r == LegacyEndpoint(proxyPath, client.tileApiUrl, client.queryParams, Some(rasterStyle.value.value.firstTile))
    {
      var tileJson := GetRasterStyleJson();
      if tileJson.Failure? {
        r := Failure(tileJson.error);
      } else {
        r := LegacyEndpoint(proxyPath, client.tileApiUrl, client.queryParams, Some(tileJson.value.firstTile));
      }
    }

    /** `getUrlTemplateForVector(sourceId)`: the first tile of the source in
        the memoised inlined style, rewritten; the style is not changed, so
        every call answers alike. */
    method GetUrlTemplateForVector(sourceId: string) returns (r: Result<Option<string>, string>)
      requires Valid()
      modifies this`vectorRaw, this`vectorInlined, client`requests
      ensures Valid()
      ensures vectorInlined.Some?
      ensures old(vectorInlined).Some? ==> vectorInlined == old(vectorInlined) && client.requests == old(client.requests)
      ensures old(vectorInlined).None? ==> vectorRaw == Some(RawOutcome(old(vectorRaw), client.queryParams).0)
      ensures old(vectorInlined).None? ==>
        var (expected, reqs) := LegacyInlineRaw(vectorRaw.value, client.remote.source, Html(), proxyPath, client.tileApiUrl, client.queryParams);
        vectorInlined == Some(expected) && client.requests == old(client.requests) + RawOutcome(old(vectorRaw), client.queryParams).1 + reqs
      ensures vectorInlined.value.Failure? ==> r == Failure(vectorInlined.value.error)
      ensures vectorInlined.value.Success? ==>
        r == LegacyUrlTemplateForVector(vectorInlined.value.value.sources, sourceId, proxyPath, client.tileApiUrl, client.queryParams)
    {
      var tileJson := GetVectorStyleJsonInlined();
      if tileJson.Failure? {
        r := Failure(tileJson.error);
      } else {
        r := LegacyUrlTemplateForVector(tileJson.value.sources, sourceId, proxyPath, client.tileApiUrl, client.queryParams);
      }
    }

    /** `_getSpriteSheetRootPath()`: the raw style's sprite, proxied and made
        absolute, with no check for a missing sprite. */
    method GetSpriteSheetRootPath() returns (r: Result<string, string>)
      requires Valid()
      modifies this`vectorRaw, client`requests
      ensures Valid()
      ensures vectorRaw == Some(RawOutcome(old(vectorRaw), client.queryParams).0) && client.requests == old(client.requests) + RawOutcome(old(vectorRaw), client.queryParams).1
      ensures old(vectorRaw).Some? ==> vectorRaw == old(vectorRaw) && client.requests == old(client.requests)
      ensures vectorRaw.value.Failure? ==> r == Failure(vectorRaw.value.error)
      ensures vectorRaw.value.Success? ==> r == LegacyProxiedUrl(proxyPath, client.tileApiUrl, vectorRaw.value.value.sprite)
    {
      var style := GetVectorStyleJsonRaw();
      r := if style.Failure? then Failure(style.error) else LegacyProxiedUrl(proxyPath, client.tileApiUrl, style.value.sprite);
    }

    /** `_getUrlTemplateForGlyphs()`: the raw style's glyphs, proxied and made
        absolute. */
    method GetUrlTemplateForGlyphs() returns (r: Result<string, string>)
      requires Valid()
      modifies this`vectorRaw, client`requests
      ensures Valid()
      ensures vectorRaw == Some(RawOutcome(old(vectorRaw), client.queryParams).0) && client.requests == old(client.requests) + RawOutcome(old(vectorRaw), client.queryParams).1
      ensures old(vectorRaw).Some? ==> vectorRaw == old(vectorRaw) && client.requests == old(client.requests)
      ensures vectorRaw.value.Failure? ==> r == Failure(vectorRaw.value.error)
      ensures vectorRaw.value.Success? ==> r == LegacyProxiedUrl(proxyPath, client.tileApiUrl, vectorRaw.value.value.glyphs)
    {
      var style := GetVectorStyleJsonRaw();
      r := if style.Failure? then Failure(style.error) else LegacyProxiedUrl(proxyPath, client.tileApiUrl, style.value.glyphs);
    }

    /** `getSpriteSheetJsonPath(isRetina)` / `getSpriteSheetPngPath(isRetina)`
        with `extension` `.json` or `.png`: the sprite root, the optional `@2x`
        and the extension. */
    method GetSpriteSheetPath(isRetina: bool, extension: string) returns (r: Result<string, string>)
      requires Valid()
      modifies this`vectorRaw, client`requests
      ensures Valid()
      ensures vectorRaw == Some(RawOutcome(old(vectorRaw), client.queryParams).0) && client.requests == old(client.requests) + RawOutcome(old(vectorRaw), client.queryParams).1
      ensures old(vectorRaw).Some? ==> vectorRaw == old(vectorRaw) && client.requests == old(client.requests)
      ensures vectorRaw.value.Failure? ==> r == Failure(vectorRaw.value.error)
      ensures vectorRaw.value.Success? ==>
        var root := LegacyProxiedUrl(proxyPath, client.tileApiUrl, vectorRaw.value.value.sprite);
        r == if root.Failure? then Failure(root.error) else Success(LegacySpriteSheetPath(root.value, isRetina, extension))
    {
      var root := GetSpriteSheetRootPath();
      r := if root.Failure? then Failure(root.error) else Success(LegacySpriteSheetPath(root.value, isRetina, extension));
    }
  }
}
