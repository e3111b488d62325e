/** The pure rules of the legacy JavaScript client (src/ems_client.js and
    src/tms_service.js) where they differ from the TypeScript ones: the root
    catalog, the version default, the constructor defaults, the HTML
    attribution and the vector sources and sprite paths. */
module LegacyRules {
  import opened Wrappers
  import opened Strings
  import opened Dict
  import opened Utils
  import opened Url
  import opened Catalog
  import opened EmsService
  import opened TmsRules

  // ---------------------------------------------------------------------------
  // Catalog and version

  /** `${api}/${version}/manifest`: plain concatenation, no slash handling. */
  function LegacyManifestUrl(apiUrl: string, emsVersion: string): (r: string)
    ensures StartsWith(r, apiUrl + "/") && EndsWith(r, "/manifest")
  {
    var r := apiUrl + "/" + emsVersion + "/manifest";
    assert r[..|apiUrl + "/"|] == apiUrl + "/";
    assert r[|r| - 9..] == "/manifest";
    r
  }

  /** The legacy root catalog: a `tms` entry when there is a tile API, then a
      `file` entry when there is a file API. */
  function LegacyMainCatalogServices(tileApiUrl: string, fileApiUrl: string, emsVersion: string): (r: seq<CatalogService>)
    ensures |r| == (if tileApiUrl != "" then 1 else 0) + (if fileApiUrl != "" then 1 else 0)
    ensures tileApiUrl != "" ==> r[0] == CatalogService("tms", LegacyManifestUrl(tileApiUrl, emsVersion))
    ensures fileApiUrl != "" ==> r[|r| - 1] == CatalogService("file", LegacyManifestUrl(fileApiUrl, emsVersion))
  {
    (if tileApiUrl != "" then [CatalogService("tms", LegacyManifestUrl(tileApiUrl, emsVersion))] else [])
    + (if fileApiUrl != "" then [CatalogService("file", LegacyManifestUrl(fileApiUrl, emsVersion))] else [])
  }

  /** Without a trailing slash on the API URLs both clients build the same
      root catalog. */
  lemma LegacyCatalogAgrees(tileApiUrl: string, fileApiUrl: string, emsVersion: string)
    requires tileApiUrl == "" || tileApiUrl[|tileApiUrl| - 1] != '/'
    requires fileApiUrl == "" || fileApiUrl[|fileApiUrl| - 1] != '/'
    requires emsVersion != "" && emsVersion[0] != '/'
    ensures LegacyMainCatalogServices(tileApiUrl, fileApiUrl, emsVersion) == MainCatalogServices(tileApiUrl, fileApiUrl, emsVersion)
  {
    var path := emsVersion + "/manifest";
    assert path[0] != '/';
    assert tileApiUrl + "/" + emsVersion + "/manifest" == tileApiUrl + "/" + path;
    assert fileApiUrl + "/" + emsVersion + "/manifest" == fileApiUrl + "/" + path;
  }

  /** With a trailing slash the legacy client doubles it. */
  lemma LegacyCatalogDoublesSlash(apiUrl: string, emsVersion: string)
    requires apiUrl != "" && apiUrl[|apiUrl| - 1] == '/'
    ensures LegacyManifestUrl(apiUrl, emsVersion)[|apiUrl| - 1..|apiUrl| + 1] == "//"
  {
  }

  /** The legacy client's fallback version. */
  const LegacyDefaultEmsVersion := "7.7"

  /** `_getEmsVersion(version)` of the legacy client never fails, and falls
      back to `v7.7`. */
  lemma LegacyEmsVersionDefault(version: Option<string>)
    ensures EmsVersion(version, LegacyDefaultEmsVersion).Success?
    ensures (version.None? || Coerce(version.value).None?) ==> EmsVersion(version, LegacyDefaultEmsVersion) == Success("v7.7")
  {
    CoerceVersionString("", "7", "7", "");
    assert "" + "7" + "." + "7" + "" == "7.7";
    assert RenderVersion(7, 7) == "v7.7" by {
      assert NatToString(7) == "7";
    }
  }

  /** The version string the legacy constructor stores. */
  function LegacyServiceVersion(version: Option<string>): string
  {
    match (if version.Some? then Coerce(version.value) else None)
    case Some((major, minor)) => RenderVersion(major, minor)
    case None => "v7.7"
  }

  /** `LegacyServiceVersion` is the legacy `_getEmsVersion`, with the default
      `7.7`. */
  lemma LegacyServiceVersionSpec(version: Option<string>)
    ensures EmsVersion(version, LegacyDefaultEmsVersion) == Success(LegacyServiceVersion(version))
  {
    LegacyEmsVersionDefault(version);
  }

  // ---------------------------------------------------------------------------
  // Constructor defaults

  /** A constructor argument: a string, or any value of another type
      (`undefined` included). */
  datatype Arg = Str(s: string) | NotString

  /** `typeof arg === 'string' ? arg : fallback` */
  function StringOr(arg: Arg, fallback: string): (r: string)
    ensures arg.Str? ==> r == arg.s
    ensures arg.NotString? ==> r == fallback
  {
    if arg.Str? then arg.s else fallback
  }

  /** The legacy app version: `kbnVersion` is used only when it is truthy and
      `appVersion` is not. */
  function LegacyAppVersion(appVersion: Option<string>, kbnVersion: Option<string>): (r: Option<string>)
    ensures Truthy(appVersion) ==> r == appVersion
    ensures !Truthy(kbnVersion) ==> r == appVersion
    ensures Truthy(kbnVersion) && !Truthy(appVersion) ==> r == kbnVersion
  {
    if Truthy(kbnVersion) then (if Truthy(appVersion) then appVersion else kbnVersion) else appVersion
  }

  /** The clients disagree exactly when both versions are given and differ. */
  lemma AppVersionRules(appVersion: string, kbnVersion: string)
    requires appVersion != "" && kbnVersion != ""
    ensures LegacyAppVersion(Some(appVersion), Some(kbnVersion)) == Some(appVersion)
    ensures TsAppVersion(appVersion, Some(kbnVersion)) == kbnVersion
  {
  }

  // ---------------------------------------------------------------------------
  // HTML attribution

  /** One attribution entry: a link when the URL is truthy, else the bare label. */
  function HtmlLink(a: Attribution): (r: string)
    ensures !Truthy(a.url) ==> r == Show(a.text)
    ensures Truthy(a.url) ==> StartsWith(r, "<a rel=\"noreferrer noopener\" href=\"" + a.url.value + "\">")
    ensures Truthy(a.url) ==> EndsWith(r, Show(a.text) + "</a>")
  {
    if Truthy(a.url) then
      var open := "<a rel=\"noreferrer noopener\" href=\"" + a.url.value + "\">";
      var r := open + Show(a.text) + "</a>";
      assert r[..|open|] == open;
      assert r == open + (Show(a.text) + "</a>");
      assert r[|r| - |Show(a.text) + "</a>"|..] == Show(a.text) + "</a>";
      r
    else Show(a.text)
  }

  /** `getHTMLAttribution()`: each entry sanitized, joined with ` | `. */
  function HtmlAttribution(language: string, attribution: seq<AttributionConfig>, sanitize: string -> string): (r: string)
    ensures attribution == [] ==> r == ""
    ensures |attribution| == 1 ==> r == sanitize(HtmlLink(Attributions(language, attribution)[0]))
  {
    var links := Attributions(language, attribution);
    Join(seq(|links|, i requires 0 <= i < |links| => sanitize(HtmlLink(links[i]))), " | ")
  }

  /** Each further entry adds ` | ` and its sanitized HTML. */
  lemma HtmlAttributionCons(language: string, a: AttributionConfig, rest: seq<AttributionConfig>, sanitize: string -> string)
    requires rest != []
    ensures HtmlAttribution(language, [a] + rest, sanitize)
      == sanitize(HtmlLink(Attributions(language, [a])[0])) + " | " + HtmlAttribution(language, rest, sanitize)
  {
    var links := Attributions(language, [a] + rest);
    var parts := seq(|links|, i requires 0 <= i < |links| => sanitize(HtmlLink(links[i])));
    var restLinks := Attributions(language, rest);
    var restParts := seq(|restLinks|, i requires 0 <= i < |restLinks| => sanitize(HtmlLink(restLinks[i])));
    assert parts[0] == sanitize(HtmlLink(Attributions(language, [a])[0])) by {
      assert links[0] == Attributions(language, [a])[0];
    }
    assert parts[1..] == restParts by {
      forall i | 0 <= i < |restParts|
        ensures parts[1..][i] == restParts[i]
      {
        assert links[i + 1] == restLinks[i];
      }
    }
    assert HtmlAttribution(language, [a] + rest, sanitize) == Join(parts, " | ");
  }

  // ---------------------------------------------------------------------------
  // Vector sources and sprites

  /** `{type: 'vector', ...sourceJson, attribution, tiles}`: the fetched type
      wins over `vector`, the attribution is replaced by the HTML one. A
      fetched source without tiles makes `tiles.map` throw. */
  function LegacyInlineSource(fetched: Source, htmlAttribution: string, proxyPath: string, tileApiUrl: string, params: Query): (r: Result<Source, string>)
    ensures r.Failure? <==> fetched.tiles.None?
    ensures r.Success? ==> r.value.url == fetched.url && r.value.attribution == Some(htmlAttribution)
    ensures r.Success? ==> r.value.kind == (if fetched.kind.Some? then fetched.kind else Some("vector"))
    ensures r.Success? ==> r.value.tiles == Some(InlineTiles(fetched.tiles.value, proxyPath, tileApiUrl, params))
  {
    if fetched.tiles.None? then Failure("Cannot read properties of undefined (reading 'map')")
    else
      Success(Source(fetched.url, Some(InlineTiles(fetched.tiles.value, proxyPath, tileApiUrl, params)),
        if fetched.kind.Some? then fetched.kind else Some("vector"), Some(htmlAttribution)))
  }

  /** The two clients inline a fetched source alike except for the
      attribution and a fetched `type`. */
  lemma InlineSourcesAgreeOnTiles(fetched: Source, htmlAttribution: string, proxyPath: string, tileApiUrl: string, params: Query)
    requires fetched.tiles.Some?
    ensures LegacyInlineSource(fetched, htmlAttribution, proxyPath, tileApiUrl, params).value.tiles
      == InlineSource(fetched, proxyPath, tileApiUrl, params).tiles
    ensures fetched.kind.None? ==>
      LegacyInlineSource(fetched, htmlAttribution, proxyPath, tileApiUrl, params).value.kind == InlineSource(fetched, proxyPath, tileApiUrl, params).kind
  {
  }

  /** `_getAbsoluteUrl(url)` of the legacy client, where `url` may be
      `undefined` (`None`): the regular expression test sees the text
      `undefined`, and `toAbsoluteUrl` returns it as it is without a tile API
      but fails reading its first character with one. */
  function LegacyAbsoluteUrl(tileApiUrl: string, url: Option<string>): (r: Result<string, string>)
    ensures url.Some? ==> r == Success(AbsoluteUrl(tileApiUrl, url.value))
    ensures url.None? && tileApiUrl == "" ==> r == Success("undefined")
    ensures url.None? && tileApiUrl != "" ==> r.Failure?
  {
    match url
    case Some(u) => Success(AbsoluteUrl(tileApiUrl, u))
    case None =>
      if tileApiUrl == "" then Success("undefined") else Failure("Cannot read properties of undefined (reading '0')")
  }

  /** `proxyPath + _getAbsoluteUrl(path)`: the legacy sprite root and glyphs
      template, and the URL of a style or a source before it is extended. */
  function LegacyProxiedUrl(proxyPath: string, tileApiUrl: string, url: Option<string>): (r: Result<string, string>)
    ensures r.Failure? <==> LegacyAbsoluteUrl(tileApiUrl, url).Failure?
    ensures r.Success? ==> r.value == proxyPath + LegacyAbsoluteUrl(tileApiUrl, url).value
  {
    match LegacyAbsoluteUrl(tileApiUrl, url)
    case Success(u) => Success(proxyPath + u)
    case Failure(e) => Failure(e)
  }

  /** For a sprite or glyphs path that is present and not empty the clients
      compute the same URL; the TypeScript one answers `''` where the legacy
      one resolves `undefined` or fails. */
  lemma StylePathsAgree(proxyPath: string, tileApiUrl: string, path: Option<string>)
    ensures path.Some? && path.value != "" ==> LegacyProxiedUrl(proxyPath, tileApiUrl, path) == Success(StylePath(proxyPath, tileApiUrl, path))
    ensures path.None? ==> StylePath(proxyPath, tileApiUrl, path) == "" && LegacyProxiedUrl(proxyPath, tileApiUrl, path) != Success("")
  {
  }

  /** `getUrlTemplateForVector(sourceId)` of the legacy client: the first tile
      of the inlined source rewritten once more, `null` (`None`) when the
      source or its tiles are missing; the style is left as it is. An empty
      tile list reads `tiles[0]` as `undefined`. */
  function LegacyUrlTemplateForVector(sources: Dict<Source>, sourceId: string, proxyPath: string, tileApiUrl: string, params: Query): (r: Result<Option<string>, string>)
    ensures (Lookup(sources, sourceId).None? || Lookup(sources, sourceId).value.tiles.None?) ==> r == Success(None)
    ensures Lookup(sources, sourceId).Some? && Lookup(sources, sourceId).value.tiles.Some? && Lookup(sources, sourceId).value.tiles.value != [] ==>
      r == Success(Some(ExtendUrlWithParams(ProxiedUrl(proxyPath, tileApiUrl, sources.vals[sourceId].tiles.value[0]), params)))
    ensures Lookup(sources, sourceId).Some? && Lookup(sources, sourceId).value.tiles == Some([]) ==>
      (r.Failure? <==> tileApiUrl != "")
  {
    match Lookup(sources, sourceId)
    case None => Success(None)
    case Some(src) =>
      if src.tiles.None? then Success(None)
      else
        var first := if src.tiles.value == [] then None else Some(src.tiles.value[0]);
        match LegacyProxiedUrl(proxyPath, tileApiUrl, first)
        case Failure(e) => Failure(e)
        case Success(u) => Success(Some(ExtendUrlWithParams(u, params)))
  }

  /** `getSpriteSheetJsonPath` / `getSpriteSheetPngPath` of the legacy client:
      always the root, the retina suffix and the extension. */
  function LegacySpriteSheetPath(root: string, isRetina: bool, extension: string): (r: string)
    ensures StartsWith(r, root) && EndsWith(r, extension)
    ensures |r| == |root| + (if isRetina then 3 else 0) + |extension|
    ensures isRetina ==> r[|root|..|root| + 3] == "@2x"
  {
    var r := root + (if isRetina then "@2x" else "") + extension;
    assert r[..|root|] == root;
    assert r[|r| - |extension|..] == extension;
    r
  }

  /** The clients agree on a non-empty root; on an empty one the legacy client
      still returns the suffix and the extension. */
  lemma SpritePathsAgree(root: string, isRetina: bool, extension: string)
    ensures root != "" ==> LegacySpriteSheetPath(root, isRetina, extension) == SpriteSheetPath(root, isRetina, extension)
    ensures root == "" ==> LegacySpriteSheetPath(root, isRetina, extension) == (if isRetina then "@2x" else "") + extension
    ensures root == "" ==> SpriteSheetPath(root, isRetina, extension) == ""
  {
  }
}
