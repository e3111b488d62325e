# ems-client in Dafny

A model of the Elastic Maps Service client (`ems-client`), covering:

- the catalog, URL and selection logic of the TypeScript client: `EMSClient`, `TMSService`, `FileLayer`, the shared `AbstractEmsService` helpers and `toAbsoluteUrl`;
- the older JavaScript client (`ems_client.js`, `tms_service.js`), kept as separate modules because its rules differ.

Pure modules:

- `Utils` — `toAbsoluteUrl`.
- `Url` — a URL record of prefix, `search` text, ordered query and hash; `extendUrl`, `extendUrlWithParams`, `unescapeTemplateVars`; the initial query parameters.
- `Dict` — JavaScript plain objects as ordered dictionaries, so key order and `_.assign` overlays can be stated.
- `Catalog` — `getValueInLanguage`, the `vMAJOR.MINOR` service version, the root catalog and the first-service-of-type selection.
- `EmsService` — `_getAbsoluteUrl`, attributions and their Markdown rendering.
- `Lru` — the bounded, least-recently-used GeoJSON cache.
- `FileLayerRules` — format, meta, id, name and field rules of a file layer.
- `TmsRules` — style-URL selection by locale, label rewriting, the colour-property filter, tile and sprite paths.
- `LegacyRules` — the legacy client's catalog, version, defaults, HTML attribution and paths.
- `Fetch` — the server and the error texts of both `getManifest` implementations.

Stateful modules, as Dafny classes whose methods change their fields:

- `EmsClientTs.EMSClient`, `EmsClientTs.TMSService`, `EmsClientTs.FileLayer`;
- `EmsClientJs.EMSClient`, `EmsClientJs.TMSService`.

How the classes model the source:

- Each `_.once` loader is an `Option` slot holding the memoised result. A memoised failure stands for a rejected promise.
- `_invalidateSettings` empties the slots and the cache, and counts an epoch.
- Every endpoint handed to `getManifest` is appended to a `requests` log, so the contracts can say which fetches happen and in what order.

The server is a `Remote`: one finite answer table per document kind.

- A table maps a `Request` (the endpoint and the query parameters `getManifest` extends it with) to a document or a rejection.
- An unknown request is answered with an `Error` whose message is `Not Found`. For the TypeScript client this is the `Error` its `getManifest` builds from a response that is not `ok`. The legacy `getManifest` has no `ok` check, so for the legacy client the same answer stands for a fetch that rejects with that `Error`.

The vector-style inlining loops are written twice, in matching pairs:

- as functions (`InlineLoop`, `LegacyInlineLoop`), with lemmas about the keys, values and requests of the result;
- as `while` loops in `InlineSources`, whose `ensures` ties the dictionary they build, and the requests they make, to those functions.

Two behaviours of the TypeScript code are stated as they are written:

- `_getTextField` compares the separator captured from `{name:xx}` (`:` or `_`) with the language. A two-letter code never equals it, so a label that names its own language is still rewritten (`TmsRules.NameTagAlwaysRewritten`).
- `getUrlTemplateForVector` pops the last tile from the memoised inlined style. A second call for a one-tile source answers `''` (`EmsClientTs.SecondTemplateOfSingleTileIsEmpty`).

## Model

| member | source | states |
|---|---|---|
| Utils.ToAbsoluteUrl | src/utils.ts:13-27 | an empty host gives the path; otherwise host without one trailing slash, one `/`, path without one leading slash; the result starts with the host |
| Utils.TrailingSlashIrrelevant | src/utils.ts:17-26 | a host with or without a trailing `/` resolves a path to the same URL |
| EmsService.AbsoluteUrl | src/ems_service.ts:60-66 | `http(s)://` URLs are returned unchanged, everything else is `toAbsoluteUrl(apiUrl, url)` |
| EmsService.AbsoluteUrlIdempotent | src/ems_service.ts:60-66 | with an absolute API URL, resolving an already resolved URL changes nothing |
| EmsService.Attributions | src/ems_service.ts:33-42 | one entry per configured attribution, in order, with url and label localized |
| EmsService.MarkdownAttribution | src/ems_service.ts:44-51 | no attributions give `''`; one gives its `[label](url)` link |
| EmsService.MarkdownAttributionCons | src/ems_service.ts:44-51 | a longer list renders the first link, `\|` with no spaces, then the rest |
| Catalog.GetValueInLanguage | src/ems_client.ts:269-274 | a missing object gives `''`; a non-empty entry of the locale wins; otherwise the `en` entry, or `undefined` when there is none |
| Catalog.ValueInLanguageOrigin | src/ems_client.ts:269-274 | a defined answer is the locale's entry or the `en` entry |
| Catalog.DefaultLocaleReadsEnglish | src/ems_client.ts:269-274 | with locale `en` the answer is the `en` entry |
| Catalog.UnknownLocaleFallsBack | src/ems_client.ts:273 | a locale missing from the object reads as `en` |
| Catalog.Coerce | src/ems_client.ts:386-387 | version coercion fails exactly when the text has no digit |
| Catalog.CoerceVersionString | src/ems_client.ts:386 | the first `major.minor` digit groups after a digit-free prefix are what is coerced |
| Catalog.CoerceDefault | src/ems_client.ts:19 | the default version `8.1` coerces to 8.1 |
| Catalog.EmsVersion | src/ems_client.ts:385-393 | the result is `v<major>.<minor>`; it fails iff neither the user version nor the default coerces; a coercible user version is used, and otherwise the rendering of the coerced default |
| Catalog.EmsVersionIdempotent | src/ems_client.ts:385-393 | a rendered version coerces back to itself |
| Catalog.EmsVersionDefault | src/ems_client.ts:385-393 | the TypeScript version never fails, and falls back to `v8.1` |
| Catalog.EmsVersionSevenSix | src/ems_client.ts:385-393 | version `7.6` gives `v7.6` |
| Catalog.ServiceVersionSpec | src/ems_client.ts:248 | `ServiceVersion`, the version the client keeps, is exactly what `_getEmsVersion` returns with the default `8.1` |
| Catalog.TsAppVersion | src/ems_client.ts:229-236 | a `kbnVersion` in the config replaces `appVersion` |
| Catalog.FirstServiceOfType | src/ems_client.ts:447-449 | the first catalog service of the requested type, or none when no service has it |
| Catalog.MainCatalogServices | src/ems_client.ts:427-441 | without `manifestServiceUrl` the root catalog has a `tms` entry iff the tile URL is set, first, and a `file` entry iff the file URL is set, last, each with the manifest `toAbsoluteUrl(api, version + "/manifest")` |
| Catalog.MainCatalogLookup | src/ems_client.ts:428-441 | the root catalog has a `tms` entry iff the tile URL is set and a `file` entry iff the file URL is set, each `toAbsoluteUrl(api, version + "/manifest")` |
| Catalog.MainCatalogTrailingSlash | src/ems_client.ts:427-441 | for any tile and file API URLs without a trailing slash, adding one changes no manifest URL of the root catalog |
| Url.UnescapeWithoutPercent | src/ems_client.ts:86-89 | text without `%` is left unchanged |
| Url.UnescapeSkipsPlainText | src/ems_client.ts:86-89 | a `%`-free prefix passes through and the rest is unescaped |
| Url.UnescapeOneVar | src/ems_client.ts:86-89 | `%7B<word chars>%7D` becomes `{<word chars>}` |
| Url.UnescapeVar | src/ems_client.ts:86-89 | an escaped variable followed by more text is unescaped and the rest unescaped after it |
| Url.UnescapeIdempotent | src/ems_client.ts:86-89 | unescaping twice equals unescaping once |
| Url.UnescapeEscapedTemplate | src/ems_client.ts:359-365 | unescaping undoes the brace escaping of the URL parser for any `{word}` template |
| Url.ExtendQueryIdempotent | src/ems_client.ts:77-78 | overlaying the same parameters twice equals overlaying them once |
| Url.FormatOneParam | src/ems_client.ts:65-75 | formatting a prefix with a one-parameter query and no search gives `prefix?key=value` and then the hash |
| Url.ParsePlain | src/ems_client.ts:42-59 | a URL without `?` or `#` parses to its brace-escaped text, with the `/` path Node adds after a bare `http(s)://host`, an empty query and no hash |
| Url.BareHostGetsRootPath | src/ems_client.ts:42 | `protocol://host` with a slashed protocol (`http`, `https`, `ftp`, `gopher`, `file`) and no path gets the path `/` |
| Url.PathKept | src/ems_client.ts:42 | a URL that already has a path keeps it unchanged |
| Url.RootPath | src/ems_client.ts:42 | the prefix is left as it is or gains exactly one `/` |
| Url.ParseWithQuery | src/ems_client.ts:42-59 | a URL with a query keeps that query verbatim as its `search`, beside the parsed pairs |
| Url.ExtendPlainUrl | src/ems_client.ts:38-78 | extending a URL without `?` or `#` gives its rooted, brace-escaped text, `?` and the serialized parameters |
| Url.ExtendTemplateUrl | src/ems_client.ts:359-365 | `extendUrlWithParams` keeps a `{z}/{x}/{y}` template intact, adds the `/` path after a bare host, and appends `?` and the parameters |
| Url.InitialQueryParamsValid | src/ems_client.ts:238-242 | the initial parameters are three distinct keys; `my_app_name` is the app name or `kibana` |
| Dict.OverlaySpec | src/ems_client.ts:306 | `_.assign`: existing keys keep their place, new keys are appended, and supplied values win |
| Dict.OverlayNoChange | src/ems_client.ts:302-311 | overlaying values equal to the current ones gives the same object |
| Dict.OverlayIdempotent | src/ems_client.ts:306 | overlaying the same pairs twice equals once |
| Dict.OverlayOnEmpty | src/ems_client.ts:306 | overlaying onto `{}` copies the object |
| Dict.PutSpec | src/tms_service.ts:115 | `obj[k] = v` sets `k`, keeps an existing key's position, appends a new key and leaves other keys alone |
| Lru.New | src/ems_client.ts:254-256 | a new cache of a positive bound is empty |
| Lru.Touch | src/ems_client.ts:339-341 | reading a key moves it to most-recent and keeps every value |
| Lru.Bump | src/ems_client.ts:334-337 | storing makes the key the most recent and keeps the keys distinct; the count grows only for a new key |
| Lru.Set | src/ems_client.ts:334-337 | after storing, the key reads back its value and is the most recent; the other keys keep their recency order; the least recent entry is dropped exactly when a new key meets a full cache; no other value changes |
| Lru.SetSize | src/ems_client.ts:254-256 | the cache never grows past its bound |
| Lru.SetKeepsOthers | src/ems_client.ts:334-337 | every other key that is not evicted keeps its value |
| Lru.MostRecentSurvives | src/ems_client.ts:334-341 | with a bound of at least two, a stored layer survives the next store |
| Lru.TouchKeepsValues | src/ems_client.ts:339-341 | reading does not change any cached value |
| Lru.Reset | src/ems_client.ts:420 | a reset cache keeps its bound and holds nothing |
| Fetch.TsErrorMessage | src/ems_client.ts:287-292 | an `Error` keeps its message; anything else becomes `Unknown error` |
| Fetch.TsManifestResult | src/ems_client.ts:279-294 | the TypeScript `getManifest` resolves with the document or rejects with that message |
| Fetch.JsErrorMessage | src/ems_client.js:170-176 | a falsy rejection is `Unknown error`; an `Error` keeps its message; other values report their `data`, else `status …` |
| Fetch.JsManifestError | src/ems_client.js:177 | the legacy message is `Unable to retrieve manifest from <url>: <reason>` |
| Fetch.JsManifestResult | src/ems_client.js:165-179 | the legacy `getManifest` resolves with the document or rejects with that message |
| Fetch.ErrorMessagesAgree | src/ems_client.ts:287-292 | both clients give the same reason for an `Error` or a falsy rejection |
| Fetch.JsManifestErrorNamesEndpoint | src/ems_client.js:177 | legacy failures of different endpoints never read the same |
| FileLayerRules.FirstLegacyDefault | src/file_layer.ts:157-159 | the index of the first format marked `legacy_default` |
| FileLayerRules.DefaultFormat | src/file_layer.ts:156-164 | the first `legacy_default` format, else `formats[0]`; none only for an empty list |
| FileLayerRules.FirstOfType | src/file_layer.ts:167-169 | the index of the first format of the requested type |
| FileLayerRules.FormatOfType | src/file_layer.ts:166-171 | a format of the requested type when there is one, else the default format |
| FileLayerRules.FormatOfTypeOfDefault | src/file_layer.ts:166-171 | asking for the default format's type gives a format of that type |
| FileLayerRules.FeatureCollectionPath | src/file_layer.ts:51-52 | the TopoJSON object name is `meta.feature_collection_path`, else `data` |
| FileLayerRules.FormatUrlOfPlainUrl | src/file_layer.ts:143-146 | an absolute format URL without a query becomes the URL, with the `/` path after a bare host, `?` and the client's parameters |
| FileLayerRules.IndexOf | src/file_layer.ts:88 | `indexOf`: the first position of the id, or -1 |
| FileLayerRules.HasId | src/file_layer.ts:87-90 | a layer has an id iff it is its `layer_id` or one of its `legacy_ids` |
| FileLayerRules.DisplayName | src/file_layer.ts:78-81 | the localized layer name; `''` exactly when neither the locale nor `en` has a name |
| FileLayerRules.FieldsInLanguage | src/file_layer.ts:68-76 | one field per config field, in order, with the same type, `name = id` and the localized label |
| FileLayerRules.EmsHotLinkOfPlainPage | src/file_layer.ts:92-101 | a landing page without query or hash gives the rooted page, `?locale=<locale>` and `#file/<layer id>` |
| FileLayerRules.EmsHotLinkOfBareHost | src/file_layer.ts:92-101 | a landing page that is only `protocol://host` gives `protocol://host/?locale=<locale>#file/<layer id>` |
| FileLayerRules.EmsHotLinkOfPageWithQuery | src/file_layer.ts:92-101 | a landing page with a query keeps that query verbatim, adds no locale, and gets `#file/<layer id>` |
| FileLayerRules.ConvertFetched | src/file_layer.ts:47-57 | GeoJSON is kept, TopoJSON is converted at the feature path, any other format type gives nothing |
| TmsRules.Formats | src/tms_service.ts:354-358 | the formats of a locale and format type, in order; the first is the first match in the config |
| TmsRules.StyleUrlForLocale | src/tms_service.ts:336-352 | the configured locale first, then the default locale; the `Cannot find … tile layer for locale … or …` error when neither has a format; else the first match's url |
| TmsRules.StyleUrlFromMatchingFormat | src/tms_service.ts:336-352 | a selected URL belongs to a format of that type in one of the two locales |
| TmsRules.OmtCode | src/tms_service.ts:58-71 | a supported language has a two-letter OpenMapTiles code, and only those do |
| TmsRules.FindNameTag | src/tms_service.ts:204 | finds a `{name:xx}` or `{name_xx}` tag, with its separator and two-character code |
| TmsRules.TextField | src/tms_service.ts:199-219 | a tag whose separator differs from the language gives `coalesce [name:lang] [name<sep>xx]`; when neither that rewrite nor the `latin`/`nonlatin` pattern applies (a tag whose separator equals the language included), the label is returned as it is |
| TmsRules.NameTagAlwaysRewritten | src/tms_service.ts:204-207 | with a supported language, every tagged label is rewritten |
| TmsRules.NonLatinMentionsLatin | src/tms_service.ts:208 | a label containing `nonlatin` contains `latin` |
| TmsRules.TwoScriptLabel | src/tms_service.ts:208-214 | an untagged label mentioning `nonlatin` gives the coalesce of `name:lang` and latin, newline, nonlatin |
| TmsRules.TransformLanguageProperty | src/tms_service.ts:142-156 | an unsupported language fails; a result comes only from a symbol layer with a non-empty string `text-field` and is its rewritten label; such a layer always gets one |
| TmsRules.ColorKeys | src/tms_service.ts:170-186 | the paint keys that are in the colour whitelist, in paint order |
| TmsRules.ColorKeysAppend | src/tms_service.ts:170-186 | the whitelist filter distributes over concatenation |
| TmsRules.TransformColorProperties | src/tms_service.ts:162-197 | `[]` unless the layer type is background, fill, line or symbol and it has paint; else one change per whitelisted paint key, in order, whose colour is `colorize` of the paint value, or undefined when that value is falsy |
| TmsRules.ColorChangesAreWhitelisted | src/tms_service.ts:168-193 | every change names a whitelisted key present in the paint, and its colour is undefined iff the paint value is |
| TmsRules.InlineTiles | src/tms_service.ts:111-114 | each tile is proxied, resolved and extended with the parameters, one for one |
| TmsRules.InlineSource | src/tms_service.ts:115-119 | an inlined source is of type `vector`, keeps its url and attribution, and has tiles exactly when the fetched one does |
| TmsRules.StylePath | src/tms_service.ts:360-376 | a missing or empty sprite or glyph path gives `''`; otherwise proxy plus the resolved path |
| TmsRules.SpriteSheetPath | src/tms_service.ts:282-300 | an empty root gives `''`; otherwise the root, `@2x` exactly when retina, then the extension |
| TmsRules.PopTile | src/tms_service.ts:248 | `tiles.pop()` returns the last tile and leaves the others |
| TmsRules.PopDrains | src/tms_service.ts:248 | `n` pops of at least `n` tiles leave the first tiles and return the last `n`, last first |
| TmsRules.PopAfterDrained | src/tms_service.ts:248 | once every tile has been popped, the next pop finds none |
| EmsClientTs.SourcesWithUrl | src/tms_service.ts:103-105 | the sources that have a url, in the style's order |
| EmsClientTs.SourceEndpointsMatchSources | src/tms_service.ts:104-107 | one source endpoint per source with a url, in order |
| EmsClientTs.InlineLoopKeys | src/tms_service.ts:101-121 | the inlined sources are exactly the sources with a url, in order, with no duplicate |
| EmsClientTs.InlineLoopRequests | src/tms_service.ts:106-110 | a completed loop fetched each source with a url once, in order |
| EmsClientTs.InlineLoopValues | src/tms_service.ts:104-120 | each inlined source is the inlining of what its endpoint answered |
| EmsClientTs.InlineLoopStopsAtFailure | src/tms_service.ts:108-110 | after a failed fetch the loop makes no further request |
| EmsClientTs.InlinedStyleSpec | src/tms_service.ts:98-131 | an inlined style holds exactly the sources with a url, in order, each the inlining of its fetched answer, with proxied sprite and glyphs; it requested each source endpoint once, in order |
| EmsClientTs.VectorTemplate | src/tms_service.ts:246-255 | a missing source or an empty tile list gives `''`; otherwise the last tile is popped from the memoised style and rewritten |
| EmsClientTs.SecondTemplateOfSingleTileIsEmpty | src/tms_service.ts:246-255 | a second template request for a one-tile source answers `''` |
| EmsClientTs.EMSClient.constructor | src/ems_client.ts:227-259 | the configuration defaults: app version, query parameters, version, language `en`, `''` landing page and proxy path, cache size `cacheSize \|\| 10`, fresh loaders |
| EmsClientTs.EMSClient.GetManifest | src/ems_client.ts:279-294 | logs the endpoint and answers what the server says for it and the current parameters |
| EmsClientTs.EMSClient.InvalidateSettings | src/ems_client.ts:419-483 | empties the cache and all five loaders, keeping the cache bound |
| EmsClientTs.EMSClient.AddQueryParams | src/ems_client.ts:301-312 | the parameters become the overlay; with no differing value nothing changes; otherwise the settings are invalidated once |
| EmsClientTs.EMSClient.CacheGeoJson | src/ems_client.ts:334-337 | stores the layer in the LRU cache |
| EmsClientTs.EMSClient.GetCachedGeoJson | src/ems_client.ts:339-341 | answers the cached layer and refreshes its recency |
| EmsClientTs.EMSClient.GetMainCatalog | src/ems_client.ts:421-443 | memoised; the built catalog without a request, or the fetched `manifestServiceUrl` |
| EmsClientTs.EMSClient.LoadMainCatalog | src/ems_client.ts:421-442 | the loader body: the fetched `manifestServiceUrl` manifest with one request, else the built catalog without a request |
| EmsClientTs.EMSClient.GetDefaultTmsCatalog | src/ems_client.ts:445-455 | memoised; the main catalog's requests come first; no `tms` service gives `[]` without a further request, otherwise `proxyPath + manifest` is fetched once; a catalog failure propagates |
| EmsClientTs.EMSClient.GetDefaultFileCatalog | src/ems_client.ts:457-467 | the same rule for the `file` service |
| EmsClientTs.EMSClient.GetTmsServices | src/ems_client.ts:470-475 | memoised; one new service per catalog entry, in order; a first call loads the main and TMS catalogs and logs exactly their requests |
| EmsClientTs.EMSClient.NewTmsServices | src/ems_client.ts:472-474 | one fresh service per config, in order, bound to this client and its proxy path |
| EmsClientTs.EMSClient.GetFileLayers | src/ems_client.ts:477-482 | memoised; one new file layer per catalog entry, in order; a first call loads the main and file catalogs and logs exactly their requests |
| EmsClientTs.EMSClient.NewFileLayers | src/ems_client.ts:479-481 | one fresh file layer per config, in order, bound to this client and its proxy path |
| EmsClientTs.EMSClient.FindFileLayerById | src/ems_client.ts:367-374 | the first file layer with the id, or none when no layer has it; a first call loads the layers as `GetFileLayers` does |
| EmsClientTs.EMSClient.FindTmsServiceById | src/ems_client.ts:376-383 | the first tile service with the id, or none when no service has it; a first call loads the services as `GetTmsServices` does |
| EmsClientTs.FileLayer.constructor | src/file_layer.ts:31-34 | keeps the config, the client and the proxy path |
| EmsClientTs.FileLayer.GetGeoJson | src/file_layer.ts:36-62 | a cache hit answers without a request; a miss fetches the default format's URL and caches only a converted document |
| EmsClientTs.FileLayer.FetchGeoJson | src/file_layer.ts:43-61 | fetches the format's URL once; caches a converted document under the layer id and leaves the cache alone otherwise |
| EmsClientTs.TMSService.constructor | src/tms_service.ts:133-136 | keeps its arguments, with all three loaders fresh |
| EmsClientTs.TMSService.GetRasterStyleJson | src/tms_service.ts:75-83 | memoised; the locale error, `undefined` for a format without url, or the fetched raster style |
| EmsClientTs.TMSService.GetVectorStyleJsonRaw | src/tms_service.ts:85-96 | memoised; the same rule for the vector style |
| EmsClientTs.TMSService.InlineNext | src/tms_service.ts:104-120 | one loop iteration: its requests and result are `InlineStep`'s |
| EmsClientTs.TMSService.InlineSources | src/tms_service.ts:101-121 | the loop builds what `InlineLoop` describes and makes its requests, in order |
| EmsClientTs.TMSService.InlineLoaded | src/tms_service.ts:99-130 | inlines a loaded raw style and sets sprite and glyphs; `undefined` stays `undefined` |
| EmsClientTs.TMSService.GetVectorStyleJsonInlined | src/tms_service.ts:98-131 | memoised; loads the raw style once, then inlines it |
| EmsClientTs.TMSService.LoadInlined | src/tms_service.ts:98-131 | the first call: the raw style's requests, then the inlining requests, and the memoised outcome |
| EmsClientTs.TMSService.GetUrlTemplate | src/tms_service.ts:236-244 | the first raster tile proxied, resolved and extended; `''` without a raster style; a first call memoises the loaded raster style and logs its one request |
| EmsClientTs.TMSService.GetUrlTemplateForVector | src/tms_service.ts:246-255 | `VectorTemplate` on the memoised inlined style, which keeps the popped style; a first call loads the raw style and inlines it, with their requests in order |
| EmsClientTs.TMSService.GetSpriteSheetRootPath | src/tms_service.ts:360-367 | the proxied sprite path, `''` without one; a first call memoises the loaded vector style and logs its one request |
| EmsClientTs.TMSService.GetUrlTemplateForGlyphs | src/tms_service.ts:369-376 | the proxied glyphs path, `''` without one; a first call memoises the loaded vector style and logs its one request |
| EmsClientTs.TMSService.GetSpriteSheetJsonPath | src/tms_service.ts:282-290 | the sprite root, `@2x` when retina, and `.json`; `''` without a root; a first call memoises the loaded vector style and logs its one request |
| EmsClientTs.TMSService.GetSpriteSheetPngPath | src/tms_service.ts:292-300 | the same with `.png`; a first call memoises the loaded vector style and logs its one request |
| LegacyRules.LegacyManifestUrl | src/ems_client.js:231-243 | a legacy manifest URL is `api + "/" + version + "/manifest"` |
| LegacyRules.LegacyMainCatalogServices | src/ems_client.js:231-244 | a `tms` entry iff the tile URL is set, then a `file` entry iff the file URL is set |
| LegacyRules.LegacyCatalogAgrees | src/ems_client.js:231-244 | without slashes at the seam, both clients build the same root catalog |
| LegacyRules.LegacyCatalogDoublesSlash | src/ems_client.js:235 | an API URL ending in `/` gives a `//` in the legacy manifest URL |
| LegacyRules.LegacyEmsVersionDefault | src/ems_client.js:152-160 | the legacy version never fails and falls back to `v7.7` |
| LegacyRules.LegacyServiceVersionSpec | src/ems_client.js:127 | the legacy client's version is what `_getEmsVersion` returns |
| LegacyRules.StringOr | src/ems_client.js:128-132 | a non-string option takes its default |
| LegacyRules.LegacyAppVersion | src/ems_client.js:110-113 | `kbnVersion` is used only when `appVersion` is absent |
| LegacyRules.AppVersionRules | src/ems_client.js:110-113 | the two clients disagree when both versions are given |
| LegacyRules.HtmlLink | src/tms_service.js:186 | an attribution without url is its label; otherwise `<a rel="noreferrer noopener" href=…>`, the label, then `</a>` |
| LegacyRules.HtmlAttribution | src/tms_service.js:182-190 | no attributions give `''`; one gives its sanitized link |
| LegacyRules.HtmlAttributionCons | src/tms_service.js:182-190 | each entry is sanitized, and entries are joined with ` \| ` |
| LegacyRules.LegacyInlineSource | src/tms_service.js:55-66 | a fetched source without tiles fails; otherwise its attribution is overridden, a fetched `type` wins over `vector`, and the tiles are rewritten |
| LegacyRules.InlineSourcesAgreeOnTiles | src/tms_service.js:55-58 | both clients rewrite tiles the same way |
| LegacyRules.LegacyAbsoluteUrl | src/tms_service.js:26-32 | resolves against the tile API URL; a missing URL becomes `undefined` or throws |
| LegacyRules.LegacyProxiedUrl | src/tms_service.js:144-152 | proxy path plus the resolved URL, failing where resolution fails |
| LegacyRules.StylePathsAgree | src/tms_service.js:144-152 | a non-empty sprite path is treated the same by both clients; a missing one differs |
| LegacyRules.LegacyUrlTemplateForVector | src/tms_service.js:116-123 | `null` when the source or its tiles are missing; otherwise the first tile rewritten |
| LegacyRules.LegacySpriteSheetPath | src/tms_service.js:154-165 | root, `@2x` exactly when retina, then the extension, with no empty-root check |
| LegacyRules.SpritePathsAgree | src/tms_service.js:154-165 | a non-empty root gives the same path in both clients; an empty one differs |
| EmsClientJs.LegacySourceOutcome | src/tms_service.js:50-66 | a successful source made one request, to its endpoint, and carries the HTML attribution |
| EmsClientJs.LegacyOutcomesMatch | src/tms_service.js:50-66 | the precomputed outcomes are those of each source |
| EmsClientJs.LegacyInlineLoopKeys | src/tms_service.js:50-67 | a completed loop holds every source, in the style's order |
| EmsClientJs.LegacyInlineLoopRequests | src/tms_service.js:50-53 | a completed loop made one request per source, in order |
| EmsClientJs.LegacyInlineLoopValues | src/tms_service.js:61-66 | every inlined source is its iteration's result |
| EmsClientJs.LegacyInlineLoopStopsAtFailure | src/tms_service.js:53-55 | after a failure the loop makes no further request |
| EmsClientJs.LegacyInlinedStyleSpec | src/tms_service.js:47-74 | the inlined style keeps every source in order; each source carries the HTML attribution and was fetched from its own endpoint |
| EmsClientJs.EMSClient.constructor | src/ems_client.js:94-135 | the legacy defaults: app version, query parameters, version, string-or-default language, landing page and proxy path, identity sanitizer |
| EmsClientJs.EMSClient.GetManifest | src/ems_client.js:165-179 | logs the endpoint and answers the server's document or the wrapped error |
| EmsClientJs.EMSClient.InvalidateSettings | src/ems_client.js:223-282 | empties all five loaders |
| EmsClientJs.EMSClient.AddQueryParams | src/ems_client.js:205-216 | the parameters become the overlay; with no differing value nothing changes; otherwise the settings are invalidated once |
| EmsClientJs.EMSClient.GetMainCatalog | src/ems_client.js:224-246 | memoised; the plain-concatenation catalog, or the fetched `manifestServiceUrl` |
| EmsClientJs.EMSClient.LoadMainCatalog | src/ems_client.js:224-246 | the loader body: the fetched `manifestServiceUrl` manifest with one request, else the concatenated catalog without a request |
| EmsClientJs.EMSClient.GetDefaultTmsCatalog | src/ems_client.js:248-256 | memoised; the main catalog's requests come first; no `tms` service gives `[]` without a further request, otherwise `proxyPath + manifest` is fetched once; a catalog failure propagates |
| EmsClientJs.EMSClient.GetDefaultFileCatalog | src/ems_client.js:258-266 | the same rule for the `file` service |
| EmsClientJs.EMSClient.GetTmsServices | src/ems_client.js:269-274 | memoised; one new service per catalog entry, in order; a first call loads the main and TMS catalogs and logs exactly their requests |
| EmsClientJs.EMSClient.NewTmsServices | src/ems_client.js:269-274 | one fresh legacy service per config, in order, bound to this client and its proxy path |
| EmsClientJs.EMSClient.GetFileLayers | src/ems_client.js:276-281 | memoised; the file layer configs of the file catalog; a first call loads the main and file catalogs and logs exactly their requests |
| EmsClientJs.EMSClient.FindTmsServiceById | src/ems_client.js:337-344 | the first tile service with the id, or none when no service has it; a first call loads the services as `GetTmsServices` does |
| EmsClientJs.TMSService.constructor | src/tms_service.js:76-80 | keeps its arguments, with all three loaders fresh |
| EmsClientJs.TMSService.GetRasterStyleJson | src/tms_service.js:34-38 | memoised; the locale error or the fetched raster style |
| EmsClientJs.TMSService.GetVectorStyleJsonRaw | src/tms_service.js:40-45 | memoised; the locale error or the fetched vector style |
| EmsClientJs.TMSService.InlineNext | src/tms_service.js:50-66 | one loop iteration: its requests and result are `LegacyInlineStep`'s |
| EmsClientJs.TMSService.InlineSources | src/tms_service.js:49-67 | the loop builds what `LegacyInlineLoop` describes and makes its requests, in order |
| EmsClientJs.TMSService.InlineLoaded | src/tms_service.js:48-73 | inlines a loaded raw style and sets sprite and glyphs |
| EmsClientJs.TMSService.GetVectorStyleJsonInlined | src/tms_service.js:47-74 | memoised; loads the raw style once, then inlines it |
| EmsClientJs.TMSService.LoadInlined | src/tms_service.js:47-74 | the first call: the raw style's requests, then the inlining requests, and the memoised outcome |
| EmsClientJs.TMSService.GetUrlTemplate | src/tms_service.js:110-114 | the first raster tile rewritten; a first call memoises the loaded raster style and logs its one request |
| EmsClientJs.TMSService.GetUrlTemplateForVector | src/tms_service.js:116-123 | `LegacyUrlTemplateForVector` on the memoised inlined style, with no change to it; a first call loads the raw style and inlines it, with their requests in order |
| EmsClientJs.TMSService.GetSpriteSheetRootPath | src/tms_service.js:144-147 | proxy plus the resolved sprite path; a first call memoises the loaded vector style and logs its one request |
| EmsClientJs.TMSService.GetUrlTemplateForGlyphs | src/tms_service.js:149-152 | proxy plus the resolved glyphs path; a first call memoises the loaded vector style and logs its one request |
| EmsClientJs.TMSService.GetSpriteSheetPath | src/tms_service.js:154-165 | the sprite root, `@2x` when retina, and the extension; a first call memoises the loaded vector style and logs its one request |

## Left out

- Network and timing are not modelled: `_fetchWithTimeout`, `EMS_LOAD_TIMEOUT`, the injected `fetchFunction`, `response.json()` and a `null` response. The server is a fixed table of answers. A response that is not `ok` is modelled only as the TypeScript `getManifest` reports it; the legacy client's parsing of such a response's body is not modelled.
- Asynchronous interleaving is not modelled. Each `_.once` loader runs sequentially to completion.
- Node's `url.parse`/`url.format` is reduced to a record of a prefix, a `search` string, an ordered query and a hash. Modelled: the `/` path a bare `http(s)://host` gets, the query parsed from the text after `?`, and `format` preferring `search` over `query`. Not modelled: lower-casing of host and protocol, repeated keys parsed into arrays, percent-encoding and decoding beyond `{`/`}`, auth and port.
- Dict.OverlaySpec: keys new to the object are appended in insertion order. JavaScript lists integer-like keys (`"2"`, `"10"`) before all other keys, in ascending numeric order, so after `addQueryParams({"2": "x"})` the source serialises `2` first while the model serialises it last. The contract holds as stated for keys that are not integer-like; the same applies to `AddQueryParams` in both clients.
- Url.ParseWithQuery: the parsed pairs keep the order of the text. `querystring.parse` builds a JavaScript object, which lists integer-like keys first, so a format URL such as `…?b=1&2=x` put through `extendUrl` is serialised with `2` first by the source and in text order by the model.
- `semver.coerce`/`valid` are reduced to "the first digit run, then an optional `.digits`". Pre-release and patch parts are ignored.
- The `lru-cache` library is modelled only by its bound, its recency order and its `get`/`set`/`reset`.
- `topojson.feature` is an uninterpreted `FromTopoJson` value.
- The HTML sanitizer is a function parameter. The colour math of `colorizeColor` is a `colorize` parameter: the contracts say which keys are selected and that each colour is `colorize` of its paint value, not what the blend computes.
- `getOrigin` is left out: its `ORIGIN.EMS` constant comes from `origin.ts`, which is not part of this model.
- `file_layer.js` is not part of this model. The legacy `getFileLayers` answers the layer configs, and the legacy `findFileLayerById` is left out.
- EmsClientJs.EMSClient.GetFileLayers: answers configs, not `FileLayer` objects, because the legacy `FileLayer` class is not part of this model.
- `getDefaultRasterStyle` is left out, in both clients. It loads the memoised raster style and replaces every tile with `proxyPath + _getAbsoluteUrl(tile)`, without query parameters. It composes `GetRasterStyleJson` with `EmsService.AbsoluteUrl`. The TypeScript version answers `undefined` when there is no style.
- `getSpriteSheetMeta` is left out, in both clients. It awaits the JSON and PNG sprite paths, extends the JSON path with the query parameters, and fetches it through `getManifest`, which makes one request. It composes `GetSpriteSheetJsonPath`/`GetSpriteSheetPngPath` (`GetSpriteSheetPath` in the legacy client) with `GetManifest`. The TypeScript version answers `undefined`, without a request, when either path is empty.
- Trivial getters are left out: `getMinZoom`, `getMaxZoom`, `getLocale`, `getDefaultLocale`, `getId`, `getApiUrl`, `getCreatedAt` and `getFields`. Also left out are `getVectorStyleSheet` and `getVectorStyleSheetRaw`, which only return `GetVectorStyleJsonInlined` and `GetVectorStyleJsonRaw`.
- `console.warn` deprecation messages are not modelled.
- An `undefined` app version is sent as `''`.
- A raster style always has at least one tile. An empty `tiles` array is not representable.
- `ValueOf` serializes a missing key as `''`. This cannot happen for well-formed dictionaries.
- Every vector style the server sends is assumed to have well-formed source dictionaries (`RemoteWellFormed`). `InlineStep` and `LegacyInlineStep` skip names without a value, which also cannot happen for well-formed dictionaries.
- The `...vectorJson` spread keeps only `sources`, `sprite` and `glyphs`. The other style fields pass through unread and are not represented.
- Fetch.JsErrorMessage: for a non-`Error` rejection without `data`, the contract fixes only the `status ` prefix, not the rendering of `statusText || status`.
