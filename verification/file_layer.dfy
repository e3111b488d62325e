/** The pure rules of `FileLayer` (src/file_layer.ts): which download format
    is used, its URL and metadata, id matching, localized names and fields,
    the EMS landing-page link, and the GeoJSON conversion choice. */
module FileLayerRules {
  import opened Wrappers
  import opened Strings
  import opened Dict
  import opened Url
  import opened Catalog
  import opened EmsService

  /** `{type, url, legacy_default, meta?}`; only TopoJSON formats carry `meta`. */
  datatype FileFormat = FileFormat(kind: string, url: string, legacyDefault: bool, meta: Option<map<string, string>>)

  /** `{type, id, label}` of one field of a layer. */
  datatype FieldConfig = FieldConfig(kind: string, id: string, labels: I18n)

  /** The manifest entry of one file layer. */
  datatype FileLayerConfig = FileLayerConfig(
    layerId: string,
    createdAt: string,
    formats: seq<FileFormat>,
    fields: seq<FieldConfig>,
    legacyIds: seq<string>,
    layerName: I18n,
    attribution: seq<AttributionConfig>)

  /** `{type, name, description}` of `getFieldsInLanguage()`. */
  datatype LocalizedField = LocalizedField(kind: string, name: string, description: Option<string>)

  /** A fetched JSON document, left uninterpreted. */
  datatype Json = Json(text: string)

  /** A GeoJSON FeatureCollection: the fetched document itself, or the result of
      `topojson.feature(doc, path)` (the conversion is not interpreted). */
  datatype GeoJson = Direct(doc: Json) | FromTopoJson(topology: Json, path: string)

  // ---------------------------------------------------------------------------
  // Format selection

  /** `formats.find(f => f.legacy_default)`, as an index. */
  function FirstLegacyDefault(formats: seq<FileFormat>): (r: Option<nat>)
    ensures r.Some? ==> r.value < |formats| && formats[r.value].legacyDefault
    ensures r.Some? ==> forall j :: 0 <= j < r.value ==> !formats[j].legacyDefault
    ensures r.None? ==> forall j :: 0 <= j < |formats| ==> !formats[j].legacyDefault
    decreases |formats|
  {
    if formats == [] then None
    else if formats[0].legacyDefault then Some(0)
    else match FirstLegacyDefault(formats[1..])
      case None => None
      case Some(i) => Some(i + 1)
  }

  /** `_getDefaultFormat()`: the first legacy default, else `formats[0]`;
      `None` is the `undefined` of an empty format list. */
  function DefaultFormat(formats: seq<FileFormat>): (r: Option<FileFormat>)
    ensures r.None? <==> formats == []
    ensures r.Some? ==> r.value in formats
    ensures (exists i :: 0 <= i < |formats| && formats[i].legacyDefault) ==> r.Some? && r.value.legacyDefault
    ensures (forall i :: 0 <= i < |formats| ==> !formats[i].legacyDefault) && formats != [] ==> r == Some(formats[0])
  {
    match FirstLegacyDefault(formats)
    case Some(i) => Some(formats[i])
    case None => if formats == [] then None else Some(formats[0])
  }

  /** `formats.find(f => f.type === kind)`, as an index. */
  function FirstOfType(formats: seq<FileFormat>, kind: string): (r: Option<nat>)
    ensures r.Some? ==> r.value < |formats| && formats[r.value].kind == kind
    ensures r.Some? ==> forall j :: 0 <= j < r.value ==> formats[j].kind != kind
    ensures r.None? ==> forall j :: 0 <= j < |formats| ==> formats[j].kind != kind
    decreases |formats|
  {
    if formats == [] then None
    else if formats[0].kind == kind then Some(0)
    else match FirstOfType(formats[1..], kind)
      case None => None
      case Some(i) => Some(i + 1)
  }

  /** `_getFormatOfType(kind)`: the first format of that type, else the default format. */
  function FormatOfType(formats: seq<FileFormat>, kind: string): (r: Option<FileFormat>)
    ensures (exists i :: 0 <= i < |formats| && formats[i].kind == kind) ==> r.Some? && r.value.kind == kind
    ensures (forall i :: 0 <= i < |formats| ==> formats[i].kind != kind) ==> r == DefaultFormat(formats)
    ensures r.None? <==> formats == []
  {
    match FirstOfType(formats, kind)
    case Some(i) => Some(formats[i])
    case None => DefaultFormat(formats)
  }

  /** When the default format has the requested type, asking for the type gives a format of that type
      that comes no later than the default. */
  lemma FormatOfTypeOfDefault(formats: seq<FileFormat>)
    requires formats != []
    ensures FormatOfType(formats, DefaultFormat(formats).value.kind).value.kind == DefaultFormat(formats).value.kind
  {
    var d := DefaultFormat(formats).value;
    var i :| 0 <= i < |formats| && formats[i] == d;
    assert formats[i].kind == d.kind;
  }

  /** `meta?.feature_collection_path ?? 'data'`: the TopoJSON object to convert. */
  function FeatureCollectionPath(meta: Option<map<string, string>>): (r: string)
    ensures meta.Some? && "feature_collection_path" in meta.value ==> r == meta.value["feature_collection_path"]
    ensures (meta.None? || "feature_collection_path" !in meta.value) ==> r == "data"
  {
    if meta.Some? && "feature_collection_path" in meta.value then meta.value["feature_collection_path"] else "data"
  }

  /** `_getFormatUrl(format)`: the proxied, absolute URL of the format with the
      client's query parameters. */
  function FormatUrl(proxyPath: string, apiUrl: string, params: Query, f: FileFormat): string
  {
    ExtendUrlWithParams(proxyPath + AbsoluteUrl(apiUrl, f.url), params)
  }

  /** An absolute template URL without query, fragment or `%` gets exactly the
      client's parameters appended. */
  lemma FormatUrlOfPlainUrl(apiUrl: string, params: Query, f: FileFormat)
    requires IsAbsoluteHttpUrl(f.url) && IsTemplate(f.url) && '?' !in f.url && '#' !in f.url
    requires Valid(params) && params.keys != [] && NoPercent(SerializeQuery(params))
    ensures FormatUrl("", apiUrl, params, f) == RootPath(f.url) + ("?" + SerializeQuery(params))
  {
    assert "" + AbsoluteUrl(apiUrl, f.url) == f.url;
    ExtendTemplateUrl(f.url, params);
  }

  // ---------------------------------------------------------------------------
  // Identity and names

  /** `legacy_ids.indexOf(id)` */
  function IndexOf(ids: seq<string>, id: string): (r: int)
    ensures -1 <= r < |ids|
    ensures r >= 0 ==> ids[r] == id && forall j :: 0 <= j < r ==> ids[j] != id
    ensures r == -1 ==> forall j :: 0 <= j < |ids| ==> ids[j] != id
    decreases |ids|
  {
    if ids == [] then -1
    else if ids[0] == id then 0
    else
      var i := IndexOf(ids[1..], id);
      if i == -1 then -1 else i + 1
  }

  /** `hasId(id)` */
  function HasId(config: FileLayerConfig, id: string): (r: bool)
    ensures r <==> id == config.layerId || id in config.legacyIds
  {
    var matchesLegacyId := IndexOf(config.legacyIds, id) >= 0;
    config.layerId == id || matchesLegacyId
  }

  /** `getDisplayName()`: the localized layer name, `''` when there is none. */
  function DisplayName(language: string, config: FileLayerConfig): (r: string)
    ensures language in config.layerName && config.layerName[language] != "" ==> r == config.layerName[language]
    ensures r != "" ==> r in config.layerName.Values
    ensures !(language in config.layerName && config.layerName[language] != "") && DefaultLanguage in config.layerName
      ==> r == config.layerName[DefaultLanguage]
    ensures !(language in config.layerName && config.layerName[language] != "") && DefaultLanguage !in config.layerName
      ==> r == ""
  {
    var layerName := GetValueInLanguage(language, Some(config.layerName));
    if layerName.Some? && layerName.value != "" then layerName.value else ""
  }

  /** `getFieldsInLanguage()` */
  function FieldsInLanguage(language: string, fields: seq<FieldConfig>): (r: seq<LocalizedField>)
    ensures |r| == |fields|
    ensures forall i :: 0 <= i < |r| ==> r[i].kind == fields[i].kind && r[i].name == fields[i].id
    ensures forall i :: 0 <= i < |r| ==> r[i].description == GetValueInLanguage(language, Some(fields[i].labels))
  {
    seq(|fields|, i requires 0 <= i < |fields| =>
      LocalizedField(fields[i].kind, fields[i].id, GetValueInLanguage(language, Some(fields[i].labels))))
  }

  /** `getEMSHotLink()`: the landing page with a `locale` parameter and a
      `#file/<id>` fragment. The parsed `search` is kept, and `url.format`
      writes it in place of the query. */
  function EmsHotLink(landingPageUrl: string, layerId: string, locale: string): string {
    var u := Parse(landingPageUrl);
    Format(ParsedUrl(u.prefix, u.search, Put(u.query, "locale", locale), "#file/" + layerId))
  }

  /** On a landing page without query or fragment the link is the page (with
      the path `/` after a bare host), the locale and the fragment. */
  lemma EmsHotLinkOfPlainPage(landingPageUrl: string, layerId: string, locale: string)
    requires '?' !in landingPageUrl && '#' !in landingPageUrl
    ensures EmsHotLink(landingPageUrl, layerId, locale)
      == EscapeBraces(RootPath(landingPageUrl)) + ("?locale=" + locale) + ("#file/" + layerId)
  {
    ParsePlain(landingPageUrl);
    assert Put(Empty<string>(), "locale", locale) == Dict(["locale"], map["locale" := locale]);
    FormatOneParam(EscapeBraces(RootPath(landingPageUrl)), "locale", locale, "#file/" + layerId);
    assert "?" + "locale" + "=" + locale == "?locale=" + locale by {
      assert "?" + "locale" + "=" == "?locale=";
    }
  }

  /** A landing page that is a bare host, as the client's default one is,
      gets the path `/` before the locale. */
  lemma EmsHotLinkOfBareHost(protocol: string, host: string, layerId: string, locale: string)
    requires protocol in SlashedProtocols && host != []
    requires '/' !in host && '?' !in host && '#' !in host && '{' !in host && '}' !in host
    ensures EmsHotLink(protocol + "://" + host, layerId, locale)
      == protocol + "://" + host + "/" + ("?locale=" + locale) + ("#file/" + layerId)
  {
    var page := protocol + "://" + host;
    var root := page + "/";
    assert '?' !in protocol && '#' !in protocol && '{' !in protocol && '}' !in protocol;
    BareHostGetsRootPath(protocol, host);
    EscapeBracesPlain(root);
    EmsHotLinkOfPlainPage(page, layerId, locale);
  }

  /** A landing page that already has a query keeps it as written: `url.format`
      prefers the parsed `search`, so no locale is added. */
  lemma EmsHotLinkOfPageWithQuery(page: string, query: string, layerId: string, locale: string)
    requires '?' !in page && '#' !in page && '#' !in query && '{' !in query && '}' !in query
    ensures EmsHotLink(page + "?" + query, layerId, locale)
      == EscapeBraces(RootPath(page)) + ("?" + query) + ("#file/" + layerId)
  {
    var search := "?" + query;
    ParseWithQuery(page, query);
    var u := Parse(page + "?" + query);
    assert u.search == search by {
      assert '{' !in search && '}' !in search by {
        forall i | 0 <= i < |search| ensures search[i] != '{' && search[i] != '}' {
          if i > 0 {
            assert search[i] == query[i - 1];
          }
        }
      }
      EscapeBracesPlain(search);
    }
    var link := ParsedUrl(u.prefix, u.search, Put(u.query, "locale", locale), "#file/" + layerId);
    assert EmsHotLink(page + "?" + query, layerId, locale) == Format(link);
  }

  // ---------------------------------------------------------------------------
  // GeoJSON conversion

  /** The conversion step of `getGeoJson()`: GeoJSON is used as fetched,
      TopoJSON is converted at the format's feature collection path, any other
      format type gives nothing. */
  function ConvertFetched(format: FileFormat, doc: Json): (r: Option<GeoJson>)
    ensures r.Some? <==> format.kind == "geojson" || format.kind == "topojson"
    ensures format.kind == "geojson" ==> r == Some(Direct(doc))
    ensures format.kind == "topojson" ==> r == Some(FromTopoJson(doc, FeatureCollectionPath(format.meta)))
  {
    if format.kind == "geojson" then Some(Direct(doc))
    else if format.kind == "topojson" then Some(FromTopoJson(doc, FeatureCollectionPath(format.meta)))
    else None
  }

  /** What `getGeoJson` resolves to once the manifest request settled: the
      request's failure, `undefined` for an empty answer, otherwise the
      converted document (`undefined` for an unknown format type). */
  function LoadedGeoJson(format: FileFormat, fetched: Result<Option<Json>, string>): Result<Option<GeoJson>, string>
  {
    match fetched
    case Failure(e) => Failure(e)
    case Success(None) => Success(None)
    case Success(Some(doc)) => Success(ConvertFetched(format, doc))
  }
}
