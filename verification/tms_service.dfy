/** The pure rules of `TMSService` (src/tms_service.ts): style selection by
    locale, the label rewriting for a display language, the colour-property
    selection, the inlined vector sources and the sprite and glyph paths. */
module TmsRules {
  import opened Wrappers
  import opened Strings
  import opened Dict
  import opened Url
  import opened Catalog
  import opened EmsService

  /** `{locale, format, url}` of one style of a tile service; `url` may be absent. */
  datatype TmsFormat = TmsFormat(locale: string, format: string, url: Option<string>)

  /** The manifest entry of one tile service. */
  datatype TmsServiceConfig = TmsServiceConfig(id: string, name: I18n, formats: seq<TmsFormat>, attribution: seq<AttributionConfig>)

  // ---------------------------------------------------------------------------
  // Style selection

  /** `_getFormats(formatType, locale)` */
  function Formats(formats: seq<TmsFormat>, formatType: string, locale: string): (r: seq<TmsFormat>)
    ensures forall f :: f in r <==> f in formats && f.locale == locale && f.format == formatType
    ensures |r| <= |formats|
    ensures r != [] ==> exists i :: (0 <= i < |formats| && formats[i] == r[0]
      && (forall j :: 0 <= j < i ==> !(formats[j].locale == locale && formats[j].format == formatType)))
    decreases |formats|
  {
    if formats == [] then []
    else
      var rest := Formats(formats[1..], formatType, locale);
      if formats[0].locale == locale && formats[0].format == formatType then [formats[0]] + rest
      else
        assert rest != [] ==> exists i :: (0 <= i < |formats| && formats[i] == rest[0]
          && (forall j :: 0 <= j < i ==> !(formats[j].locale == locale && formats[j].format == formatType))) by {
          if rest != [] {
            var i :| 0 <= i < |formats[1..]| && formats[1..][i] == rest[0]
              && (forall j :: 0 <= j < i ==> !(formats[1..][j].locale == locale && formats[1..][j].format == formatType));
            assert formats[i + 1] == rest[0];
          }
        }
        rest
  }

  predicate HasFormat(formats: seq<TmsFormat>, formatType: string, locale: string) {
    exists i :: 0 <= i < |formats| && formats[i].locale == locale && formats[i].format == formatType
  }

  /** `_getStyleUrlForLocale(formatType)`: the URL of the first style of that
      type for the configured locale, else for the default locale; an error
      when neither locale has one. `Success(None)` is a style without `url`. */
  function StyleUrlForLocale(formats: seq<TmsFormat>, formatType: string, locale: string, defaultLocale: string): (r: Result<Option<string>, string>)
    ensures r.Failure? <==> !HasFormat(formats, formatType, locale) && !HasFormat(formats, formatType, defaultLocale)
    ensures r.Failure? ==> r.error == "Cannot find " + formatType + " tile layer for locale " + locale + " or " + defaultLocale
    ensures HasFormat(formats, formatType, locale) ==> r == Success(Formats(formats, formatType, locale)[0].url)
    ensures !HasFormat(formats, formatType, locale) && HasFormat(formats, formatType, defaultLocale) ==>
      r == Success(Formats(formats, formatType, defaultLocale)[0].url)
  {
    var localized := Formats(formats, formatType, locale);
    var candidates := if localized == [] then Formats(formats, formatType, defaultLocale) else localized;
    if candidates == [] then
      Failure("Cannot find " + formatType + " tile layer for locale " + locale + " or " + defaultLocale)
    else
      Success(candidates[0].url)
  }

  /** The selected style really has the requested type and one of the two locales. */
  lemma StyleUrlFromMatchingFormat(formats: seq<TmsFormat>, formatType: string, locale: string, defaultLocale: string)
    requires StyleUrlForLocale(formats, formatType, locale, defaultLocale).Success?
    ensures exists f :: (f in formats && f.format == formatType && (f.locale == locale || f.locale == defaultLocale)
      && StyleUrlForLocale(formats, formatType, locale, defaultLocale).value == f.url)
  {
    var localized := Formats(formats, formatType, locale);
    if localized != [] {
      assert localized[0] in localized;
    } else {
      var d := Formats(formats, formatType, defaultLocale);
      assert d[0] in d;
    }
  }

  // ---------------------------------------------------------------------------
  // Display language of labels

  /** `TMSService.SupportedLanguages`: locale, label and OpenMapTiles code. */
  const SupportedLanguages: seq<(string, string, string)> := [
    ("en", "English", "en"),
    ("ch-CN", "Chinese", "zh"),
    ("ja-JP", "Japanese", "ja"),
    ("fr-FR", "French", "fr"),
    ("es", "Spanish", "es"),
    ("ar", "Arabic", "ar"),
    ("hi-IN", "Hindi", "hi"),
    ("ru-RU", "Russian", "ru"),
    ("pt-PT", "Portuguese", "pt"),
    ("it", "Italian", "it"),
    ("de", "German", "de"),
    ("ko", "Korean", "ko")
  ]

  /** `SupportedLanguages[lang].omtCode`; `None` where the lookup is `undefined`. */
  function OmtCode(lang: string): (r: Option<string>)
    ensures r.Some? <==> exists i :: 0 <= i < |SupportedLanguages| && SupportedLanguages[i].0 == lang
    ensures r.Some? ==> |r.value| == 2
  {
    OmtCodeIn(SupportedLanguages, lang)
  }

  function OmtCodeIn(table: seq<(string, string, string)>, lang: string): (r: Option<string>)
    requires forall i :: 0 <= i < |table| ==> |table[i].2| == 2
    ensures r.Some? <==> exists i :: 0 <= i < |table| && table[i].0 == lang
    ensures r.Some? ==> |r.value| == 2
    decreases |table|
  {
    if table == [] then None
    else if table[0].0 == lang then Some(table[0].2)
    else
      var r := OmtCodeIn(table[1..], lang);
      assert r.Some? ==> exists i :: 0 <= i < |table| && table[i].0 == lang by {
        if r.Some? {
          var i :| 0 <= i < |table[1..]| && table[1..][i].0 == lang;
          assert table[i + 1].0 == lang;
        }
      }
      r
  }

  /** A MapLibre expression, as far as the label rewriting builds one. */
  datatype Expr = Lit(s: string) | Get(key: string) | Concat(parts: seq<Expr>) | Coalesce(parts: seq<Expr>)

  /** Characters `.` does not match in a JavaScript regular expression. */
  predicate IsLineTerminator(c: char) {
    c == '\n' || c == '\r' || c == ' ' || c == ' '
  }

  /** `/\{name([:_])(.{2})\}/` matches at the start of `s`. */
  predicate NameTagAt(s: string) {
    && |s| >= 9
    && s[0] == '{' && s[1] == 'n' && s[2] == 'a' && s[3] == 'm' && s[4] == 'e'
    && (s[5] == ':' || s[5] == '_')
    && !IsLineTerminator(s[6]) && !IsLineTerminator(s[7])
    && s[8] == '}'
  }

  /** `text.match(/\{name([:_])(.{2})\}/)`: the separator and the two-character
      code of the leftmost match. */
  function FindNameTag(text: string): (r: Option<(char, string)>)
    ensures r.Some? <==> exists i :: 0 <= i < |text| && NameTagAt(text[i..])
    ensures r.Some? ==> (r.value.0 == ':' || r.value.0 == '_') && |r.value.1| == 2
    decreases |text|
  {
    if text == [] then None
    else if NameTagAt(text) then
      assert text[0..] == text;
      Some((text[5], text[6..8]))
    else
      var r := FindNameTag(text[1..]);
      assert r.Some? <==> exists i :: 0 <= i < |text| && NameTagAt(text[i..]) by {
        if r.Some? {
          var i :| 0 <= i < |text[1..]| && NameTagAt(text[1..][i..]);
          assert text[1..][i..] == text[i + 1..];
        } else {
          forall i | 0 <= i < |text| ensures !NameTagAt(text[i..]) {
            if i > 0 {
              assert text[1..][i - 1..] == text[i..];
            }
          }
        }
      }
      r
  }

  /** `_getTextField(text, lang)` as written: a `{name:xx}` or `{name_xx}` tag
      is compared by its separator (capture group 1) with `lang`; a label
      mentioning `latin` and `nonlatin` gets the two-script form; anything else
      is kept. */
  function TextField(text: string, lang: string): (r: Expr)
    ensures FindNameTag(text).Some? && [FindNameTag(text).value.0] != lang ==>
      r == Coalesce([Get("name:" + lang), Get("name" + [FindNameTag(text).value.0] + FindNameTag(text).value.1)])
    ensures r.Lit? ==> r == Lit(text)
    ensures FindNameTag(text).None? && !Contains(text, "nonlatin") ==> r == Lit(text)
    ensures (!(FindNameTag(text).Some? && [FindNameTag(text).value.0] != lang)
             && !(Contains(text, "latin") && Contains(text, "nonlatin"))) ==> r == Lit(text)
  {
    var labelMatch := FindNameTag(text);
    if labelMatch.Some? && [labelMatch.value.0] != lang then
      Coalesce([Get("name:" + lang), Get("name" + [labelMatch.value.0] + labelMatch.value.1)])
    else if Contains(text, "latin") && Contains(text, "nonlatin") then
      Coalesce([Get("name:" + lang), Concat([Get("name:latin"), Lit("\n"), Get("name:nonlatin")])])
    else Lit(text)
  }

  lemma {:induction false} ContainsShift(s: string, p: string, q: string)
    requires Contains(s, p + q)
    ensures Contains(s, q)
    decreases |s|
  {
    if StartsWith(s, p + q) {
      assert s[|p|..|p| + |q|] == (p + q)[|p|..];
      ContainsWitness(s, q, |p|);
    } else {
      ContainsShift(s[1..], p, q);
    }
  }

  lemma ContainsInfix(a: string, p: string, c: string)
    ensures Contains(a + p + c, p)
  {
    var s := a + p + c;
    assert s[|a|..|a| + |p|] == p;
    ContainsWitness(s, p, |a|);
  }

  /** A label mentioning `nonlatin` also mentions `latin`, so the second rule
      depends on `nonlatin` alone. */
  lemma NonLatinMentionsLatin(text: string)
    requires Contains(text, "nonlatin")
    ensures Contains(text, "latin")
  {
    assert "nonlatin" == "non" + "latin";
    ContainsShift(text, "non", "latin");
  }

  /** The separator is one character and every OpenMapTiles code has two, so
      the language comparison of `_getTextField` never holds: every name tag is
      rewritten, even one already in the display language. */
  lemma NameTagAlwaysRewritten(text: string, lang: string)
    requires FindNameTag(text).Some? && OmtCode(lang).Some?
    ensures var t := FindNameTag(text).value;
      TextField(text, OmtCode(lang).value) == Coalesce([Get("name:" + OmtCode(lang).value), Get("name" + [t.0] + t.1)])
  {
  }

  /** A label without a name tag that mentions `nonlatin` shows the name in
      the display language, else the Latin and non-Latin names on two lines. */
  lemma TwoScriptLabel(text: string, lang: string)
    requires FindNameTag(text).None? && Contains(text, "nonlatin")
    ensures TextField(text, lang)
      == Coalesce([Get("name:" + lang), Concat([Get("name:latin"), Lit("\n"), Get("name:nonlatin")])])
  {
    NonLatinMentionsLatin(text);
  }

  /** A layout property value: a string, or any other JSON value. */
  datatype LayoutValue = StringValue(s: string) | OtherValue

  /** A style layer: its `type`, its `layout['text-field']` when it has a
      layout, and its `paint` properties (a falsy paint value is `None`). */
  datatype Layer = Layer(kind: string, layout: Option<Option<LayoutValue>>, paint: Option<Dict<Option<string>>>)

  /** `transformLanguageProperty(layer, lang)`: the new `text-field` of a symbol
      layer with a non-empty string text; `Success(None)` is `undefined`. An
      unsupported language fails before the layer is looked at. */
  function TransformLanguageProperty(layer: Layer, lang: string): (r: Result<Option<Expr>, string>)
    ensures r.Failure? <==> OmtCode(lang).None?
    ensures r.Success? && r.value.Some? ==> layer.kind == "symbol" && layer.layout.Some?
    ensures r.Success? && r.value.Some? ==> exists s :: (s != "" && layer.layout.value == Some(StringValue(s))
      && r.value.value == TextField(s, OmtCode(lang).value))
    ensures (OmtCode(lang).Some? && layer.kind == "symbol" && layer.layout.Some? && layer.layout.value.Some?
      && layer.layout.value.value.StringValue? && layer.layout.value.value.s != "") ==> r.Success? && r.value.Some?
  {
    match OmtCode(lang)
    case None => Failure("Cannot read properties of undefined (reading 'omtCode')")
    case Some(omtLang) =>
      if layer.kind == "symbol" && layer.layout.Some? then
        match layer.layout.value
        case Some(StringValue(textField)) =>
          if textField != "" then Success(Some(TextField(textField, omtLang))) else Success(None)
        case _ => Success(None)
      else Success(None)
  }

  // ---------------------------------------------------------------------------
  // Colour properties

  /** The paint properties whose colour is rewritten. */
  const ColorProperties: seq<string> := [
    "background-color", "circle-color", "circle-stroke-color", "fill-color",
    "fill-extrusion-color", "fill-outline-color", "icon-color", "icon-halo-color",
    "line-color", "text-color", "text-halo-color"
  ]

  /** The layer types whose colours are rewritten. */
  const ColorLayerTypes: seq<string> := ["background", "fill", "line", "symbol"]

  /** `{property, color}`; `None` is the falsy paint value passed through. */
  datatype ColorChange = ColorChange(property: string, color: Option<string>)

  /** `Object.keys(paint).filter(key => whitelist.indexOf(key) !== -1)` */
  function ColorKeys(keys: seq<string>): (r: seq<string>)
    ensures forall k :: k in r <==> k in keys && k in ColorProperties
    ensures |r| <= |keys|
    decreases |keys|
  {
    if keys == [] then []
    else (if keys[0] in ColorProperties then [keys[0]] else []) + ColorKeys(keys[1..])
  }

  /** Filtering keeps the order: the selection of `a + b` is that of `a` then that of `b`. */
  lemma {:induction false} ColorKeysAppend(a: seq<string>, b: seq<string>)
    ensures ColorKeys(a + b) == ColorKeys(a) + ColorKeys(b)
    decreases |a|
  {
    if a != [] {
      assert (a + b)[0] == a[0];
      assert (a + b)[1..] == a[1..] + b;
      ColorKeysAppend(a[1..], b);
    } else {
      assert a + b == b;
    }
  }

  /** `transformColorProperties(layer, color, operation, percentage)` with the
      colour blend given as `colorize`. */
  function TransformColorProperties(layer: Layer, colorize: string -> string): (r: seq<ColorChange>)
    ensures !(layer.kind in ColorLayerTypes && layer.paint.Some?) ==> r == []
    ensures layer.kind in ColorLayerTypes && layer.paint.Some? ==>
      |r| == |ColorKeys(layer.paint.value.keys)|
      && forall i :: 0 <= i < |r| ==> r[i].property == ColorKeys(layer.paint.value.keys)[i]
    ensures layer.kind in ColorLayerTypes && layer.paint.Some? ==>
      forall i :: 0 <= i < |r| ==>
        r[i].color == if r[i].property in layer.paint.value.vals && layer.paint.value.vals[r[i].property].Some?
          then Some(colorize(layer.paint.value.vals[r[i].property].value)) else None
  {
    if layer.kind in ColorLayerTypes && layer.paint.Some? then
      var paint := layer.paint.value;
      var types := ColorKeys(paint.keys);
      seq(|types|, i requires 0 <= i < |types| =>
        var paintColor := if types[i] in paint.vals then paint.vals[types[i]] else None;
        ColorChange(types[i], if paintColor.Some? then Some(colorize(paintColor.value)) else None))
    else []
  }

  /** Every change names a whitelisted colour property of the layer, and a
      falsy paint value stays falsy. */
  lemma ColorChangesAreWhitelisted(layer: Layer, colorize: string -> string)
    requires layer.paint.Some? && Valid(layer.paint.value)
    ensures forall c :: c in TransformColorProperties(layer, colorize) ==>
      c.property in ColorProperties && c.property in layer.paint.value.vals
      && (layer.paint.value.vals[c.property].None? <==> c.color.None?)
  {
    var r := TransformColorProperties(layer, colorize);
    if layer.kind in ColorLayerTypes {
      var types := ColorKeys(layer.paint.value.keys);
      forall c | c in r
        ensures c.property in ColorProperties && c.property in layer.paint.value.vals
        ensures layer.paint.value.vals[c.property].None? <==> c.color.None?
      {
        var i :| 0 <= i < |r| && r[i] == c;
        assert types[i] in types;
      }
    }
  }

  // ---------------------------------------------------------------------------
  // Vector sources, sprites and glyphs

  /** A source of a vector style: `url` on the raw style, `tiles` once fetched;
      `type` and `attribution` as the document carries them. */
  datatype Source = Source(url: Option<string>, tiles: Option<seq<string>>, kind: Option<string>, attribution: Option<string>)

  /** A vector style: its sources by name, its sprite root and its glyph template. */
  datatype VectorStyle = VectorStyle(sources: Dict<Source>, sprite: Option<string>, glyphs: Option<string>)

  /** `proxyPath + _getAbsoluteUrl(url)` */
  function ProxiedUrl(proxyPath: string, apiUrl: string, url: string): string {
    proxyPath + AbsoluteUrl(apiUrl, url)
  }

  /** The tile URLs of a fetched source: each proxied, made absolute and extended. */
  function InlineTiles(tiles: seq<string>, proxyPath: string, apiUrl: string, params: Query): (r: seq<string>)
    ensures |r| == |tiles|
    ensures forall i :: 0 <= i < |r| ==> r[i] == ExtendUrlWithParams(ProxiedUrl(proxyPath, apiUrl, tiles[i]), params)
  {
    seq(|tiles|, i requires 0 <= i < |tiles| => ExtendUrlWithParams(ProxiedUrl(proxyPath, apiUrl, tiles[i]), params))
  }

  /** `{...sourceJson, type: 'vector', tiles}`: the fetched source with its type
      forced to `vector` and its tiles rewritten. */
  function InlineSource(fetched: Source, proxyPath: string, apiUrl: string, params: Query): (r: Source)
    ensures r.kind == Some("vector")
    ensures r.url == fetched.url && r.attribution == fetched.attribution
    ensures r.tiles.Some? <==> fetched.tiles.Some?
    ensures fetched.tiles.Some? ==> r.tiles.value == InlineTiles(fetched.tiles.value, proxyPath, apiUrl, params)
  {
    Source(fetched.url,
      if fetched.tiles.Some? then Some(InlineTiles(fetched.tiles.value, proxyPath, apiUrl, params)) else None,
      Some("vector"), fetched.attribution)
  }

  /** `_getSpriteSheetRootPath()` / `_getUrlTemplateForGlyphs()`: the proxied
      absolute path, `''` when the style has none. */
  function StylePath(proxyPath: string, apiUrl: string, path: Option<string>): (r: string)
    ensures path.None? || path.value == "" ==> r == ""
    ensures path.Some? && path.value != "" ==> r == ProxiedUrl(proxyPath, apiUrl, path.value)
  {
    if path.Some? && path.value != "" then ProxiedUrl(proxyPath, apiUrl, path.value) else ""
  }

  /** `getSpriteSheetJsonPath(isRetina)` / `getSpriteSheetPngPath(isRetina)`
      for the extension `.json` / `.png`. */
  function SpriteSheetPath(root: string, isRetina: bool, extension: string): (r: string)
    ensures root == "" ==> r == ""
    ensures root != "" ==> StartsWith(r, root) && EndsWith(r, extension)
    ensures root != "" ==> |r| == |root| + (if isRetina then 3 else 0) + |extension|
    ensures root != "" && isRetina ==> r[|root|..|root| + 3] == "@2x"
  {
    if root != "" then root + (if isRetina then "@2x" else "") + extension else ""
  }

  /** `tiles.pop()`: the last tile and the array left behind; `None` for a
      missing or empty array. */
  function PopTile(tiles: Option<seq<string>>): (r: (Option<string>, Option<seq<string>>))
    ensures tiles.None? ==> r == (None, None)
    ensures tiles.Some? && tiles.value == [] ==> r == (None, tiles)
    ensures tiles.Some? && tiles.value != [] ==>
      r.0.Some? && r.1.Some? && r.1.value + [r.0.value] == tiles.value
  {
    match tiles
    case None => (None, None)
    case Some(ts) =>
      if ts == [] then (None, tiles)
      else (Some(ts[|ts| - 1]), Some(ts[..|ts| - 1]))
  }

  /** `n` successive `tiles.pop()` calls on the same array: what is left and
      what each call answered. */
  function PopTimes(tiles: Option<seq<string>>, n: nat): (Option<seq<string>>, seq<Option<string>>)
    decreases n
  {
    if n == 0 then (tiles, [])
    else
      var (tile, rest) := PopTile(tiles);
      var (left, popped) := PopTimes(rest, n - 1);
      (left, [tile] + popped)
  }

  /** Each pop consumes one tile, from the last one back: `n` pops of an array
      of at least `n` tiles answer its last `n` tiles in reverse order and leave
      the others. */
  lemma {:induction false} PopDrains(tiles: seq<string>, n: nat)
    requires n <= |tiles|
    ensures PopTimes(Some(tiles), n).0 == Some(tiles[..|tiles| - n])
    ensures |PopTimes(Some(tiles), n).1| == n
    ensures forall i :: 0 <= i < n ==> PopTimes(Some(tiles), n).1[i] == Some(tiles[|tiles| - 1 - i])
  {
    if n > 0 {
      var rest := tiles[..|tiles| - 1];
      assert PopTile(Some(tiles)) == (Some(tiles[|tiles| - 1]), Some(rest));
      PopDrains(rest, n - 1);
      assert rest[..|rest| - (n - 1)] == tiles[..|tiles| - n];
      var popped := PopTimes(Some(tiles), n).1;
      forall i | 0 <= i < n
        ensures popped[i] == Some(tiles[|tiles| - 1 - i])
      {
        if i > 0 {
          assert popped[i] == PopTimes(Some(rest), n - 1).1[i - 1];
        }
      }
    } else {
      assert tiles[..|tiles|] == tiles;
    }
  }

  /** Once every tile is popped, the next pop finds none. */
  lemma PopAfterDrained(tiles: seq<string>)
    ensures PopTile(PopTimes(Some(tiles), |tiles|).0).0 == None
  {
    PopDrains(tiles, |tiles|);
  }
}
