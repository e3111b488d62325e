/** The shared behaviour of every EMS layer (`AbstractEmsService`,
    src/ems_service.ts): resolving relative URLs against the layer's API URL
    and rendering the localized attribution list. */
module EmsService {
  import opened Wrappers
  import opened Strings
  import opened Utils
  import opened Catalog

  /** One localized attribution entry `{url, label}` (the label is `text`); `None` is `undefined`. */
  datatype Attribution = Attribution(url: Option<string>, text: Option<string>)

  /** `/^https?:\/\//.test(url)` */
  predicate IsAbsoluteHttpUrl(url: string) {
    StartsWith(url, "http://") || StartsWith(url, "https://")
  }

  /** `_getAbsoluteUrl(url)` for a layer whose API URL is `apiUrl`. */
  function AbsoluteUrl(apiUrl: string, url: string): (r: string)
    ensures IsAbsoluteHttpUrl(url) ==> r == url
    ensures !IsAbsoluteHttpUrl(url) ==> r == ToAbsoluteUrl(apiUrl, url)
  {
    if IsAbsoluteHttpUrl(url) then url else ToAbsoluteUrl(apiUrl, url)
  }

  /** Resolving is idempotent when the API URL is itself an http(s) URL. */
  lemma AbsoluteUrlIdempotent(apiUrl: string, url: string)
    requires IsAbsoluteHttpUrl(apiUrl)
    ensures AbsoluteUrl(apiUrl, AbsoluteUrl(apiUrl, url)) == AbsoluteUrl(apiUrl, url)
  {
    if !IsAbsoluteHttpUrl(url) {
      var r := ToAbsoluteUrl(apiUrl, url);
      assert StartsWith(r, apiUrl);
      if StartsWith(apiUrl, "http://") {
        assert r[..7] == apiUrl[..7];
      } else {
        assert r[..8] == apiUrl[..8];
      }
    }
  }

  /** `getAttributions()` */
  function Attributions(language: string, attribution: seq<AttributionConfig>): (r: seq<Attribution>)
    ensures |r| == |attribution|
    ensures forall i :: 0 <= i < |r| ==>
      r[i] == Attribution(GetValueInLanguage(language, Some(attribution[i].urls)), GetValueInLanguage(language, Some(attribution[i].labels)))
  {
    seq(|attribution|, i requires 0 <= i < |attribution| =>
      Attribution(GetValueInLanguage(language, Some(attribution[i].urls)), GetValueInLanguage(language, Some(attribution[i].labels))))
  }

  /** A value interpolated into a template literal: `undefined` prints as such. */
  function Show(v: Option<string>): string {
    match v
    case None => "undefined"
    case Some(s) => s
  }

  /** `[${label}](${url})` */
  function MarkdownLink(a: Attribution): string {
    "[" + Show(a.text) + "](" + Show(a.url) + ")"
  }

  /** `getMarkdownAttribution()`: the Markdown links joined with `|`. */
  function MarkdownAttribution(language: string, attribution: seq<AttributionConfig>): (r: string)
    ensures attribution == [] ==> r == ""
    ensures |attribution| == 1 ==> r == MarkdownLink(Attributions(language, attribution)[0])
  {
    var links := Attributions(language, attribution);
    Join(seq(|links|, i requires 0 <= i < |links| => MarkdownLink(links[i])), "|")
  }

  /** Each further entry adds `|` and its link, so the rendering is a fold over the list. */
  lemma MarkdownAttributionCons(language: string, a: AttributionConfig, rest: seq<AttributionConfig>)
    requires rest != []
    ensures MarkdownAttribution(language, [a] + rest)
      == MarkdownLink(Attributions(language, [a])[0]) + "|" + MarkdownAttribution(language, rest)
  {
    var links := Attributions(language, [a] + rest);
    var parts := seq(|links|, i requires 0 <= i < |links| => MarkdownLink(links[i]));
    var restLinks := Attributions(language, rest);
    var restParts := seq(|restLinks|, i requires 0 <= i < |restLinks| => MarkdownLink(restLinks[i]));
    assert parts[1..] == restParts;
  }
}
