/** The configuration documents of the Elastic Maps Service and the pure rules
    of `EMSClient` that build and read them (src/ems_client.ts): locale
    fallback, the `vMAJOR.MINOR` service version and the root catalog. */
module Catalog {
  import opened Wrappers
  import opened Strings
  import opened Utils

  /** A localized string table such as `{en: 'World Countries', fr: '...'}`. */
  type I18n = map<string, string>

  /** The locale the Elastic Maps Service always provides. */
  const DefaultLanguage := "en"

  /** `{label, url}` of one attribution entry of a layer, both localized. */
  datatype AttributionConfig = AttributionConfig(labels: I18n, urls: I18n)

  /** One entry of the root catalog: `{type: 'tms' | 'file', manifest}`. */
  datatype CatalogService = CatalogService(kind: string, manifest: string)

  // ---------------------------------------------------------------------------
  // getValueInLanguage

  /** `getValueInLanguage(i18nObject)` for the configured `language`. A missing
      table gives `''`; an empty entry is falsy and falls back to `en`; `None`
      in the result is JavaScript's `undefined` (no usable entry and no `en`). */
  function GetValueInLanguage(language: string, obj: Option<I18n>): (r: Option<string>)
    ensures obj.None? ==> r == Some("")
    ensures obj.Some? && language in obj.value && obj.value[language] != "" ==> r == Some(obj.value[language])
    ensures obj.Some? && !(language in obj.value && obj.value[language] != "") ==>
      r == (if DefaultLanguage in obj.value then Some(obj.value[DefaultLanguage]) else None)
  {
    match obj
    case None => Some("")
    case Some(m) =>
      if language in m && m[language] != "" then Some(m[language])
      else if DefaultLanguage in m then Some(m[DefaultLanguage])
      else None
  }

  /** Any non-empty result comes from the configured locale or from `en`. */
  lemma ValueInLanguageOrigin(language: string, m: I18n)
    ensures var r := GetValueInLanguage(language, Some(m));
      r.Some? ==> (language in m && r.value == m[language]) || (DefaultLanguage in m && r.value == m[DefaultLanguage])
  {
  }

  /** With the default locale configured there is no fallback: the result is the `en` entry. */
  lemma DefaultLocaleReadsEnglish(m: I18n)
    ensures GetValueInLanguage(DefaultLanguage, Some(m)) == if DefaultLanguage in m then Some(m[DefaultLanguage]) else None
  {
  }

  /** A locale missing from the table behaves as the default locale. */
  lemma UnknownLocaleFallsBack(language: string, m: I18n)
    requires language !in m
    ensures GetValueInLanguage(language, Some(m)) == GetValueInLanguage(DefaultLanguage, Some(m))
  {
  }

  // ---------------------------------------------------------------------------
  // _getEmsVersion

  /** Length of the run of decimal digits at the start of `s`. */
  function DigitRun(s: string): (n: nat)
    ensures n <= |s|
    ensures forall i :: 0 <= i < n ==> IsDigit(s[i])
    ensures n < |s| ==> !IsDigit(s[n])
    decreases |s|
  {
    if s != [] && IsDigit(s[0]) then 1 + DigitRun(s[1..]) else 0
  }

  /** Position of the first decimal digit of `s`. */
  function FirstDigit(s: string): (r: Option<nat>)
    ensures r.Some? ==> r.value < |s| && IsDigit(s[r.value]) && forall i :: 0 <= i < r.value ==> !IsDigit(s[i])
    ensures r.None? ==> forall i :: 0 <= i < |s| ==> !IsDigit(s[i])
    decreases |s|
  {
    if s == [] then None
    else if IsDigit(s[0]) then Some(0)
    else match FirstDigit(s[1..])
      case None => None
      case Some(i) => Some(i + 1)
  }

  /** The minor version after the major digits: a `.` followed by digits, else 0. */
  function MinorOf(rest: string): nat {
    if |rest| >= 2 && rest[0] == '.' && IsDigit(rest[1]) then
      var m := DigitRun(rest[1..]);
      DigitsValue(rest[1..][..m])
    else 0
  }

  /** The (major, minor) pair read from text that starts with a digit. */
  function CoerceFrom(t: string): (nat, nat) {
    var n := DigitRun(t);
    (DigitsValue(t[..n]), MinorOf(t[n..]))
  }

  /** The (major, minor) pair read from `s` by `semver.coerce`: the first run of
      digits is the major version, a `.` and a second run of digits right after
      it is the minor version (0 otherwise). No digit at all gives `null`. */
  function Coerce(s: string): (r: Option<(nat, nat)>)
    ensures r.None? <==> forall i :: 0 <= i < |s| ==> !IsDigit(s[i])
  {
    match FirstDigit(s)
    case None => None
    case Some(i) => Some(CoerceFrom(s[i..]))
  }

  /** `v${major}.${minor}` */
  function RenderVersion(major: nat, minor: nat): string {
    "v" + NatToString(major) + "." + NatToString(minor)
  }

  /** `_getEmsVersion(version)`: the user's version when it coerces, else the
      coercion of the built-in default; an error only when neither coerces. */
  function EmsVersion(version: Option<string>, defaultVersion: string): (r: Result<string, string>)
    ensures r.Success? ==> exists major: nat, minor: nat :: r.value == RenderVersion(major, minor)
    ensures r.Failure? <==> Coerce(defaultVersion).None? && (version.None? || Coerce(version.value).None?)
    ensures version.Some? && Coerce(version.value).Some? ==>
      r == Success(RenderVersion(Coerce(version.value).value.0, Coerce(version.value).value.1))
    ensures (version.None? || Coerce(version.value).None?) && Coerce(defaultVersion).Some? ==>
      r == Success(RenderVersion(Coerce(defaultVersion).value.0, Coerce(defaultVersion).value.1))
  {
    var user := if version.Some? then Coerce(version.value) else None;
    var chosen := if user.Some? then user else Coerce(defaultVersion);
    match chosen
    case Some((major, minor)) => Success(RenderVersion(major, minor))
    case None => Failure("Invalid version: " + (if version.Some? then version.value else "undefined"))
  }

  /** The default of src/ems_client.ts. */
  const DefaultEmsVersion := "8.1"

  predicate AllDigits(s: string) {
    forall i :: 0 <= i < |s| ==> IsDigit(s[i])
  }

  lemma {:induction false} DigitRunOfDigits(a: string, b: string)
    requires AllDigits(a)
    requires b == [] || !IsDigit(b[0])
    ensures DigitRun(a + b) == |a|
    decreases |a|
  {
    if a != [] {
      assert (a + b)[0] == a[0];
      assert (a + b)[1..] == a[1..] + b;
      DigitRunOfDigits(a[1..], b);
    } else {
      assert a + b == b;
    }
  }

  lemma {:induction false} FirstDigitAfter(p: string, t: string)
    requires forall i :: 0 <= i < |p| ==> !IsDigit(p[i])
    requires t != [] && IsDigit(t[0])
    ensures FirstDigit(p + t) == Some(|p|)
    decreases |p|
  {
    if p != [] {
      assert (p + t)[1..] == p[1..] + t;
      FirstDigitAfter(p[1..], t);
    } else {
      assert p + t == t;
    }
  }

  lemma MinorOfDigits(b: string, tail: string)
    requires b != [] && AllDigits(b)
    requires tail == [] || !IsDigit(tail[0])
    ensures MinorOf("." + b + tail) == DigitsValue(b)
  {
    var rest := "." + b + tail;
    assert rest[1..] == b + tail;
    DigitRunOfDigits(b, tail);
    assert rest[1..][..|b|] == b;
  }

  lemma CoerceFromDigits(a: string, rest: string)
    requires a != [] && AllDigits(a)
    requires rest == [] || !IsDigit(rest[0])
    ensures CoerceFrom(a + rest) == (DigitsValue(a), MinorOf(rest))
  {
    DigitRunOfDigits(a, rest);
    assert (a + rest)[..|a|] == a;
    assert (a + rest)[|a|..] == rest;
  }

  /** `semver.coerce` of text of the form `<no digits> major.minor <no leading digit>`. */
  lemma CoerceVersionString(p: string, a: string, b: string, tail: string)
    requires forall i :: 0 <= i < |p| ==> !IsDigit(p[i])
    requires a != [] && AllDigits(a) && b != [] && AllDigits(b)
    requires tail == [] || !IsDigit(tail[0])
    ensures Coerce(p + a + "." + b + tail) == Some((DigitsValue(a), DigitsValue(b)))
  {
    var rest := "." + b + tail;
    var s := p + (a + rest);
    assert p + a + "." + b + tail == s by {
      ConcatAssoc(p + a, "." + b, tail);
      ConcatAssoc(p + a, ".", b);
      ConcatAssoc(p, a, rest);
    }
    assert Coerce(s) == Some(CoerceFrom(a + rest)) by {
      FirstDigitAfter(p, a + rest);
      assert s[|p|..] == a + rest;
    }
    assert CoerceFrom(a + rest) == (DigitsValue(a), DigitsValue(b)) by {
      CoerceFromDigits(a, rest);
      MinorOfDigits(b, tail);
    }
  }

  /** A rendered version reads back as itself: `_getEmsVersion` is idempotent. */
  lemma EmsVersionIdempotent(version: Option<string>, defaultVersion: string)
    requires EmsVersion(version, defaultVersion).Success?
    ensures var r := EmsVersion(version, defaultVersion).value;
      EmsVersion(Some(r), defaultVersion) == Success(r)
  {
    var r := EmsVersion(version, defaultVersion).value;
    var major: nat, minor: nat :| r == RenderVersion(major, minor);
    CoerceVersionString("v", NatToString(major), NatToString(minor), "");
    assert "v" + NatToString(major) + "." + NatToString(minor) + "" == r;
    DigitsValueOfNatToString(major);
    DigitsValueOfNatToString(minor);
  }

  lemma CoerceDefault()
    ensures Coerce(DefaultEmsVersion) == Some((8, 1))
  {
    CoerceVersionString("", "8", "1", "");
    assert "" + "8" + "." + "1" + "" == DefaultEmsVersion;
    assert DigitsValue("8") == 8 by { assert "8"[..0] == ""; }
    assert DigitsValue("1") == 1 by { assert "1"[..0] == ""; }
  }

  /** With the built-in default the version never fails, and input without
      digits falls back to `v8.1`. */
  lemma EmsVersionDefault(version: Option<string>)
    ensures EmsVersion(version, DefaultEmsVersion).Success?
    ensures (version.None? || Coerce(version.value).None?) ==> EmsVersion(version, DefaultEmsVersion) == Success("v8.1")
  {
    CoerceDefault();
    assert NatToString(8) == "8" && NatToString(1) == "1";
    assert RenderVersion(8, 1) == "v8.1";
  }

  /** The version of the catalog tests: `7.6` gives `v7.6`. */
  lemma EmsVersionSevenSix()
    ensures EmsVersion(Some("7.6"), DefaultEmsVersion) == Success("v7.6")
  {
    CoerceVersionString("", "7", "6", "");
    assert "" + "7" + "." + "6" + "" == "7.6";
    assert DigitsValue("7") == 7 by { assert "7"[..0] == ""; }
    assert DigitsValue("6") == 6 by { assert "6"[..0] == ""; }
    assert NatToString(7) == "7" && NatToString(6) == "6";
    assert RenderVersion(7, 6) == "v7.6";
  }

  /** The version a client is configured with: `_getEmsVersion` never throws
      with the default to fall back on. */
  function ServiceVersion(version: Option<string>): string
  {
    match (if version.Some? then Coerce(version.value) else None)
    case Some((major, minor)) => RenderVersion(major, minor)
    case None => "v8.1"
  }

  /** `ServiceVersion` is `_getEmsVersion` with the default `8.1`. */
  lemma ServiceVersionSpec(version: Option<string>)
    ensures EmsVersion(version, DefaultEmsVersion) == Success(ServiceVersion(version))
  {
    EmsVersionDefault(version);
  }

  /** The app version of the TypeScript client: a `kbnVersion` key, when
      present, wins over `appVersion`. */
  function TsAppVersion(appVersion: string, kbnVersion: Option<string>): (r: string)
    ensures kbnVersion.Some? ==> r == kbnVersion.value
    ensures kbnVersion.None? ==> r == appVersion
  {
    if kbnVersion.Some? then kbnVersion.value else appVersion
  }

  // ---------------------------------------------------------------------------
  // The root catalog

  /** The services of the root catalog built from the API URLs (no
      `manifestServiceUrl`): a `tms` entry when there is a tile API, then a
      `file` entry when there is a file API. */
  function MainCatalogServices(tileApiUrl: string, fileApiUrl: string, emsVersion: string): (r: seq<CatalogService>)
    ensures |r| == (if tileApiUrl != "" then 1 else 0) + (if fileApiUrl != "" then 1 else 0)
    ensures tileApiUrl != "" ==> r[0] == CatalogService("tms", ToAbsoluteUrl(tileApiUrl, emsVersion + "/manifest"))
    ensures fileApiUrl != "" ==> r[|r| - 1] == CatalogService("file", ToAbsoluteUrl(fileApiUrl, emsVersion + "/manifest"))
  {
    (if tileApiUrl != "" then [CatalogService("tms", ToAbsoluteUrl(tileApiUrl, emsVersion + "/manifest"))] else [])
    + (if fileApiUrl != "" then [CatalogService("file", ToAbsoluteUrl(fileApiUrl, emsVersion + "/manifest"))] else [])
  }

  /** `services.find(s => s.type === kind)` */
  function FirstServiceOfType(services: seq<CatalogService>, kind: string): (r: Option<CatalogService>)
    ensures r.None? <==> forall i :: 0 <= i < |services| ==> services[i].kind != kind
    ensures r.Some? ==> r.value.kind == kind && r.value in services
    ensures r.Some? ==> exists i :: 0 <= i < |services| && services[i] == r.value && (forall j :: 0 <= j < i ==> services[j].kind != kind)
    decreases |services|
  {
    if services == [] then None
    else if services[0].kind == kind then Some(services[0])
    else
      var r := FirstServiceOfType(services[1..], kind);
      if r.Some? then
        var i :| 0 <= i < |services[1..]| && services[1..][i] == r.value && (forall j :: 0 <= j < i ==> services[1..][j].kind != kind);
        assert services[i + 1] == r.value;
        r
      else r
  }

  /** The root catalog answers the tile and file lookups with the matching API. */
  lemma MainCatalogLookup(tileApiUrl: string, fileApiUrl: string, emsVersion: string)
    ensures var services := MainCatalogServices(tileApiUrl, fileApiUrl, emsVersion);
      && FirstServiceOfType(services, "tms") == (if tileApiUrl != "" then Some(CatalogService("tms", ToAbsoluteUrl(tileApiUrl, emsVersion + "/manifest"))) else None)
      && FirstServiceOfType(services, "file") == (if fileApiUrl != "" then Some(CatalogService("file", ToAbsoluteUrl(fileApiUrl, emsVersion + "/manifest"))) else None)
  {
    var services := MainCatalogServices(tileApiUrl, fileApiUrl, emsVersion);
    if tileApiUrl != "" && fileApiUrl != "" {
      assert services[1..] == [services[1]];
    }
  }

  /** The manifest URLs of the root catalog do not depend on a trailing
      slash on the API URLs. */
  lemma MainCatalogTrailingSlash(tileApiUrl: string, fileApiUrl: string, emsVersion: string)
    requires tileApiUrl != "" && tileApiUrl[|tileApiUrl| - 1] != '/'
    requires fileApiUrl != "" && fileApiUrl[|fileApiUrl| - 1] != '/'
    ensures MainCatalogServices(tileApiUrl + "/", fileApiUrl + "/", emsVersion)
      == MainCatalogServices(tileApiUrl, fileApiUrl, emsVersion)
  {
    TrailingSlashIrrelevant(tileApiUrl, emsVersion + "/manifest");
    TrailingSlashIrrelevant(fileApiUrl, emsVersion + "/manifest");
  }
}
