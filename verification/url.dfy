/** The URL rewriting of src/ems_client.ts: `extendUrl` (overlaying query
    parameters on a parsed URL), `unescapeTemplateVars` and `extendUrlWithParams`.
    A URL is a record of everything before the query (`prefix`), the query
    text as parsed (`search`, with its `?`), the ordered query parameters and
    the fragment (`hash`, with its `#`). */
module Url {
  import opened Wrappers
  import opened Strings
  import opened Dict

  type Query = Dict<string>

  datatype ParsedUrl = ParsedUrl(prefix: string, search: string, query: Query, hash: string)

  predicate IsWordChar(c: char) {
    ('a' <= c <= 'z') || ('A' <= c <= 'Z') || ('0' <= c <= '9') || c == '_'
  }

  predicate NoPercent(s: string) {
    forall i :: 0 <= i < |s| ==> s[i] != '%'
  }

  /** A character other than `%` in front of text without `%`. */
  lemma NoPercentCons(c: char, t: string)
    requires c != '%' && NoPercent(t)
    ensures NoPercent([c] + t)
  {
    forall i | 0 <= i < |[c] + t| ensures ([c] + t)[i] != '%' {
      if i > 0 {
        assert ([c] + t)[i] == t[i - 1];
      }
    }
  }

  // ---------------------------------------------------------------------------
  // unescapeTemplateVars: /%7B(\w+?)%7D/g  ->  {$1}

  /** Length of the run of word characters at the start of `s`. */
  function WordRun(s: string): (n: nat)
    ensures n <= |s|
    ensures forall i :: 0 <= i < n ==> IsWordChar(s[i])
    ensures n < |s| ==> !IsWordChar(s[n])
    decreases |s|
  {
    if s != [] && IsWordChar(s[0]) then 1 + WordRun(s[1..]) else 0
  }

  /** `s[i..]` starts with the three characters `x`, `y`, `z`. */
  predicate TripleAt(s: string, i: nat, x: char, y: char, z: char) {
    i + 3 <= |s| && s[i] == x && s[i + 1] == y && s[i + 2] == z
  }

  /** Length of the run of word characters that starts at `s[3..]`. */
  function VarNameLength(s: string): (n: nat)
    requires |s| >= 3
    ensures 3 + n <= |s|
  {
    WordRun(s[3..])
  }

  /** The pattern `%7B<word chars>%7D` matches at the start of `s`. Word
      characters never include `%`, so the lazy `\w+?` always takes the whole
      run of word characters that follows `%7B`. */
  predicate TemplateVarAt(s: string) {
    TripleAt(s, 0, '%', '7', 'B') && VarNameLength(s) > 0 && TripleAt(s, 3 + VarNameLength(s), '%', '7', 'D')
  }

  /** `unescapeTemplateVars(url)`: a global, left-to-right replacement. */
  function UnescapeTemplateVars(s: string): (r: string)
    decreases |s|
  {
    if s == [] then []
    else if TemplateVarAt(s) then
      var n := VarNameLength(s);
      "{" + s[3..3 + n] + "}" + UnescapeTemplateVars(s[6 + n..])
    else [s[0]] + UnescapeTemplateVars(s[1..])
  }

  /** Outside a match, one character is copied. */
  lemma UnescapeStep(s: string)
    requires s != [] && !TemplateVarAt(s)
    ensures UnescapeTemplateVars(s) == [s[0]] + UnescapeTemplateVars(s[1..])
  {
  }

  /** The first character of the output. */
  lemma UnescapeHead(s: string)
    requires s != []
    ensures UnescapeTemplateVars(s) != []
    ensures UnescapeTemplateVars(s)[0] == if TemplateVarAt(s) then '{' else s[0]
  {
  }

  /** Text without `%` is copied unchanged. */
  lemma {:induction false} UnescapeSkipsPlainText(x: string, y: string)
    requires NoPercent(x)
    ensures UnescapeTemplateVars(x + y) == x + UnescapeTemplateVars(y)
    decreases |x|
  {
    if x != [] {
      var xy := x + y;
      assert xy[0] == x[0] && xy[0] != '%';
      assert xy[1..] == x[1..] + y;
      UnescapeStep(xy);
      assert NoPercent(x[1..]) by {
        forall i | 0 <= i < |x[1..]| ensures x[1..][i] != '%' {
          assert x[1..][i] == x[i + 1];
        }
      }
      UnescapeSkipsPlainText(x[1..], y);
      assert x == [x[0]] + x[1..];
    } else {
      assert x + y == y;
    }
  }

  /** A URL without any `%` is left as it is. */
  lemma UnescapeWithoutPercent(s: string)
    requires NoPercent(s)
    ensures UnescapeTemplateVars(s) == s
  {
    UnescapeSkipsPlainText(s, "");
    assert s + "" == s;
  }

  /** The run of word characters of `a + b` is `a` when `b` does not continue it. */
  lemma {:induction false} RunOfWordChars(a: string, b: string)
    requires forall i :: 0 <= i < |a| ==> IsWordChar(a[i])
    requires b == [] || !IsWordChar(b[0])
    ensures WordRun(a + b) == |a|
    decreases |a|
  {
    if a != [] {
      assert (a + b)[0] == a[0];
      assert (a + b)[1..] == a[1..] + b;
      RunOfWordChars(a[1..], b);
    } else {
      assert a + b == b;
    }
  }

  /** Decoding a match: `%7B` + name + `%7D` + rest becomes `{name}` + decoded rest. */
  lemma UnescapeVar(name: string, rest: string)
    requires name != [] && forall i :: 0 <= i < |name| ==> IsWordChar(name[i])
    ensures UnescapeTemplateVars("%7B" + name + "%7D" + rest) == "{" + name + "}" + UnescapeTemplateVars(rest)
  {
    var s := "%7B" + name + "%7D" + rest;
    assert s[3..] == name + ("%7D" + rest);
    RunOfWordChars(name, "%7D" + rest);
    assert VarNameLength(s) == |name|;
    assert s[3 + |name|..] == "%7D" + rest;
    assert TemplateVarAt(s);
    assert s[3..3 + |name|] == name;
    assert s[6 + |name|..] == rest;
  }

  /** One encoded template variable is decoded. */
  lemma UnescapeOneVar(name: string)
    requires name != [] && forall i :: 0 <= i < |name| ==> IsWordChar(name[i])
    ensures UnescapeTemplateVars("%7B" + name + "%7D") == "{" + name + "}"
  {
    UnescapeVar(name, "");
    assert "%7B" + name + "%7D" + "" == "%7B" + name + "%7D";
    assert "{" + name + "}" + "" == "{" + name + "}";
  }

  /** `s` starts with the two characters `a`, `b`. */
  predicate PairAt(s: string, a: char, b: char) {
    |s| >= 2 && s[0] == a && s[1] == b
  }

  /** A two-character prefix made of characters other than `%` and `{` is never
      created by the replacement. */
  lemma NoNewPair(t: string, a: char, b: char)
    requires a != '%' && a != '{' && b != '{'
    requires !PairAt(t, a, b)
    ensures !PairAt(UnescapeTemplateVars(t), a, b)
  {
    if t != [] {
      UnescapeHead(t);
      if t[0] == a {
        assert !TemplateVarAt(t);
        UnescapeStep(t);
        if t[1..] != [] {
          UnescapeHead(t[1..]);
        }
      }
    }
  }

  /** Decoding text that does not start with a word character or with `%7D`
      gives text that does not either. */
  lemma NoNewCloseAtHead(rest: string)
    requires rest == [] || !IsWordChar(rest[0])
    requires !TripleAt(rest, 0, '%', '7', 'D')
    ensures var w := UnescapeTemplateVars(rest);
      (w == [] || !IsWordChar(w[0])) && !TripleAt(w, 0, '%', '7', 'D')
  {
    if rest != [] {
      UnescapeHead(rest);
      if rest[0] == '%' && !TemplateVarAt(rest) {
        UnescapeStep(rest);
        assert !PairAt(rest[1..], '7', 'D');
        NoNewPair(rest[1..], '7', 'D');
      }
    }
  }

  /** A triple after a prefix `a` is a triple of what follows, shifted by `|a|`. */
  lemma TripleAfter(a: string, w: string, k: nat, x: char, y: char, z: char)
    ensures TripleAt(a + w, |a| + k, x, y, z) == TripleAt(w, k, x, y, z)
  {
    if k + 3 <= |w| {
      assert (a + w)[|a| + k] == w[k] && (a + w)[|a| + k + 1] == w[k + 1] && (a + w)[|a| + k + 2] == w[k + 2];
    }
  }

  /** The part of `NoNewMatchAfterPercent` after `%7B`: the name run and what follows it. */
  lemma NoNewCloseAfterName(u: string)
    requires WordRun(u) > 0 && !TripleAt(u, WordRun(u), '%', '7', 'D')
    ensures var n := WordRun(u);
      var v := UnescapeTemplateVars(u);
      && |v| >= n && v[..n] == u[..n]
      && WordRun(v) == n
      && !TripleAt(v, n, '%', '7', 'D')
  {
    var n := WordRun(u);
    var name, rest := u[..n], u[n..];
    assert u == name + rest;
    assert NoPercent(name);
    TripleAfter(name, rest, 0, '%', '7', 'D');
    UnescapeSkipsPlainText(name, rest);
    var w := UnescapeTemplateVars(rest);
    NoNewCloseAtHead(rest);
    RunOfWordChars(name, w);
    TripleAfter(name, w, 0, '%', '7', 'D');
    assert (name + w)[..n] == name;
  }

  /** A `%` that does not start a match keeps not starting one after the rest
      of the string has been decoded. */
  lemma NoNewMatchAfterPercent(s: string)
    requires s != [] && s[0] == '%' && !TemplateVarAt(s)
    ensures !TemplateVarAt("%" + UnescapeTemplateVars(s[1..]))
  {
    var t := s[1..];
    var x := "%" + UnescapeTemplateVars(t);
    if !PairAt(t, '7', 'B') {
      NoNewPair(t, '7', 'B');
      assert !TripleAt(x, 0, '%', '7', 'B');
    } else {
      var u := t[2..];
      assert s == "%7B" + u;
      assert t == "7B" + u;
      UnescapeSkipsPlainText("7B", u);
      var v := UnescapeTemplateVars(u);
      assert x == "%7B" + v;
      assert s[3..] == u && x[3..] == v;
      var n := WordRun(u);
      if n > 0 {
        assert VarNameLength(s) == n;
        TripleAfter("%7B", u, n, '%', '7', 'D');
        assert !TripleAt(u, n, '%', '7', 'D');
        NoNewCloseAfterName(u);
        assert VarNameLength(x) == n;
        TripleAfter("%7B", v, n, '%', '7', 'D');
        assert !TripleAt(x, 3 + n, '%', '7', 'D');
      } else {
        if u != [] {
          UnescapeHead(u);
        }
        assert VarNameLength(x) == 0;
      }
    }
  }


  /** Unescaping is idempotent: a decoded URL has nothing left to decode. */
  lemma {:induction false} UnescapeIdempotent(s: string)
    ensures UnescapeTemplateVars(UnescapeTemplateVars(s)) == UnescapeTemplateVars(s)
    decreases |s|
  {
    if s != [] {
      if TemplateVarAt(s) {
        var n := VarNameLength(s);
        var name := s[3..3 + n];
        UnescapeIdempotent(s[6 + n..]);
        assert NoPercent("{" + name + "}") by {
          forall i | 0 <= i < n ensures name[i] != '%' {
            assert IsWordChar(s[3..][i]);
          }
        }
        UnescapeSkipsPlainText("{" + name + "}", UnescapeTemplateVars(s[6 + n..]));
      } else {
        UnescapeStep(s);
        UnescapeIdempotent(s[1..]);
        var v := UnescapeTemplateVars(s[1..]);
        if s[0] == '%' {
          NoNewMatchAfterPercent(s);
          UnescapeStep([s[0]] + v);
          assert ([s[0]] + v)[1..] == v;
        } else {
          UnescapeSkipsPlainText([s[0]], v);
        }
      }
    }
  }

  // ---------------------------------------------------------------------------
  // The escaping that Node's `url.parse` applies to `{` and `}`.

  function EscapeBraces(s: string): (r: string)
    decreases |s|
  {
    if s == [] then []
    else (if s[0] == '{' then "%7B" else if s[0] == '}' then "%7D" else [s[0]]) + EscapeBraces(s[1..])
  }

  lemma {:induction false} EscapeBracesOfWordPrefix(w: string, z: string)
    requires forall i :: 0 <= i < |w| ==> IsWordChar(w[i])
    ensures EscapeBraces(w + z) == w + EscapeBraces(z)
    decreases |w|
  {
    if w != [] {
      assert (w + z)[0] == w[0];
      assert (w + z)[1..] == w[1..] + z;
      EscapeBracesOfWordPrefix(w[1..], z);
      assert w == [w[0]] + w[1..];
    } else {
      assert w + z == z;
    }
  }

  /** A URL template: no `%`, and every brace belongs to a `{name}` variable. */
  predicate IsTemplate(t: string)
    decreases |t|
  {
    if t == [] then true
    else if t[0] == '{' then
      var n := WordRun(t[1..]);
      n > 0 && 1 + n < |t| && t[1 + n] == '}' && IsTemplate(t[2 + n..])
    else t[0] != '}' && t[0] != '%' && IsTemplate(t[1..])
  }

  /** The escaped form of `{name}` followed by more text. */
  lemma EscapeVar(name: string, rest: string)
    requires forall i :: 0 <= i < |name| ==> IsWordChar(name[i])
    ensures EscapeBraces("{" + name + "}" + rest) == "%7B" + name + "%7D" + EscapeBraces(rest)
  {
    var s := "{" + name + "}" + rest;
    assert s[0] == '{' && s[1..] == name + ("}" + rest);
    EscapeBracesOfWordPrefix(name, "}" + rest);
    assert ("}" + rest)[0] == '}' && ("}" + rest)[1..] == rest;
  }

  lemma EscapeVarThen(name: string, t': string, y: string)
    requires forall i :: 0 <= i < |name| ==> IsWordChar(name[i])
    ensures EscapeBraces("{" + name + "}" + t') + y == "%7B" + name + "%7D" + (EscapeBraces(t') + y)
  {
    EscapeVar(name, t');
  }

  /** The `{name}` step of `UnescapeEscapedTemplate`. */
  lemma UnescapeEscapedVar(name: string, t': string, y: string)
    requires name != [] && forall i :: 0 <= i < |name| ==> IsWordChar(name[i])
    requires UnescapeTemplateVars(EscapeBraces(t') + y) == t' + UnescapeTemplateVars(y)
    ensures UnescapeTemplateVars(EscapeBraces("{" + name + "}" + t') + y) == "{" + name + "}" + t' + UnescapeTemplateVars(y)
  {
    EscapeVarThen(name, t', y);
    UnescapeVar(name, EscapeBraces(t') + y);
    ConcatAssoc("{" + name + "}", t', UnescapeTemplateVars(y));
  }

  lemma EscapeCharThen(t: string, y: string)
    requires t != [] && t[0] != '{' && t[0] != '}'
    ensures EscapeBraces(t) + y == [t[0]] + (EscapeBraces(t[1..]) + y)
  {
    assert EscapeBraces(t) == [t[0]] + EscapeBraces(t[1..]);
  }

  /** The plain-character step of `UnescapeEscapedTemplate`. */
  lemma UnescapeEscapedChar(t: string, y: string)
    requires t != [] && t[0] != '{' && t[0] != '}' && t[0] != '%'
    requires UnescapeTemplateVars(EscapeBraces(t[1..]) + y) == t[1..] + UnescapeTemplateVars(y)
    ensures UnescapeTemplateVars(EscapeBraces(t) + y) == t + UnescapeTemplateVars(y)
  {
    EscapeCharThen(t, y);
    UnescapeSkipsPlainText([t[0]], EscapeBraces(t[1..]) + y);
    ConcatAssoc([t[0]], t[1..], UnescapeTemplateVars(y));
    assert [t[0]] + t[1..] == t;
  }

  /** Decoding undoes the parser's escaping of a template's variables. */
  lemma {:induction false} UnescapeEscapedTemplate(t: string, y: string)
    requires IsTemplate(t)
    ensures UnescapeTemplateVars(EscapeBraces(t) + y) == t + UnescapeTemplateVars(y)
    decreases |t|
  {
    if t == [] {
      assert EscapeBraces(t) + y == y;
    } else if t[0] == '{' {
      var n := WordRun(t[1..]);
      var name := t[1..1 + n];
      var t' := t[2 + n..];
      assert forall i :: 0 <= i < n ==> IsWordChar(name[i]) by {
        forall i | 0 <= i < n ensures IsWordChar(name[i]) {
          assert name[i] == t[1..][i];
        }
      }
      assert t == "{" + name + "}" + t';
      UnescapeEscapedTemplate(t', y);
      UnescapeEscapedVar(name, t', y);
    } else {
      UnescapeEscapedTemplate(t[1..], y);
      UnescapeEscapedChar(t, y);
    }
  }

  // ---------------------------------------------------------------------------
  // Parsing and formatting (a simplification of Node's legacy `url` module).

  function IndexOf(s: string, c: char): (r: Option<nat>)
    ensures r.Some? ==> r.value < |s| && s[r.value] == c
    decreases |s|
  {
    if s == [] then None
    else if s[0] == c then Some(0)
    else match IndexOf(s[1..], c)
      case None => None
      case Some(i) => Some(i + 1)
  }

  /** `s.split(c)` */
  function Split(s: string, c: char): (r: seq<string>)
    ensures |r| >= 1
    decreases |s|
  {
    match IndexOf(s, c)
    case None => [s]
    case Some(i) => [s[..i]] + Split(s[i + 1..], c)
  }

  /** One `key=value` segment of a query string; a segment without `=` has the empty value. */
  function ParsePair(seg: string): (string, string) {
    match IndexOf(seg, '=')
    case None => (seg, "")
    case Some(i) => (seg[..i], seg[i + 1..])
  }

  function ParsePairs(segs: seq<string>): seq<(string, string)>
    decreases |segs|
  {
    if segs == [] then []
    else (if segs[0] == "" then [] else [ParsePair(segs[0])]) + ParsePairs(segs[1..])
  }

  function ParseQuery(search: string): Query {
    FromPairs(ParsePairs(Split(search, '&')))
  }

  /** No occurrence of `c` comes before the one `IndexOf` finds, and there is
      none at all when it finds nothing. */
  lemma {:induction false} IndexOfFirst(s: string, c: char)
    ensures IndexOf(s, c).None? <==> c !in s
    ensures IndexOf(s, c).Some? ==> c !in s[..IndexOf(s, c).value]
    decreases |s|
  {
    if s != [] && s[0] != c {
      IndexOfFirst(s[1..], c);
      assert s == [s[0]] + s[1..];
      if IndexOf(s[1..], c).Some? {
        var i := IndexOf(s[1..], c).value;
        assert s[..i + 1] == [s[0]] + s[1..][..i];
      }
    }
  }

  /** The protocols Node's `url` module writes with `//` after the colon. */
  const SlashedProtocols: seq<string> := ["http", "https", "ftp", "gopher", "file"]

  /** The length of `<protocol>://` when `s` starts with a slashed protocol:
      the protocol runs to the first `:`. */
  function SlashedSchemeLength(s: string): (r: Option<nat>)
    ensures r.Some? ==> 3 <= r.value <= |s| && s[r.value - 3] == ':'
  {
    match IndexOf(s, ':')
    case None => None
    case Some(i) => if s[..i] in SlashedProtocols && i + 3 <= |s| && s[i + 1] == '/' && s[i + 2] == '/' then Some(i + 3) else None
  }

  /** `url.parse` gives a URL of a slashed protocol whose host is followed by
      no path the pathname `/`. */
  function RootPath(p: string): (r: string)
    ensures r == p || r == p + "/"
  {
    match SlashedSchemeLength(p)
    case Some(n) => if n < |p| && '/' !in p[n..] then p + "/" else p
    case None => p
  }

  /** `IndexOf` finds an occurrence no later than any given one. */
  lemma {:induction false} IndexOfAtMost(s: string, c: char, j: nat)
    requires j < |s| && s[j] == c
    ensures IndexOf(s, c).Some? && IndexOf(s, c).value <= j
    decreases j
  {
    if s[0] != c {
      IndexOfAtMost(s[1..], c, j - 1);
    }
  }

  /** Searching past a prefix that does not hold `c`. */
  lemma {:induction false} IndexOfSkip(a: string, b: string, c: char)
    requires c !in a
    ensures IndexOf(a + b, c) == if IndexOf(b, c).Some? then Some(|a| + IndexOf(b, c).value) else None
    decreases |a|
  {
    if a != [] {
      assert (a + b)[1..] == a[1..] + b;
      IndexOfSkip(a[1..], b, c);
    } else {
      assert a + b == b;
    }
  }

  /** A bare host after a slashed protocol gets the path `/`. */
  lemma BareHostGetsRootPath(protocol: string, host: string)
    requires protocol in SlashedProtocols && host != [] && '/' !in host
    ensures RootPath(protocol + "://" + host) == protocol + "://" + host + "/"
  {
    var p := protocol + ("://" + host);
    ConcatAssoc(protocol, "://", host);
    assert IndexOf(p, ':') == Some(|protocol|) by {
      assert ':' !in protocol;
      IndexOfSkip(protocol, "://" + host, ':');
    }
    assert p[..|protocol|] == protocol && p[|protocol| + 3..] == host;
  }

  /** A URL whose host is followed by a path keeps its path. */
  lemma PathKept(protocol: string, host: string, path: string)
    requires '/' !in host
    ensures RootPath(protocol + "://" + host + "/" + path) == protocol + "://" + host + "/" + path
  {
    var p := protocol + "://" + host + "/" + path;
    var m := |protocol| + 3 + |host|;
    assert p[|protocol|] == ':' && p[m] == '/';
    IndexOfAtMost(p, ':', |protocol|);
    match SlashedSchemeLength(p)
    case None =>
    case Some(n) =>
      assert p[n..][m - n] == '/';
  }

  /** `url.parse(s, true)`, reduced to the parts the client rewrites. The
      fragment starts at the first `#`, the query at the first `?` before it;
      a bare host gets the path `/`, and braces outside the parsed query are
      percent-escaped. */
  function Parse(s: string): ParsedUrl {
    var (beforeHash, hash) := match IndexOf(s, '#')
      case None => (s, "")
      case Some(h) => (s[..h], s[h..]);
    match IndexOf(beforeHash, '?')
    case None => ParsedUrl(EscapeBraces(RootPath(beforeHash)), "", Empty(), EscapeBraces(hash))
    case Some(q) => ParsedUrl(EscapeBraces(RootPath(beforeHash[..q])), EscapeBraces(beforeHash[q..]),
                              ParseQuery(beforeHash[q + 1..]), EscapeBraces(hash))
  }

  /** The value serialised for a key; every key of a valid query has one. */
  function ValueOf(q: Query, k: string): string {
    if k in q.vals then q.vals[k] else ""
  }

  function SerializeQuery(q: Query): string {
    Join(seq(|q.keys|, i requires 0 <= i < |q.keys| => q.keys[i] + "=" + ValueOf(q, q.keys[i])), "&")
  }

  /** `url.format`: a parsed `search` is written as it is and wins over the
      query; otherwise the query string is added only when there are parameters. */
  function Format(u: ParsedUrl): string {
    u.prefix + (if u.search != "" then u.search else if u.query.keys == [] then "" else "?" + SerializeQuery(u.query)) + u.hash
  }

  /** A query holding one parameter is written as `?key=value`. */
  lemma FormatOneParam(prefix: string, k: string, v: string, hash: string)
    ensures Format(ParsedUrl(prefix, "", Dict([k], map[k := v]), hash)) == prefix + ("?" + k + "=" + v) + hash
  {
    var q: Query := Dict([k], map[k := v]);
    var parts := seq(|q.keys|, i requires 0 <= i < |q.keys| => q.keys[i] + "=" + ValueOf(q, q.keys[i]));
    assert parts == [k + "=" + v];
    assert SerializeQuery(q) == k + "=" + v;
  }

  /** The record-level `_.merge(parsed, {query: params})` of `modifyUrlLocal`,
      which keeps the parsed query but not the parsed `search`. */
  function ExtendQuery(u: ParsedUrl, params: Query): ParsedUrl {
    ParsedUrl(u.prefix, "", Overlay(u.query, params), u.hash)
  }

  /** Extending twice with the same parameters is extending once. */
  lemma ExtendQueryIdempotent(u: ParsedUrl, params: Query)
    requires Valid(u.query) && Valid(params)
    ensures ExtendQuery(ExtendQuery(u, params), params) == ExtendQuery(u, params)
  {
    OverlayIdempotent(u.query, params);
  }

  /** `extendUrl(url, {query: params})` */
  function ExtendUrl(s: string, params: Query): string {
    Format(ExtendQuery(Parse(s), params))
  }

  /** `EMSClient.extendUrlWithParams(url)` with the client's current parameters. */
  function ExtendUrlWithParams(s: string, params: Query): string {
    UnescapeTemplateVars(ExtendUrl(s, params))
  }

  /** A URL without `?` and `#` parses to its escaped self, with the path `/`
      after a bare host, and no parameters. */
  lemma ParsePlain(s: string)
    requires '?' !in s && '#' !in s
    ensures Parse(s) == ParsedUrl(EscapeBraces(RootPath(s)), "", Empty(), "")
  {
    IndexOfFirst(s, '#');
    IndexOfFirst(s, '?');
    assert EscapeBraces("") == "";
  }

  /** A URL without query or fragment gets the parameters as its whole query. */
  lemma ExtendPlainUrl(s: string, params: Query)
    requires '?' !in s && '#' !in s
    requires Valid(params) && params.keys != []
    ensures ExtendUrl(s, params) == EscapeBraces(RootPath(s)) + ("?" + SerializeQuery(params))
  {
    ParsePlain(s);
    OverlayOnEmpty(params);
    assert ExtendQuery(Parse(s), params) == ParsedUrl(EscapeBraces(RootPath(s)), "", params, "");
  }

  /** A URL with a query and no fragment keeps the query text as its `search`. */
  lemma ParseWithQuery(page: string, query: string)
    requires '?' !in page && '#' !in page && '#' !in query
    ensures Parse(page + "?" + query) == ParsedUrl(EscapeBraces(RootPath(page)), EscapeBraces("?" + query), ParseQuery(query), "")
  {
    var search := "?" + query;
    var s := page + search;
    assert page + "?" + query == s by {
      ConcatAssoc(page, "?", query);
    }
    assert IndexOf(s, '#') == None by {
      assert '#' !in search by {
        forall i | 0 <= i < |search| ensures search[i] != '#' {
          if i > 0 {
            assert search[i] == query[i - 1];
          }
        }
      }
      IndexOfSkip(page, search, '#');
    }
    assert IndexOf(s, '?') == Some(|page|) by {
      IndexOfSkip(page, search, '?');
    }
    assert Parse(s) == ParsedUrl(EscapeBraces(RootPath(s[..|page|])), EscapeBraces(s[|page|..]),
                                 ParseQuery(s[|page| + 1..]), EscapeBraces(""));
    assert s[..|page|] == page;
    assert s[|page|..] == search;
    assert s[|page| + 1..] == query;
    assert EscapeBraces("") == "";
  }

  /** Escaping leaves a string without braces as it is. */
  lemma {:induction false} EscapeBracesPlain(s: string)
    requires '{' !in s && '}' !in s
    ensures EscapeBraces(s) == s
    decreases |s|
  {
    if s != [] {
      EscapeBracesPlain(s[1..]);
      assert s == [s[0]] + s[1..];
    }
  }

  /** Escaping a string followed by a character other than a brace. */
  lemma {:induction false} EscapeBracesAppendChar(s: string, c: char)
    requires c != '{' && c != '}'
    ensures EscapeBraces(s + [c]) == EscapeBraces(s) + [c]
    decreases |s|
  {
    if s == [] {
      assert EscapeBraces([c]) == [c] + EscapeBraces([]);
    } else {
      assert (s + [c])[1..] == s[1..] + [c];
      EscapeBracesAppendChar(s[1..], c);
    }
  }

  /** An escaped template followed by text without `%` decodes to the template and that text. */
  lemma UnescapeTemplateThenPlain(t: string, tail: string)
    requires IsTemplate(t) && NoPercent(tail)
    ensures UnescapeTemplateVars(EscapeBraces(t) + tail) == t + tail
  {
    UnescapeEscapedTemplate(t, tail);
    UnescapeWithoutPercent(tail);
  }

  /** A template URL without query or fragment gets exactly the parameters
      appended, in their order, and its template variables survive. */
  lemma ExtendTemplateUrl(s: string, params: Query)
    requires IsTemplate(s) && '?' !in s && '#' !in s
    requires Valid(params) && params.keys != []
    requires NoPercent(SerializeQuery(params))
    ensures ExtendUrlWithParams(s, params) == RootPath(s) + ("?" + SerializeQuery(params))
  {
    var tail := "?" + SerializeQuery(params);
    NoPercentCons('?', SerializeQuery(params));
    assert ExtendUrl(s, params) == EscapeBraces(RootPath(s)) + tail by {
      ExtendPlainUrl(s, params);
    }
    if RootPath(s) == s {
      UnescapeTemplateThenPlain(s, tail);
    } else {
      RootedTemplate(s, tail);
    }
  }

  /** The template branch of `ExtendTemplateUrl` where a bare host got `/`. */
  lemma RootedTemplate(s: string, tail: string)
    requires IsTemplate(s) && NoPercent(tail)
    ensures UnescapeTemplateVars(EscapeBraces(s + "/") + tail) == s + "/" + tail
  {
    NoPercentCons('/', tail);
    EscapeBracesAppendChar(s, '/');
    ConcatAssoc(EscapeBraces(s), "/", tail);
    UnescapeTemplateThenPlain(s, "/" + tail);
    ConcatAssoc(s, "/", tail);
  }
  // ---------------------------------------------------------------------------
  // The client's initial parameters

  /** A JavaScript string in a boolean context: `undefined` and `''` are falsy. */
  predicate Truthy(v: Option<string>) {
    v.Some? && v.value != ""
  }

  /** `{elastic_tile_service_tos: 'agree', my_app_name: appName || 'kibana',
      my_app_version: appVersion}`, the parameters every client starts with. */
  function InitialQueryParams(appName: Option<string>, appVersion: string): Query {
    var name := if Truthy(appName) then appName.value else "kibana";
    Dict(["elastic_tile_service_tos", "my_app_name", "my_app_version"],
         map["elastic_tile_service_tos" := "agree", "my_app_name" := name, "my_app_version" := appVersion])
  }

  /** The initial parameters are a well-formed object: the three keys differ. */
  lemma InitialQueryParamsValid(appName: Option<string>, appVersion: string)
    ensures Valid(InitialQueryParams(appName, appVersion))
    ensures Lookup(InitialQueryParams(appName, appVersion), "my_app_name") == Some(if Truthy(appName) then appName.value else "kibana")
  {
    var tos, app, ver := "elastic_tile_service_tos", "my_app_name", "my_app_version";
    assert tos[0] != app[0] && tos[0] != ver[0] && app[7] != ver[7];
  }
}
