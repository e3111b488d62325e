/** src/utils.ts: joining the configured API host and a relative path. */
module Utils {
  import opened Strings

  /** `s` without one trailing `/`, if it has one. */
  function DropTrailingSlash(s: string): string {
    if s != [] && s[|s| - 1] == '/' then s[..|s| - 1] else s
  }

  /** `s` without one leading `/`, if it has one. */
  function DropLeadingSlash(s: string): string {
    if s != [] && s[0] == '/' then s[1..] else s
  }

  /** `toAbsoluteUrl(host, path)`. An `undefined` host is modelled as the empty
      string: both are falsy and give `path` back. Otherwise host and path are
      joined with exactly one `/` between them, whichever side already had one. */
  function ToAbsoluteUrl(host: string, path: string): (r: string)
    ensures host == "" ==> r == path
    ensures host != "" ==> r == DropTrailingSlash(host) + "/" + DropLeadingSlash(path)
    ensures host != "" ==> StartsWith(r, host)
  {
    if host == "" then path
    else
      var hostEndsWithSlash := host[|host| - 1] == '/';
      var pathStartsWithSlash := path != [] && path[0] == '/';
      if hostEndsWithSlash && pathStartsWithSlash then host + path[1..]
      else if hostEndsWithSlash != pathStartsWithSlash then host + path
      else host + "/" + path
  }

  /** A trailing slash on the host makes no difference: `https://tiles.foobar` and
      `https://tiles.foobar/` resolve a path to the same URL. */
  lemma TrailingSlashIrrelevant(host: string, path: string)
    requires host != "" && host[|host| - 1] != '/'
    ensures ToAbsoluteUrl(host + "/", path) == ToAbsoluteUrl(host, path)
  {
    assert DropTrailingSlash(host + "/") == host;
  }
}
