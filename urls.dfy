/**
 * What the two Spotify URL validators read from `urllib.parse.urlparse`: the network
 * location and the path. The parser itself is a service given as a parameter.
 */
module Urls {
  import opened Wrappers
  import opened Text

  /** The `netloc` and `path` fields of a parse result. */
  datatype ParsedUrl = ParsedUrl(netloc: string, path: string)

  /** `urlparse`, `None` standing for an exception. */
  type UrlParser = string -> Option<ParsedUrl>

  const SpotifyHosts: seq<string> := ["open.spotify.com", "spotify.com"]

  /** `any(path.startswith(prefix) for prefix in prefixes)`. */
  predicate StartsWithAny(path: string, prefixes: seq<string>) {
    exists k :: 0 <= k < |prefixes| && StartsWith(path, prefixes[k])
  }

  /** The validators' common shape: the host is a Spotify host and the path starts with one
      of `prefixes`; a parse that raises gives False. */
  predicate SpotifyUrlWith(url: string, parse: UrlParser, prefixes: seq<string>) {
    match parse(url)
    case None => false
    case Some(p) => p.netloc in SpotifyHosts && StartsWithAny(p.path, prefixes)
  }

  /** Accepting more prefixes accepts more URLs. */
  lemma SpotifyUrlWithMonotonic(url: string, parse: UrlParser, fewer: seq<string>, more: seq<string>)
    requires forall k :: 0 <= k < |fewer| ==> fewer[k] in more
    requires SpotifyUrlWith(url, parse, fewer)
    ensures SpotifyUrlWith(url, parse, more)
  {
    var p := parse(url).value;
    var k :| 0 <= k < |fewer| && StartsWith(p.path, fewer[k]);
    var j :| 0 <= j < |more| && more[j] == fewer[k];
    assert StartsWith(p.path, more[j]);
  }
}
