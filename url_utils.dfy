/**
 * URL helpers: legality check, base URL and file name extraction, and the prefix rewrite a
 * GET request applies before it is sent.
 *
 * A parsed URI is modelled by its parts; `segments` are the path segments as a URI parser
 * yields them, each but the last carrying its trailing '/', so that their concatenation is
 * the path. A null string is `None`.
 */
module UrlUtils {
  import opened Wrappers

  predicate StartsWith(s: string, prefix: string) {
    |prefix| <= |s| && s[..|prefix|] == prefix
  }

  /** A URL is legal when it is neither null nor empty. */
  function IsLegalUrl(url: Option<string>): (legal: bool)
    ensures legal <==> url.Some? && url.value != ""
  {
    match url
    case None => false
    case Some(s) => |s| != 0
  }

  /** How a null string prints when concatenated. */
  function Text(s: Option<string>): string {
    match s
    case None => ""
    case Some(v) => v
  }

  function IllegalUrlMessage(url: Option<string>): string {
    "This url " + Text(url) + " is illeagl."
  }

  /**
   * The legality check as callers see it: the verdict, and the messages handed to the error
   * callback (one exactly when the URL is illegal).
   */
  function CheckUrl(url: Option<string>): (r: (bool, seq<string>))
    ensures r.0 == IsLegalUrl(url)
    ensures r.0 ==> r.1 == []
    ensures !r.0 ==> r.1 == [IllegalUrlMessage(url)]
  {
    if !IsLegalUrl(url) then (false, [IllegalUrlMessage(url)]) else (true, [])
  }

  /** A parsed absolute URI. */
  datatype Uri = Uri(scheme: string, authority: string, segments: seq<string>, query: string, fragment: string)

  /** Left fold of string concatenation. */
  function Concat(ss: seq<string>): string {
    if ss == [] then "" else Concat(ss[..|ss| - 1]) + ss[|ss| - 1]
  }

  function Path(u: Uri): string {
    Concat(u.segments)
  }

  function UriText(scheme: string, authority: string, path: string, query: string, fragment: string): string {
    scheme + "://" + authority + path + query + fragment
  }

  /** All segments but the last, joined; no segments at all give the empty path. */
  function BasePath(segments: seq<string>): string {
    if segments == [] then "" else Concat(segments[..|segments| - 1])
  }

  /**
   * The base URL: the same URI with its last path segment dropped; query and fragment are
   * kept. The trailing '/' of the kept path is not trimmed.
   */
  method ExtractBaseUrl(u: Uri) returns (url: string)
    ensures url == UriText(u.scheme, u.authority, BasePath(u.segments), u.query, u.fragment)
  {
    var noLastSegment := "";
    var i := 0;
    while i < |u.segments| - 1
      invariant 0 <= i <= if |u.segments| == 0 then 0 else |u.segments| - 1
      invariant noLastSegment == Concat(u.segments[..i])
    {
      assert u.segments[..i + 1][..i] == u.segments[..i];
      noLastSegment := noLastSegment + u.segments[i];
      i := i + 1;
    }
    if u.segments != [] {
      assert noLastSegment == Concat(u.segments[..|u.segments| - 1]);
    }
    url := UriText(u.scheme, u.authority, noLastSegment, u.query, u.fragment);
  }

  /** The base path followed by the last segment is the whole path. */
  lemma BasePathThenLastSegment(segments: seq<string>)
    requires segments != []
    ensures BasePath(segments) + segments[|segments| - 1] == Concat(segments)
  {
  }

  /**
   * Since nothing is trimmed, a base path whose last kept segment ends in '/' still ends in
   * '/', so a file name appended to it lands in the right directory.
   */
  lemma {:induction false} BasePathKeepsTrailingSlash(segments: seq<string>)
    requires |segments| >= 2
    requires var s := segments[|segments| - 2]; s != [] && s[|s| - 1] == '/'
    ensures var p := BasePath(segments); p != [] && p[|p| - 1] == '/'
  {
    var init := segments[..|segments| - 1];
    assert init[..|init| - 1] + [init[|init| - 1]] == init;
    assert Concat(init) == Concat(init[..|init| - 1]) + segments[|segments| - 2];
  }

  /** The index of the last occurrence of `c` in `s`, or -1. */
  function LastIndexOf(s: string, c: char): (r: int)
    ensures -1 <= r < |s|
    ensures r >= 0 ==> s[r] == c
    ensures forall j :: r < j < |s| ==> s[j] != c
  {
    if s == [] then -1
    else if s[|s| - 1] == c then |s| - 1
    else LastIndexOf(s[..|s| - 1], c)
  }

  /**
   * The file name: the last path segment, unescaped, cut before its last '?'. A URI without
   * segments has no last segment to index, which is an error (`None`). Unescaping is a
   * parameter of the model.
   */
  function ExtractFileName(u: Uri, unescape: string -> string): (r: Option<string>)
    ensures r.Some? <==> u.segments != []
    ensures r.Some? ==>
      var last := unescape(u.segments[|u.segments| - 1]);
      && r.value <= last
      && ('?' in last ==> |r.value| < |last| && last[|r.value|] == '?' && '?' !in last[|r.value| + 1..])
      && ('?' !in last ==> r.value == last)
  {
    if u.segments == [] then None
    else
      var lastSegment := unescape(u.segments[|u.segments| - 1]);
      var end := LastIndexOf(lastSegment, '?');
      if end == -1 then Some(lastSegment) else Some(lastSegment[..end])
  }

  /** What a GET does with its URL: reject it, or send the request to a rewritten URL. */
  datatype Request = Rejected(error: string) | Requested(url: string)

  /**
   * The URL a GET sends: a "file:///" path is escaped (escaping is a parameter), a "file://"
   * share gets a fourth slash, everything else is sent unchanged; an illegal URL is never
   * requested and reports the legality check's message.
   */
  function Get(url: Option<string>, escape: string -> string): (r: Request)
    ensures r.Rejected? <==> !CheckUrl(url).0
    ensures r.Rejected? ==> [r.error] == CheckUrl(url).1
    ensures r.Requested? ==> url.Some? && StartsWith(r.url, "file://") == StartsWith(url.value, "file://")
    ensures r.Requested? && StartsWith(url.value, "file:///") ==> r.url == "file:///" + escape(url.value[8..])
    ensures r.Requested? && StartsWith(url.value, "file://") && !StartsWith(url.value, "file:///") ==>
              r.url == "file:////" + url.value[7..]
    ensures r.Requested? && !StartsWith(url.value, "file://") ==> r.url == url.value
  {
    if !IsLegalUrl(url) then Rejected(IllegalUrlMessage(url))
    else
      var s := url.value;
      if StartsWith(s, "file:///") then
        assert StartsWith(s, "file://") by { assert s[..7] == s[..8][..7]; }
        Requested("file:///" + escape(s[8..]))
      else if StartsWith(s, "file://") then Requested("file:////" + s[7..])
      else Requested(s)
  }

  /**
   * A shared-folder URL keeps its host and path: dropping the rewritten prefix gives back
   * what followed "file://".
   */
  lemma ShareRewriteKeepsRest(s: string, escape: string -> string)
    requires StartsWith(s, "file://") && !StartsWith(s, "file:///")
    ensures Get(Some(s), escape).Requested?
    ensures Get(Some(s), escape).url[9..] == s[7..]
  {
  }
}
