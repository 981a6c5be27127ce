/** `extract_video_id` (`Backend/utils/helpers.py`; `Backend/routes/summarizeRoutes.py`
    carries a character-for-character copy), together with the part of Python's
    `urllib.parse.urlparse` and `parse_qs` it depends on. */
module Helpers {
  import opened Common
  import opened Text

  /** The five components `urlparse` returns, `params` folded into `path`. */
  datatype Url = Url(scheme: string, netloc: string, path: string, query: string, fragment: string)

  predicate IsAsciiLetter(c: char)
  {
    'a' <= c <= 'z' || 'A' <= c <= 'Z'
  }

  /** The characters `urlsplit` accepts in a scheme. */
  predicate IsSchemeChar(c: char)
  {
    IsAsciiLetter(c) || IsDigit(c) || c == '+' || c == '-' || c == '.'
  }

  /** The index of the first character of `s` in `cs`, or `|s|`. */
  function FirstOf(s: string, cs: set<char>): (k: nat)
    ensures k <= |s|
    ensures forall i :: 0 <= i < k ==> s[i] !in cs
    ensures k < |s| ==> s[k] in cs
  {
    if s == [] || s[0] in cs then 0 else 1 + FirstOf(s[1..], cs)
  }

  /** `s.split(c, 1)` read as a pair: the text before the first `c` and the text after it,
      or all of `s` and the empty string. */
  function SplitOnce(s: string, c: char): (parts: (string, string))
    ensures c !in s ==> parts == (s, "")
    ensures c in s ==> s == parts.0 + [c] + parts.1 && c !in parts.0
  {
    var k := Find(s, c);
    if k == -1 then (s, "") else (s[..k], s[k + 1..])
  }

  /** The scheme split of `urlsplit`: when the text before the first ':' starts with a
      letter and consists of scheme characters, it is the scheme (lower-cased) and the
      rest follows the ':'; otherwise there is no scheme. */
  function SplitScheme(url: string): (r: (string, string))
    ensures r.0 == [] ==> r.1 == url
    ensures r.0 != [] ==> |r.0| < |url| && url == url[..|r.0|] + ":" + r.1 && ':' !in url[..|r.0|]
  {
    var i := Find(url, ':');
    if i > 0 && IsAsciiLetter(url[0]) && (forall k :: 0 <= k < i ==> IsSchemeChar(url[k]))
    then
      assert url == url[..i] + ":" + url[i + 1..];
      (Lower(url[..i]), url[i + 1..])
    else ("", url)
  }

  /** The location split of `urlsplit`: after a leading "//", everything up to the first
      '/', '?' or '#'. */
  function SplitNetloc(rest: string): (r: (string, string))
    ensures r.0 + r.1 == (if |rest| >= 2 && rest[..2] == "//" then rest[2..] else rest)
    ensures '/' !in r.0 && '?' !in r.0 && '#' !in r.0
  {
    if |rest| >= 2 && rest[..2] == "//" then
      var k := FirstOf(rest[2..], {'/', '?', '#'});
      assert rest[2..] == rest[2..][..k] + rest[2..][k..];
      (rest[2..][..k], rest[2..][k..])
    else ("", rest)
  }

  /** `urlsplit`: scheme, then network location, then the fragment after the first '#',
      then the query after the first '?'. A location with one square bracket but not the
      other raises "Invalid IPv6 URL". The URL is taken as given: the stripping of leading
      C0 controls and spaces, the deletion of tab, CR and LF, and the `ValueError` for a
      non-ASCII location whose NFKC form gains one of '/', '?', '#', '@' or ':' are not
      part of this model. */
  function UrlParse(url: string): (r: Outcome<Url>)
    ensures r.Ok? ==> ('[' in r.value.netloc <==> ']' in r.value.netloc)
    ensures r.Ok? ==> '/' !in r.value.netloc && '?' !in r.value.netloc && '#' !in r.value.netloc
    ensures r.Ok? ==> '#' !in r.value.path && '?' !in r.value.path
  {
    var (scheme, rest) := SplitScheme(url);
    var (netloc, afterNetloc) := SplitNetloc(rest);
    if ('[' in netloc) != (']' in netloc) then Failed("Invalid IPv6 URL")
    else
      var (beforeFragment, fragment) := SplitOnce(afterNetloc, '#');
      var (path, query) := SplitOnce(beforeFragment, '?');
      Ok(Url(scheme, netloc, path, query, fragment))
  }

  /** `parse_qs` decoding of a name or value: '+' stands for a space. */
  function PlusToSpace(s: string): (r: string)
    ensures |r| == |s| && '+' !in r
    ensures forall i :: 0 <= i < |s| ==> r[i] == (if s[i] == '+' then ' ' else s[i])
  {
    seq(|s|, i requires 0 <= i < |s| => if s[i] == '+' then ' ' else s[i])
  }

  lemma PlusToSpaceWithoutPlus(s: string)
    requires '+' !in s
    ensures PlusToSpace(s) == s
  {
  }

  /** The values `parse_qs(query)` lists under `key`, in order: the query is cut at '&',
      a piece without '=' is skipped, and so is a piece whose value is empty. */
  function QueryValues(query: string, key: string): (vs: seq<string>)
    ensures forall j :: 0 <= j < |vs| ==> vs[j] != []
  {
    PiecesValues(Split(query, '&'), key)
  }

  function PiecesValues(pieces: seq<string>, key: string): (vs: seq<string>)
    ensures forall j :: 0 <= j < |vs| ==> vs[j] != []
  {
    if pieces == [] then []
    else
      var (name, value) := SplitOnce(pieces[0], '=');
      var kept := if '=' in pieces[0] && value != [] && PlusToSpace(name) == key then [PlusToSpace(value)] else [];
      kept + PiecesValues(pieces[1..], key)
  }

  /** The hosts that carry the id in the `v` query parameter. */
  predicate IsWatchHost(host: string)
  {
    host == "www.youtube.com" || host == "youtube.com"
  }

  /** The short-link host that carries the id in the path. */
  const ShortHost: string := "youtu.be"

  /** The video id of a parsed address. */
  function IdOf(u: Url): (r: Option<string>)
    ensures r.Some? ==> IsWatchHost(u.netloc) || u.netloc == ShortHost
    ensures IsWatchHost(u.netloc) ==> (r.Some? <==> QueryValues(u.query, "v") != [])
    ensures IsWatchHost(u.netloc) && r.Some? ==> r.value == QueryValues(u.query, "v")[0]
    ensures u.netloc == ShortHost ==> r == Some(LStrip(u.path, {'/'}))
    ensures u.netloc == ShortHost ==> r.Some? && (r.value == [] || r.value[0] != '/')
  {
    if IsWatchHost(u.netloc) then
      var vs := QueryValues(u.query, "v");
      if vs == [] then None else Some(vs[0])
    else if u.netloc == ShortHost then Some(LStrip(u.path, {'/'}))
    else None
  }

  /** `extract_video_id(url)`: the first `v` value for the two watch hosts, the path without
      its leading slashes for the short-link host, and `None` for every other location
      that `UrlParse` accepts.
      The location is compared as a plain string, so case, a port or user information
      all make it a different host. */
  function ExtractVideoId(url: string): (r: Outcome<Option<string>>)
    ensures r.Failed? <==> UrlParse(url).Failed?
    ensures r.Ok? ==> r.value == IdOf(UrlParse(url).value)
  {
    match UrlParse(url)
    case Failed(m) => Failed(m)
    case Ok(u) => Ok(IdOf(u))
  }

  /** An id that survives the query and path syntax untouched. */
  predicate PlainId(id: string)
  {
    forall i :: 0 <= i < |id| ==> id[i] !in {'&', ';', '#', '?', '+', '%', '/'}
  }

  lemma HttpsScheme(rest: string)
    ensures SplitScheme("https:" + rest) == ("https", rest)
  {
    HttpsIsScheme();
    SchemeOf("https", rest);
    assert "https" + ":" + rest == "https:" + rest;
  }

  lemma HttpsIsScheme()
    ensures IsAsciiLetter("https"[0]) && ':' !in "https"
    ensures forall k :: 0 <= k < |"https"| ==> IsSchemeChar("https"[k])
    ensures Lower("https") == "https"
  {
  }

  /** A well-formed scheme before the first ':' is split off and lower-cased. */
  lemma SchemeOf(scheme: string, rest: string)
    requires scheme != [] && IsAsciiLetter(scheme[0]) && ':' !in scheme
    requires forall k :: 0 <= k < |scheme| ==> IsSchemeChar(scheme[k])
    ensures SplitScheme(scheme + ":" + rest) == (Lower(scheme), rest)
  {
    var url := scheme + ":" + rest;
    assert url == scheme + (":" + rest);
    FindConcat(scheme, ":" + rest, ':');
    assert url[..|scheme|] == scheme && url[|scheme| + 1..] == rest;
    assert Find(url, ':') == |scheme|;
    assert IsAsciiLetter(url[0]) && forall k :: 0 <= k < |scheme| ==> IsSchemeChar(url[k]) by {
      assert forall k :: 0 <= k < |scheme| ==> url[k] == scheme[k];
    }
  }

  lemma NetlocOfHost(host: string, tail: string)
    requires forall i :: 0 <= i < |host| ==> host[i] !in {'/', '?', '#'}
    requires tail != [] && tail[0] == '/'
    ensures SplitNetloc("//" + host + tail) == (host, tail)
  {
    var rest := "//" + host + tail;
    assert rest[..2] == "//";
    assert rest[2..] == host + tail;
    FirstOfAt(host, tail, {'/', '?', '#'});
    assert (host + tail)[..|host|] == host;
    assert (host + tail)[|host|..] == tail;
  }

  /** The parts of an `https://host/...` address without a fragment. */
  lemma HttpsUrlParts(host: string, tail: string)
    requires forall i :: 0 <= i < |host| ==> host[i] !in {'/', '?', '#', '[', ']'}
    requires tail != [] && tail[0] == '/'
    requires '#' !in tail
    ensures UrlParse("https://" + host + tail) == Ok(Url("https", host, SplitOnce(tail, '?').0, SplitOnce(tail, '?').1, ""))
  {
    assert "https://" + host + tail == "https:" + ("//" + host + tail);
    HttpsScheme("//" + host + tail);
    NetlocOfHost(host, tail);
  }

  /** What `extract_video_id` sees in an `https://host/...` address without a fragment. */
  lemma HttpsExtract(host: string, tail: string)
    requires forall i :: 0 <= i < |host| ==> host[i] !in {'/', '?', '#', '[', ']'}
    requires tail != [] && tail[0] == '/'
    requires '#' !in tail
    ensures ExtractVideoId("https://" + host + tail) == Ok(IdOf(Url("https", host, SplitOnce(tail, '?').0, SplitOnce(tail, '?').1, "")))
  {
    HttpsUrlParts(host, tail);
  }

  lemma {:induction false} FirstOfAt(a: string, b: string, cs: set<char>)
    requires forall i :: 0 <= i < |a| ==> a[i] !in cs
    requires b != [] && b[0] in cs
    ensures FirstOf(a + b, cs) == |a|
    decreases |a|
  {
    if a != [] {
      assert (a + b)[1..] == a[1..] + b;
      FirstOfAt(a[1..], b, cs);
    }
  }

  /** Splitting at the first `c` of `a + [c] + b`, where `a` has no `c`, gives `a` and `b`. */
  lemma SplitOnceAt(a: string, b: string, c: char)
    requires c !in a
    ensures SplitOnce(a + [c] + b, c) == (a, b)
  {
    var s := a + [c] + b;
    assert s == a + ([c] + b);
    FindConcat(a, [c] + b, c);
    assert s[..|a|] == a && s[|a| + 1..] == b;
  }

  /** `parse_qs` reads the pieces on either side of an '&' independently. */
  lemma QueryValuesConcat(a: string, b: string, key: string)
    ensures QueryValues(a + "&" + b, key) == QueryValues(a, key) + QueryValues(b, key)
  {
    SplitConcat(a, b, '&');
    PiecesValuesConcat(Split(a, '&'), Split(b, '&'), key);
  }

  lemma {:induction false} PiecesValuesConcat(p: seq<string>, q: seq<string>, key: string)
    ensures PiecesValues(p + q, key) == PiecesValues(p, key) + PiecesValues(q, key)
    decreases |p|
  {
    if p == [] {
      assert p + q == q;
    } else {
      assert (p + q)[0] == p[0] && (p + q)[1..] == p[1..] + q;
      PiecesValuesConcat(p[1..], q, key);
    }
  }

  /** A single `name=value` piece lists its decoded value under its decoded name, and
      nothing when the value is empty or the name is another. */
  lemma QueryPiece(name: string, value: string, key: string)
    requires '&' !in name && '&' !in value && '=' !in name
    ensures QueryValues(name + "=" + value, key)
         == (if PlusToSpace(name) == key && value != [] then [PlusToSpace(value)] else [])
  {
    var piece := name + "=" + value;
    assert '&' !in piece;
    assert Split(piece, '&') == [piece];
    assert piece == name + ['='] + value;
    SplitOnceAt(name, value, '=');
    assert '=' in piece by { assert piece[|name|] == '='; }
    var kept := if PlusToSpace(name) == key && value != [] then [PlusToSpace(value)] else [];
    assert PiecesValues([piece], key) == kept + PiecesValues([], key);
  }

  /** A piece without '=' lists nothing. */
  lemma QueryPieceWithoutValue(piece: string, key: string)
    requires '&' !in piece && '=' !in piece
    ensures QueryValues(piece, key) == []
  {
    assert Split(piece, '&') == [piece];
    assert PiecesValues([piece], key) == [] + PiecesValues([], key);
  }

  /** The query "v=<id>" lists the id, and nothing else, under `v`. */
  lemma QueryOfId(id: string)
    requires id != [] && PlainId(id)
    ensures QueryValues("v=" + id, "v") == [id]
  {
    assert "v=" + id == "v" + "=" + id;
    assert '&' !in id;
    QueryPiece("v", id, "v");
    PlusToSpaceWithoutPlus(id);
    PlusToSpaceWithoutPlus("v");
  }

  /** The watch path splits into "/watch" and the query "v=<id>". */
  lemma WatchTailSplits(id: string)
    ensures SplitOnce("/watch?v=" + id, '?') == ("/watch", "v=" + id)
  {
    assert "/watch?v=" + id == "/watch" + ['?'] + ("v=" + id);
    SplitOnceAt("/watch", "v=" + id, '?');
  }

  /** `https://www.youtube.com/watch?v=<id>` gives back the id. */
  lemma WatchUrlRoundTrip(id: string)
    requires id != [] && PlainId(id)
    ensures ExtractVideoId("https://www.youtube.com/watch?v=" + id) == Ok(Some(id))
  {
    var tail := "/watch?v=" + id;
    assert '#' !in tail by { assert '#' !in id; }
    assert "https://www.youtube.com/watch?v=" + id == "https://" + "www.youtube.com" + tail;
    HttpsExtract("www.youtube.com", tail);
    WatchTailSplits(id);
    QueryOfId(id);
    assert IsWatchHost("www.youtube.com");
  }

  /** On the watch page of a watch host, the id is the first `v` value of the query. */
  lemma WatchQueryExtract(host: string, query: string)
    requires IsWatchHost(host) && '#' !in query
    ensures var vs := QueryValues(query, "v");
            ExtractVideoId("https://" + host + "/watch?" + query) == Ok(if vs == [] then None else Some(vs[0]))
  {
    WatchPage(host, query);
  }

  /** The watch page of a watch host parses to its host, the path "/watch" and the query. */
  lemma WatchPage(host: string, query: string)
    requires IsWatchHost(host) && '#' !in query
    ensures ExtractVideoId("https://" + host + "/watch?" + query) == Ok(IdOf(Url("https", host, "/watch", query, "")))
  {
    assert "https://" + host + "/watch?" + query == "https://" + host + ("/watch?" + query);
    WatchPageParts(host, query);
    WatchQueryTail(query);
  }

  lemma WatchPageParts(host: string, query: string)
    requires IsWatchHost(host) && '#' !in query
    ensures var tail := "/watch?" + query;
            ExtractVideoId("https://" + host + tail)
            == Ok(IdOf(Url("https", host, SplitOnce(tail, '?').0, SplitOnce(tail, '?').1, "")))
  {
    assert '#' !in "/watch?" + query;
    WatchHostPlain(host);
    HttpsExtract(host, "/watch?" + query);
  }

  /** The watch path splits into "/watch" and the query. */
  lemma WatchQueryTail(query: string)
    ensures SplitOnce("/watch?" + query, '?') == ("/watch", query)
  {
    assert "/watch?" + query == "/watch" + ['?'] + query;
    SplitOnceAt("/watch", query, '?');
  }

  lemma WatchHostPlain(host: string)
    requires IsWatchHost(host)
    ensures forall i :: 0 <= i < |host| ==> host[i] !in {'/', '?', '#', '[', ']'}
  {
  }

  /** The `v` parameter need not come first: after pieces that list no `v`, its value is the id. */
  lemma WatchUrlLaterParam(host: string, before: string, id: string)
    requires IsWatchHost(host) && id != [] && PlainId(id)
    requires '#' !in before && QueryValues(before, "v") == []
    ensures ExtractVideoId("https://" + host + "/watch?" + before + "&v=" + id) == Ok(Some(id))
  {
    var query := before + "&" + ("v=" + id);
    assert '#' !in query by { assert '#' !in id; }
    assert "https://" + host + "/watch?" + before + "&v=" + id == "https://" + host + "/watch?" + query;
    WatchQueryExtract(host, query);
    QueryValuesConcat(before, "v=" + id, "v");
    QueryOfId(id);
  }

  /** A watch address with another parameter before `v`, such as
      `https://www.youtube.com/watch?feature=share&v=<id>`, gives back the id. */
  lemma WatchUrlAfterParam(host: string, name: string, value: string, id: string)
    requires IsWatchHost(host) && id != [] && PlainId(id)
    requires '=' !in name && '&' !in name && '&' !in value && '#' !in name && '#' !in value
    requires PlusToSpace(name) != "v"
    ensures ExtractVideoId("https://" + host + "/watch?" + name + "=" + value + "&v=" + id) == Ok(Some(id))
  {
    OtherPiece(name, value);
    PieceRegroups(host, name, value, id);
    WatchUrlLaterParam(host, name + "=" + value, id);
  }

  lemma OtherPiece(name: string, value: string)
    requires '=' !in name && '&' !in name && '&' !in value && '#' !in name && '#' !in value
    requires PlusToSpace(name) != "v"
    ensures '#' !in name + "=" + value && QueryValues(name + "=" + value, "v") == []
  {
    QueryPiece(name, value, "v");
  }

  lemma PieceRegroups(host: string, name: string, value: string, id: string)
    ensures "https://" + host + "/watch?" + name + "=" + value + "&v=" + id
         == "https://" + host + "/watch?" + (name + "=" + value) + "&v=" + id
  {
  }

  /** `https://youtu.be/<id>` gives back the id. */
  lemma ShortUrlRoundTrip(id: string)
    requires id != [] && PlainId(id)
    ensures ExtractVideoId("https://youtu.be/" + id) == Ok(Some(id))
  {
    ShortPrefixParts(id);
    SlashedId(id);
    ShortExtract("/" + id);
  }

  /** The path "/<id>" has no query, no fragment, and loses only its slash. */
  lemma SlashedId(id: string)
    requires id != [] && PlainId(id)
    ensures '#' !in "/" + id && '?' !in "/" + id
    ensures SplitOnce("/" + id, '?') == ("/" + id, "")
    ensures LStrip("/" + id, {'/'}) == id
  {
    assert '#' !in id && '?' !in id && id[0] !in {'/'};
    LStripPadded("/", id, {'/'});
  }

  /** An `https://youtu.be/...` address without a fragment gives its path, the part
      before any query, without the leading slashes. */
  lemma ShortExtract(tail: string)
    requires tail != [] && tail[0] == '/' && '#' !in tail
    ensures ExtractVideoId("https://" + ShortHost + tail) == Ok(Some(LStrip(SplitOnce(tail, '?').0, {'/'})))
  {
    ShortHostPlain();
    HttpsExtract(ShortHost, tail);
  }

  /** A query after a short-link id, such as a share tracker, leaves the id unchanged. */
  lemma ShortUrlWithQuery(id: string, query: string)
    requires id != [] && PlainId(id) && '#' !in query
    ensures ExtractVideoId("https://youtu.be/" + id + "?" + query) == Ok(Some(id))
  {
    ShortQueryParts(id, query);
    SlashedId(id);
    ShortQuerySplits(id, query);
    ShortExtract("/" + id + "?" + query);
  }

  lemma ShortQueryParts(id: string, query: string)
    ensures "https://youtu.be/" + id + "?" + query == "https://" + ShortHost + ("/" + id + "?" + query)
  {
    ShortPrefixParts(id);
  }

  lemma ShortQuerySplits(id: string, query: string)
    requires '?' !in "/" + id && '#' !in "/" + id && '#' !in query
    ensures '#' !in "/" + id + "?" + query
    ensures SplitOnce("/" + id + "?" + query, '?') == ("/" + id, query)
  {
    assert "/" + id + "?" + query == ("/" + id) + ['?'] + query;
    SplitOnceAt("/" + id, query, '?');
  }

  lemma ShortPrefixParts(id: string)
    ensures "https://youtu.be/" + id == "https://" + ShortHost + ("/" + id)
  {
    assert "https://youtu.be/" == "https://" + ShortHost + "/";
  }

  lemma ShortHostPlain()
    ensures forall i :: 0 <= i < |ShortHost| ==> ShortHost[i] !in {'/', '?', '#', '[', ']'}
  {
  }

  /** An embed address on a watch host has no `v` parameter and gives `None`. */
  lemma EmbedUrlHasNoId(id: string)
    requires PlainId(id)
    ensures ExtractVideoId("https://www.youtube.com/embed/" + id) == Ok(None)
  {
    var tail := "/embed/" + id;
    assert '#' !in tail && '?' !in tail by { assert '#' !in id && '?' !in id; }
    assert "https://www.youtube.com/embed/" + id == "https://" + "www.youtube.com" + tail;
    WatchHostWithoutQuery("www.youtube.com", tail);
  }

  /** A watch-host address without a query has no `v` value, so no id. */
  lemma WatchHostWithoutQuery(host: string, tail: string)
    requires IsWatchHost(host)
    requires tail != [] && tail[0] == '/' && '#' !in tail && '?' !in tail
    ensures ExtractVideoId("https://" + host + tail) == Ok(None)
  {
    assert forall i :: 0 <= i < |host| ==> host[i] !in {'/', '?', '#', '[', ']'};
    HttpsExtract(host, tail);
    assert SplitOnce(tail, '?') == (tail, "");
    assert Split("", '&') == [""];
    assert SplitOnce("", '=') == ("", "");
  }

  /** The mobile host is not in the list. */
  lemma MobileHostHasNoId(id: string)
    requires PlainId(id)
    ensures ExtractVideoId("https://m.youtube.com/watch?v=" + id) == Ok(None)
  {
    var tail := "/watch?v=" + id;
    assert '#' !in tail by { assert '#' !in id; }
    assert "https://m.youtube.com/watch?v=" + id == "https://" + "m.youtube.com" + tail;
    HttpsExtract("m.youtube.com", tail);
    assert !IsWatchHost("m.youtube.com") && "m.youtube.com" != ShortHost;
  }

  /** A watch host written with an explicit port is a different location string. */
  lemma PortedHostHasNoId(id: string)
    requires PlainId(id)
    ensures ExtractVideoId("https://youtube.com:443/watch?v=" + id) == Ok(None)
  {
    var tail := "/watch?v=" + id;
    assert '#' !in tail by { assert '#' !in id; }
    assert "https://youtube.com:443/watch?v=" + id == "https://" + "youtube.com:443" + tail;
    HttpsExtract("youtube.com:443", tail);
    assert !IsWatchHost("youtube.com:443") && "youtube.com:443" != ShortHost;
  }
}
