/**
 * The part of `urllib.parse.urlparse` the pipeline reads: the scheme, the
 * network location (`netloc`) and the path, following the generic syntax
 * of section 3 of RFC 3986. The scheme is the text before the first `:`
 * when that text starts with a letter and is made of scheme characters;
 * the netloc is the text after `//` up to the first `/`, `?` or `#`; the
 * path runs from there up to the first `?` or `#`.
 */
module Url {
  import opened Strings

  datatype Parts = Parts(scheme: string, netloc: string, path: string)

  /** Letters, digits, `+`, `-` and `.` (what may follow the first letter of a scheme). */
  predicate IsSchemeChar(c: char)
  {
    IsLetter(c) || IsDigit(c) || c == '+' || c == '-' || c == '.'
  }

  predicate IsColon(c: char) { c == ':' }

  predicate EndsNetloc(c: char) { c == '/' || c == '?' || c == '#' }

  predicate EndsPath(c: char) { c == '?' || c == '#' }

  /** Where a scan for the next URL component stops. */
  datatype Stop = AtColon | AtNetlocEnd | AtPathEnd

  predicate Stops(c: char, stop: Stop)
  {
    match stop
    case AtColon => IsColon(c)
    case AtNetlocEnd => EndsNetloc(c)
    case AtPathEnd => EndsPath(c)
  }

  /** Index of the first character satisfying `stop`, or `|s|` when there is none. */
  function FirstWhere(s: string, stop: Stop): (k: nat)
    ensures k <= |s|
    ensures k < |s| ==> Stops(s[k], stop)
    ensures forall i :: 0 <= i < k ==> !Stops(s[i], stop)
  {
    if s == [] || Stops(s[0], stop) then 0 else 1 + FirstWhere(s[1..], stop)
  }

  /** Length of the scheme, when `url` starts with one followed by `:`. */
  function SchemeLength(url: string): (n: nat)
    ensures n == 0 || (n < |url| && url[n] == ':')
    ensures forall i :: 0 <= i < n ==> IsSchemeChar(url[i])
  {
    var i := FirstWhere(url, AtColon);
    if 0 < i < |url| && IsLetter(url[0]) && forall j :: 0 <= j < i ==> IsSchemeChar(url[j]) then i else 0
  }

  /** What follows the scheme and its `:` (the whole URL when there is no scheme). */
  function AfterScheme(url: string): string
  {
    var n := SchemeLength(url);
    if n == 0 then url else url[n + 1..]
  }

  /** Length of the netloc at the start of `rest`, which must begin with `//`. */
  function NetlocLength(rest: string): nat
    requires "//" <= rest
    ensures NetlocLength(rest) <= |rest| - 2
  {
    FirstWhere(rest[2..], AtNetlocEnd)
  }

  function Parse(url: string): (p: Parts)
    ensures forall c :: c in p.netloc ==> !EndsNetloc(c)
    ensures forall c :: c in p.path ==> !EndsPath(c)
  {
    var n := SchemeLength(url);
    var scheme := if n == 0 then "" else Lower(url[..n]);
    var rest := AfterScheme(url);
    var netloc := if "//" <= rest then rest[2..][..NetlocLength(rest)] else "";
    var tail := if "//" <= rest then rest[2..][NetlocLength(rest)..] else rest;
    var path := tail[..FirstWhere(tail, AtPathEnd)];
    Parts(scheme, netloc, path)
  }

  lemma SchemeOf(scheme: string, after: string)
    requires scheme != [] && IsLetter(scheme[0])
    requires forall c :: c in scheme ==> IsSchemeChar(c)
    ensures SchemeLength(scheme + ":" + after) == |scheme|
    ensures (scheme + ":" + after)[..|scheme|] == scheme
    ensures AfterScheme(scheme + ":" + after) == after
  {
    var url := scheme + ":" + after;
    var n := |scheme|;
    assert url[n] == ':';
    forall j | 0 <= j < n
      ensures !Stops(url[j], AtColon)
    {
      assert url[j] == scheme[j] && scheme[j] in scheme;
    }
    FirstWhereAt(url, AtColon, n);
    assert url[..n] == scheme;
    assert url[n + 1..] == after;
  }

  lemma NetlocOf(host: string, tail: string)
    requires forall c :: c in host ==> !EndsNetloc(c)
    requires tail == [] || EndsNetloc(tail[0])
    ensures NetlocLength("//" + host + tail) == |host|
    ensures ("//" + host + tail)[2..][..|host|] == host
    ensures ("//" + host + tail)[2..][|host|..] == tail
  {
    var r2 := ("//" + host + tail)[2..];
    assert r2 == host + tail;
    assert forall j :: 0 <= j < |host| ==> r2[j] == host[j] && host[j] in host;
    FirstWhereAt(r2, AtNetlocEnd, |host|);
  }

  lemma PathOf(path: string, rest: string)
    requires forall c :: c in path ==> !EndsPath(c)
    requires rest == [] || EndsPath(rest[0])
    ensures FirstWhere(path + rest, AtPathEnd) == |path|
    ensures (path + rest)[..|path|] == path
  {
    var t := path + rest;
    assert forall j :: 0 <= j < |path| ==> t[j] == path[j] && path[j] in path;
    FirstWhereAt(t, AtPathEnd, |path|);
  }

  /** Splitting an absolute URL built from a scheme, a host and a path
      gives those three parts back (the scheme lower-cased). */
  lemma ParseCompose(scheme: string, host: string, path: string, rest: string)
    requires scheme != [] && IsLetter(scheme[0])
    requires forall c :: c in scheme ==> IsSchemeChar(c)
    requires forall c :: c in host ==> !EndsNetloc(c)
    requires path == [] || path[0] == '/'
    requires forall c :: c in path ==> !EndsPath(c)
    requires rest == [] || EndsPath(rest[0])
    ensures Parse(scheme + "://" + host + path + rest) == Parts(Lower(scheme), host, path)
  {
    var url := scheme + "://" + host + path + rest;
    var tail := path + rest;
    var after := "//" + host + tail;
    ComposeSplit(scheme, host, path, rest);
    SchemeOf(scheme, after);
    PathStartsTail(path, rest);
    NetlocOf(host, tail);
    PathOf(path, rest);
    ParseFrom(url, scheme, after, host, tail, path);
  }

  lemma ComposeSplit(scheme: string, host: string, path: string, rest: string)
    ensures scheme + "://" + host + path + rest == scheme + ":" + ("//" + host + (path + rest))
    ensures "//" <= "//" + host + (path + rest)
  {
    assert "://" == ":" + "//";
    Regroup(scheme, ":", "//", host, path, rest);
  }

  lemma Regroup<T>(a: seq<T>, b: seq<T>, c: seq<T>, d: seq<T>, e: seq<T>, f: seq<T>)
    ensures a + (b + c) + d + e + f == a + b + (c + d + (e + f))
  {
  }

  lemma PathStartsTail(path: string, rest: string)
    requires path == [] || path[0] == '/'
    requires rest == [] || EndsPath(rest[0])
    ensures path + rest == [] || EndsNetloc((path + rest)[0])
  {
    if path == [] { assert path + rest == rest; }
  }

  /** `Parse` read off the positions its scans stop at. */
  lemma ParseFrom(url: string, scheme: string, after: string, host: string, tail: string, path: string)
    requires SchemeLength(url) == |scheme| > 0 && url[..|scheme|] == scheme && AfterScheme(url) == after
    requires "//" <= after && after[2..][..NetlocLength(after)] == host && after[2..][NetlocLength(after)..] == tail
    requires tail[..FirstWhere(tail, AtPathEnd)] == path
    ensures Parse(url) == Parts(Lower(scheme), host, path)
  {
  }

  /** `FirstWhere` finds position `k` when `k` is the first hit (or the end). */
  lemma FirstWhereAt(s: string, stop: Stop, k: nat)
    requires k <= |s|
    requires k < |s| ==> Stops(s[k], stop)
    requires forall i :: 0 <= i < k ==> !Stops(s[i], stop)
    ensures FirstWhere(s, stop) == k
  {
  }

  /** The netloc of an `https` URL with no query or fragment. */
  lemma HttpsNetloc(netloc: string, path: string)
    requires forall c :: c in netloc ==> !EndsNetloc(c)
    requires path == [] || path[0] == '/'
    requires forall c :: c in path ==> !EndsPath(c)
    ensures Parse("https://" + netloc + path).netloc == netloc
  {
    HttpsConcat(netloc, path);
    HttpsCompose(netloc, path);
  }

  lemma HttpsConcat(netloc: string, path: string)
    ensures "https://" + netloc + path == "https" + "://" + netloc + path + ""
  {
  }

  lemma HttpsCompose(netloc: string, path: string)
    requires forall c :: c in netloc ==> !EndsNetloc(c)
    requires path == [] || path[0] == '/'
    requires forall c :: c in path ==> !EndsPath(c)
    ensures Parse("https" + "://" + netloc + path + "").netloc == netloc
  {
    HttpsScheme();
    ParseCompose("https", netloc, path, "");
  }

  lemma HttpsScheme()
    ensures "https" != [] && IsLetter("https"[0])
    ensures forall c :: c in "https" ==> IsSchemeChar(c)
  {
    forall c | c in "https"
      ensures IsSchemeChar(c)
    {
      assert c == 'h' || c == 't' || c == 'p' || c == 's';
    }
  }

  /** `host.split(":")[0]` on a lower-cased `host:port`. */
  lemma DropPort(host: string, port: string)
    requires ':' !in host
    ensures var low := Lower(host + ":" + port); low[..FirstWhere(low, AtColon)] == Lower(host)
  {
    var low := Lower(host + ":" + port);
    LowerWithPort(host, port);
    FirstWhereAt(low, AtColon, |host|);
  }

  /** Lower-casing `host:port` keeps the colon right after the host and none before it. */
  lemma LowerWithPort(host: string, port: string)
    requires ':' !in host
    ensures var low := Lower(host + ":" + port);
      && |host| < |low| && low[..|host|] == Lower(host) && Stops(low[|host|], AtColon)
      && forall k :: 0 <= k < |host| ==> !Stops(low[k], AtColon)
  {
    var low := Lower(host + ":" + port);
    LowerAppend(host, ":" + port);
    LowerAppend(":", port);
    assert low == Lower(host) + ":" + Lower(port);
    forall k | 0 <= k < |host|
      ensures !Stops(low[k], AtColon)
    {
      assert low[k] == LowerChar(host[k]);
      assert host[k] in host;
    }
  }
}
