/**
 * Platform and handle from a URL (project/src/normalize.py): an exact
 * host-to-platform table, a per-host table of path rules, and a generic
 * path heuristic used when no rule fires.
 */
module Platforms {
  import opened Wrappers
  import opened Strings
  import opened Url

  // =====================================================================
  // Tables

  /** Path segments that name a directory rather than a person. */
  const JUNK_PATH_SEGMENTS: set<string> := {
    "user", "users", "member", "members", "profile", "people", "invite",
    "search", "search.php", "api", "by", "u", "id", "t", "share", "web",
    "wayback", "artists", "accounts"
  }

  /** The platforms the host table names. */
  datatype Platform =
    | Github | Instagram | Patreon | Reddit | Twitch | Steam | Vimeo | Pinterest
    | Pastebin | PicsArt | ImageShack | LastFm | Mixcloud | MySpace | Chess
    | Kongregate | Gog | StackOverflow | Archive | Wikimedia | TruckersMP
    | Discord | Zepeto
  {
    /** The name the table gives the platform. */
    function Name(): (r: string)
      ensures r != "" && r != "unknown"
    {
      match this
      case Github => "github"
      case Instagram => "instagram"
      case Patreon => "patreon"
      case Reddit => "reddit"
      case Twitch => "twitch"
      case Steam => "steam"
      case Vimeo => "vimeo"
      case Pinterest => "pinterest"
      case Pastebin => "pastebin"
      case PicsArt => "picsart"
      case ImageShack => "imageshack"
      case LastFm => "lastfm"
      case Mixcloud => "mixcloud"
      case MySpace => "myspace"
      case Chess => "chess"
      case Kongregate => "kongregate"
      case Gog => "gog"
      case StackOverflow => "stackoverflow"
      case Archive => "archive"
      case Wikimedia => "wikimedia"
      case TruckersMP => "truckersmp"
      case Discord => "discord"
      case Zepeto => "zepeto"
    }
  }

  /** The platform name of an optional lookup result. */
  function NameOf(p: Option<Platform>): (r: Option<string>)
    ensures r.Some? <==> p.Some?
    ensures r.Some? ==> r.value == p.value.Name() && r.value != "unknown"
  {
    match p
    case Some(q) => Some(q.Name())
    case None => None
  }

  /** The host is a key of the host table, which maps an exact host (lower
      case, no port) to its platform and is kept in three parts that follow
      the order of the source's table. */
  predicate Listed(host: string)
  {
    host in DOMAIN_PLATFORM_1 || host in DOMAIN_PLATFORM_2 || host in DOMAIN_PLATFORM_3
  }

  const DOMAIN_PLATFORM_1: map<string, Platform> := map[
    "github.com" := Github, "www.github.com" := Github,
    "instagram.com" := Instagram, "www.instagram.com" := Instagram,
    "patreon.com" := Patreon, "www.patreon.com" := Patreon,
    "reddit.com" := Reddit, "www.reddit.com" := Reddit,
    "twitch.tv" := Twitch, "www.twitch.tv" := Twitch,
    "steamcommunity.com" := Steam, "www.steamcommunity.com" := Steam,
    "vimeo.com" := Vimeo, "www.vimeo.com" := Vimeo,
    "pinterest.com" := Pinterest, "www.pinterest.com" := Pinterest
  ]

  const DOMAIN_PLATFORM_2: map<string, Platform> := map[
    "pastebin.com" := Pastebin, "www.pastebin.com" := Pastebin,
    "picsart.com" := PicsArt, "www.picsart.com" := PicsArt,
    "imageshack.com" := ImageShack, "www.imageshack.com" := ImageShack,
    "last.fm" := LastFm, "www.last.fm" := LastFm,
    "mixcloud.com" := Mixcloud, "www.mixcloud.com" := Mixcloud,
    "myspace.com" := MySpace, "www.myspace.com" := MySpace,
    "chess.com" := Chess, "www.chess.com" := Chess,
    "kongregate.com" := Kongregate, "www.kongregate.com" := Kongregate
  ]

  const DOMAIN_PLATFORM_3: map<string, Platform> := map[
    "gog.com" := Gog, "www.gog.com" := Gog,
    "stackoverflow.com" := StackOverflow, "www.stackoverflow.com" := StackOverflow,
    "archive.org" := Archive, "web.archive.org" := Archive,
    "meta.wikimedia.org" := Wikimedia, "truckersmp.com" := TruckersMP,
    "www.truckersmp.com" := TruckersMP, "discord.com" := Discord,
    "www.discord.com" := Discord, "zepeto.me" := Zepeto,
    "web.zepeto.me" := Zepeto
  ]

  /** `DOMAIN_PLATFORM.get(host)`. */
  function DomainPlatform(host: string): (r: Option<Platform>)
    ensures r.Some? <==> Listed(host)
    ensures r.Some? ==>
      (host in DOMAIN_PLATFORM_1 && r.value == DOMAIN_PLATFORM_1[host]) ||
      (host in DOMAIN_PLATFORM_2 && r.value == DOMAIN_PLATFORM_2[host]) ||
      (host in DOMAIN_PLATFORM_3 && r.value == DOMAIN_PLATFORM_3[host])
  {
    if host in DOMAIN_PLATFORM_1 then Some(DOMAIN_PLATFORM_1[host])
    else if host in DOMAIN_PLATFORM_2 then Some(DOMAIN_PLATFORM_2[host])
    else if host in DOMAIN_PLATFORM_3 then Some(DOMAIN_PLATFORM_3[host])
    else None
  }

  /** How a host's path yields a handle: one entry per host that
      `parse_platform_and_username` tests, in the order it tests them. */
  datatype HandleRule =
    | FirstSegment                       // `/<handle>/...`
    | AfterPrefix(prefixes: set<string>) // `/<prefix>/<handle>/...`
    | ZepetoProfile                      // `/share/user/profile/<handle>`

  /** The hosts `parse_platform_and_username` tests, each with its rule. */
  const HANDLE_RULES: map<string, HandleRule> := map[
    "github.com" := FirstSegment,
    "twitch.tv" := FirstSegment,
    "instagram.com" := FirstSegment,
    "patreon.com" := FirstSegment,
    "reddit.com" := AfterPrefix({"user", "u"}),
    "steamcommunity.com" := AfterPrefix({"id", "profiles"}),
    "vimeo.com" := FirstSegment,
    "pinterest.com" := FirstSegment,
    "www.last.fm" := AfterPrefix({"user"}),
    "mixcloud.com" := FirstSegment,
    "pastebin.com" := AfterPrefix({"u"}),
    "picsart.com" := AfterPrefix({"u"}),
    "scratch.mit.edu" := AfterPrefix({"users"}),
    "kongregate.com" := AfterPrefix({"accounts"}),
    "kik.me" := FirstSegment,
    "disqus.com" := AfterPrefix({"by"}),
    "gog.com" := AfterPrefix({"u"}),
    "imageshack.com" := AfterPrefix({"user"}),
    "web.zepeto.me" := ZepetoProfile
  ]

  function HandleRuleFor(host: string): (r: Option<HandleRule>)
    ensures r.Some? <==> host in HANDLE_RULES
    ensures r.Some? ==> r.value == HANDLE_RULES[host]
  {
    if host in HANDLE_RULES then Some(HANDLE_RULES[host]) else None
  }

  /** The hosts whose handle is the first path segment. */
  const FIRST_SEGMENT_HOSTS: set<string> := {
    "github.com", "twitch.tv", "instagram.com", "patreon.com",
    "vimeo.com", "pinterest.com", "mixcloud.com", "kik.me"
  }

  /** `_clean_seg`: strip whitespace, then slashes. The result is a
      contiguous piece of the input that neither starts nor ends with `/`. */
  function CleanSeg(s: string): (r: string)
    ensures r == [] || (r[0] != '/' && r[|r| - 1] != '/')
    ensures IsSubstring(r, s)
  {
    CleanSegPieces(s);
    TrimRight(TrimLeft(Strip(s), Slash), Slash)
  }

  lemma CleanSegPieces(s: string)
    ensures var r := TrimRight(TrimLeft(Strip(s), Slash), Slash);
      (r == [] || (r[0] != '/' && r[|r| - 1] != '/')) && IsSubstring(r, s)
  {
    CleanSegEnds(Strip(s));
    StripPieces(s, TrimLeft(s, Whitespace), Strip(s));
  }

  /** Slash-trimming the stripped input leaves a piece of the input. */
  lemma StripPieces(s: string, a: string, t: string)
    requires a == TrimLeft(s, Whitespace) && t == TrimRight(a, Whitespace)
    ensures IsSubstring(TrimRight(TrimLeft(t, Slash), Slash), s)
  {
    var l := TrimLeft(t, Slash);
    TrimmedSlice(s, a, t, l, TrimRight(l, Slash));
  }

  /** After both slash trims neither end is a slash. */
  lemma CleanSegEnds(t: string)
    ensures var r := TrimRight(TrimLeft(t, Slash), Slash);
      r == [] || (r[0] != '/' && r[|r| - 1] != '/')
  {
    var l := TrimLeft(t, Slash);
    var r := TrimRight(l, Slash);
    if r != [] {
      assert r[0] == l[0];
    }
  }

  /** Trimming both ends twice leaves a piece of the input. */
  lemma TrimmedSlice(s: string, a: string, t: string, l: string, r: string)
    requires |a| <= |s| && a == s[|s| - |a|..]
    requires |t| <= |a| && t == a[..|t|]
    requires |l| <= |t| && l == t[|t| - |l|..]
    requires |r| <= |l| && r == l[..|r|]
    ensures IsSubstring(r, s)
  {
    SliceOfSlice(s, s, 0, a, t);
    SliceOfSlice(s, t, |s| - |a|, l, r);
    IsSubstringAt(r, s);
  }

  /** A prefix of a suffix of a slice of `s` is a slice of `s`. */
  lemma SliceOfSlice(s: string, t: string, i: nat, l: string, r: string)
    requires i + |t| <= |s| && t == s[i..i + |t|]
    requires |l| <= |t| && l == t[|t| - |l|..]
    requires |r| <= |l| && r == l[..|r|]
    ensures OccursAt(r, s, i + |t| - |l|)
  {
    var j := i + |t| - |l|;
    forall k | 0 <= k < |r|
      ensures s[j..j + |r|][k] == r[k]
    {
      assert r[k] == l[k] == t[|t| - |l| + k] == s[j + k];
    }
  }

  /** The netloc lower-cased with any `:port` dropped (`host.split(":")[0]`). */
  function PortlessHost(url: string): string
  {
    var host := Lower(Parse(url).netloc);
    host[..FirstWhere(host, AtColon)]
  }

  /** `_platform_from_url`: exact table lookup on the port-free host. */
  function PlatformFromUrl(url: string): (p: string)
    ensures p != "unknown" <==> DomainPlatform(PortlessHost(url)).Some?
    ensures p != "unknown" ==> p == DomainPlatform(PortlessHost(url)).value.Name()
  {
    var host := PortlessHost(url);
    match DomainPlatform(host)
    case Some(platform) => platform.Name()
    case None => "unknown"
  }

  /** The lookup ignores the case of the host and any port after it. */
  lemma PlatformIgnoresCaseAndPort(host: string, port: string, path: string)
    requires DomainPlatform(Lower(host)).Some?
    requires forall c :: c in host + port ==> !EndsNetloc(c)
    requires ':' !in host
    requires path == [] || path[0] == '/'
    requires forall c :: c in path ==> !EndsPath(c)
    ensures PlatformFromUrl("https://" + host + ":" + port + path) == DomainPlatform(Lower(host)).value.Name()
  {
    PortlessHostOf(host, port, path);
  }

  lemma PortlessHostOf(host: string, port: string, path: string)
    requires forall c :: c in host + port ==> !EndsNetloc(c)
    requires ':' !in host
    requires path == [] || path[0] == '/'
    requires forall c :: c in path ==> !EndsPath(c)
    ensures PortlessHost("https://" + host + ":" + port + path) == Lower(host)
  {
    HostPortConcat(host, port, path);
    HttpsNetloc(host + ":" + port, path);
    DropPort(host, port);
  }

  lemma HostPortConcat(host: string, port: string, path: string)
    ensures "https://" + host + ":" + port + path == "https://" + (host + ":" + port) + path
  {
  }

  /** The host the rule table is keyed by: lower case, one leading `www.` removed (port kept). */
  function RuleHost(url: string): string
  {
    WithoutWww(Lower(Parse(url).netloc))
  }

  function WithoutWww(host: string): (r: string)
    ensures "www." <= host ==> host == "www." + r
    ensures !("www." <= host) ==> r == host
  {
    if "www." <= host then host[4..] else host
  }

  /** The path segments the rule table reads. */
  function RuleSegments(url: string): seq<string>
  {
    Segments(CleanSeg(Parse(url).path))
  }

  function ApplyRule(rule: HandleRule, segs: seq<string>): (r: Option<string>)
    ensures r.Some? ==> r.value in segs
  {
    match rule
    case FirstSegment => if |segs| >= 1 then Some(segs[0]) else None
    case AfterPrefix(prefixes) => if |segs| >= 2 && segs[0] in prefixes then Some(segs[1]) else None
    case ZepetoProfile =>
      if |segs| >= 4 && segs[..3] == ["share", "user", "profile"] then Some(segs[3]) else None
  }

  /** The rule table of `parse_platform_and_username` on a host and its
      path segments: the platform of the host (when the table knows it)
      and the handle the host's rule yields (when it has one). Archive
      hosts and unlisted hosts fall through to "no handle". */
  function HostRules(host: string, segs: seq<string>): (r: (Option<string>, Option<string>))
    ensures r.0 == NameOf(DomainPlatform(host))
    ensures r.1.Some? ==> r.1.value in segs
    ensures HandleRuleFor(host).None? ==> r.1.None?
    ensures HandleRuleFor(host).Some? ==> r.1 == ApplyRule(HandleRuleFor(host).value, segs)
  {
    var platform := NameOf(DomainPlatform(host));
    var handle := match HandleRuleFor(host)
      case Some(rule) => ApplyRule(rule, segs)
      case None => None;
    (platform, handle)
  }

  /** `parse_platform_and_username`: a platform is never `unknown`, and a
      username is always one non-empty path segment, without slashes. The
      first clause unfolds the body for `RulesOfComposedUrl`. */
  function ParsePlatformAndUsername(url: string): (r: (Option<string>, Option<string>))
    ensures r == HostRules(RuleHost(url), RuleSegments(url))
    ensures r.0.Some? ==> r.0.value != "" && r.0.value != "unknown"
    ensures r.1.Some? ==> r.1.value in RuleSegments(url) && r.1.value != "" && '/' !in r.1.value
  {
    HostRules(RuleHost(url), RuleSegments(url))
  }

  /** On a URL `scheme://netloc path rest` the rules see the netloc lowered
      with one `www.` removed, and the segments of the cleaned path. */
  lemma RulesOfComposedUrl(scheme: string, netloc: string, path: string, rest: string)
    requires scheme != [] && IsLetter(scheme[0])
    requires forall c :: c in scheme ==> IsSchemeChar(c)
    requires forall c :: c in netloc ==> !EndsNetloc(c)
    requires path == [] || path[0] == '/'
    requires forall c :: c in path ==> !EndsPath(c)
    requires rest == [] || EndsPath(rest[0])
    ensures ParsePlatformAndUsername(scheme + "://" + netloc + path + rest)
      == HostRules(WithoutWww(Lower(netloc)), Segments(CleanSeg(path)))
  {
    ParseCompose(scheme, netloc, path, rest);
  }

  /** The lookup is exact: a subdomain of a listed host is not listed. */
  lemma SubdomainsNotListed()
    ensures DomainPlatform("gist.github.com").None? && DomainPlatform("m.twitch.tv").None?
  {
    GistNotListed();
    MobileTwitchNotListed();
  }

  /** A port hides the platform from the rule parser, which keeps it in the
      host, but not from the plain lookup, which drops it. */
  lemma PortHidesRulePlatform()
    ensures ParsePlatformAndUsername("https://github.com:443/alice") == (None, None)
    ensures PlatformFromUrl("https://github.com:443/alice") == "github"
  {
    WithPortRules();
    WithPortLookup();
  }

  /** First-segment hosts take the first segment whenever there is one. */
  lemma FirstSegmentHosts(host: string, segs: seq<string>)
    requires host in FIRST_SEGMENT_HOSTS
    ensures HostRules(host, segs).1 == (if segs != [] then Some(segs[0]) else None)
  {
    assert HandleRuleFor(host) == Some(FirstSegment);
  }

  /** Collection-prefix hosts take the second segment exactly when the
      first one is one of their literals. */
  lemma RedditRule(segs: seq<string>)
    ensures HostRules("reddit.com", segs) ==
      (Some("reddit"), if |segs| >= 2 && (segs[0] == "user" || segs[0] == "u") then Some(segs[1]) else None)
  {
    RedditPlatform();
    RedditHandle();
  }

  /** A `www.` prefix is removed once, so `www.last.fm` and `last.fm`
      both reach the table as `last.fm`. */
  lemma LastFmHost(netloc: string)
    requires netloc == "last.fm" || netloc == "www.last.fm"
    ensures WithoutWww(netloc) == "last.fm"
  {
    if netloc == "www.last.fm" {
      assert netloc == "www." + "last.fm";
      assert netloc[..4] == "www.";
    } else {
      assert netloc[3] == 't';
    }
  }

  /** The last.fm rule is keyed by `www.last.fm` although `www.` has
      already been removed: the host `last.fm`, which is what both
      `last.fm` and `www.last.fm` become, never yields a handle. */
  lemma LastFmRuleNeverFires(segs: seq<string>)
    ensures HostRules("last.fm", segs) == (Some("lastfm"), None)
  {
    LastFmPlatform();
    LastFmHandle();
  }

  /** zepeto yields the fourth segment only under `/share/user/profile/`. */
  lemma ZepetoRule(segs: seq<string>)
    ensures HostRules("web.zepeto.me", segs) ==
      (Some("zepeto"),
       if |segs| >= 4 && segs[0] == "share" && segs[1] == "user" && segs[2] == "profile"
       then Some(segs[3]) else None)
  {
    ZepetoPlatform();
    ZepetoHandle();
    if |segs| >= 4 {
      assert (segs[..3] == ["share", "user", "profile"]) <==>
        (segs[0] == "share" && segs[1] == "user" && segs[2] == "profile");
    }
  }

  /** Archive hosts are recognised but never yield a handle. */
  lemma ArchiveHasNoHandle(host: string, segs: seq<string>)
    requires host == "archive.org" || host == "web.archive.org"
    ensures HostRules(host, segs) == (Some("archive"), None)
  {
    if host == "archive.org" {
      ArchivePlatform();
      ArchiveHandle();
    } else {
      WebArchivePlatform();
      WebArchiveHandle();
    }
  }

  // Single table entries, each looked up on its own.

  lemma GithubPlatform()
    ensures DomainPlatform("github.com") == Some(Github)
  {
    assert "github.com" in DOMAIN_PLATFORM_1;
  }
  lemma RedditPlatform()
    ensures DomainPlatform("reddit.com") == Some(Reddit)
  {
    assert "reddit.com" in DOMAIN_PLATFORM_1;
  }
  lemma RedditHandle() ensures HandleRuleFor("reddit.com") == Some(AfterPrefix({"user", "u"})) {}
  lemma LastFmPlatform()
    ensures DomainPlatform("last.fm") == Some(LastFm)
  {
    assert "last.fm" !in DOMAIN_PLATFORM_1;
    assert "last.fm" in DOMAIN_PLATFORM_2;
  }
  lemma LastFmHandle() ensures HandleRuleFor("last.fm") == None {}
  lemma ZepetoPlatform()
    ensures DomainPlatform("web.zepeto.me") == Some(Zepeto)
  {
    assert "web.zepeto.me" !in DOMAIN_PLATFORM_1;
    assert "web.zepeto.me" !in DOMAIN_PLATFORM_2;
    assert "web.zepeto.me" in DOMAIN_PLATFORM_3;
  }
  lemma ZepetoHandle() ensures HandleRuleFor("web.zepeto.me") == Some(ZepetoProfile) {}
  lemma ArchivePlatform()
    ensures DomainPlatform("archive.org") == Some(Archive)
  {
    assert "archive.org" !in DOMAIN_PLATFORM_1;
    assert "archive.org" !in DOMAIN_PLATFORM_2;
    assert "archive.org" in DOMAIN_PLATFORM_3;
  }
  lemma ArchiveHandle() ensures HandleRuleFor("archive.org") == None {}
  lemma WebArchivePlatform()
    ensures DomainPlatform("web.archive.org") == Some(Archive)
  {
    assert "web.archive.org" !in DOMAIN_PLATFORM_1;
    assert "web.archive.org" !in DOMAIN_PLATFORM_2;
    assert "web.archive.org" in DOMAIN_PLATFORM_3;
  }
  lemma WebArchiveHandle() ensures HandleRuleFor("web.archive.org") == None {}

  // Steps of SubdomainsNotListed and PortHidesRulePlatform, each one
  // table lookup or one string fact, so that no single proof has to
  // unfold much at once.

  lemma GistNotListed()
    ensures !Listed("gist.github.com")
  {
    assert "gist.github.com" !in DOMAIN_PLATFORM_1;
    assert "gist.github.com" !in DOMAIN_PLATFORM_2;
    assert "gist.github.com" !in DOMAIN_PLATFORM_3;
  }

  lemma MobileTwitchNotListed()
    ensures !Listed("m.twitch.tv")
  {
    assert "m.twitch.tv" !in DOMAIN_PLATFORM_1;
    assert "m.twitch.tv" !in DOMAIN_PLATFORM_2;
    assert "m.twitch.tv" !in DOMAIN_PLATFORM_3;
  }

  lemma WithPortRules()
    ensures ParsePlatformAndUsername("https://github.com:443/alice") == (None, None)
  {
    HttpsScheme();
    assert "https://github.com:443/alice" == "https" + "://" + "github.com:443" + "/alice" + "";
    HostWithPort();
    RulesOfComposedUrl("https", "github.com:443", "/alice", "");
    WithPortHostRules();
  }

  lemma WithPortHostRules()
    ensures forall segs :: HostRules(WithoutWww(Lower("github.com:443")), segs) == (None, None)
  {
    WithPortHostKept();
    WithPortHostUnruled();
  }

  lemma WithPortHostKept()
    ensures WithoutWww(Lower("github.com:443")) == "github.com:443"
  {
    LowerOfLower("github.com:443");
    assert !("www." <= "github.com:443");
  }

  lemma WithPortHostUnruled()
    ensures forall segs :: HostRules("github.com:443", segs) == (None, None)
  {
    WithPortHostNotListed();
    assert "github.com:443" !in HANDLE_RULES;
  }

  lemma WithPortLookup()
    ensures PlatformFromUrl("https://github.com:443/alice") == "github"
  {
    GithubListed();
    HostWithPort();
    WithPortUrl();
    PlatformIgnoresCaseAndPort("github.com", "443", "/alice");
  }

  lemma GithubListed()
    ensures DomainPlatform(Lower("github.com")) == Some(Github)
  {
    GithubLower();
    GithubPlatform();
  }

  lemma GithubLower()
    ensures Lower("github.com") == "github.com"
  {
    LowerOfLower("github.com");
  }

  lemma WithPortUrl()
    ensures "https://github.com:443/alice" == "https://" + "github.com" + ":" + "443" + "/alice"
  {
  }

  lemma HostWithPort()
    ensures forall c :: c in "github.com:443" ==> !EndsNetloc(c)
    ensures forall c :: c in "github.com" + "443" ==> !EndsNetloc(c)
    ensures forall c :: c in "/alice" ==> !EndsPath(c)
    ensures ':' !in "github.com"
  {
  }

  lemma WithPortHostNotListed()
    ensures !Listed("github.com:443")
  {
    assert "github.com:443" !in DOMAIN_PLATFORM_1;
    assert "github.com:443" !in DOMAIN_PLATFORM_2;
    assert "github.com:443" !in DOMAIN_PLATFORM_3;
  }

  /** Lower-casing leaves a string without capitals unchanged. */
  lemma LowerOfLower(s: string)
    requires forall c :: c in s ==> !IsUpper(c)
    ensures Lower(s) == s
  {
    assert forall i :: 0 <= i < |s| ==> s[i] in s;
  }

  /** `_guess_handle_from_url`, applying its rules in order. */
  function GuessHandleFromUrl(url: string, target: string): (r: Option<string>)
    ensures r.Some? ==> r.value != "" && '/' !in r.value
  {
    var path := StripBy(Parse(url).path, Slash);
    if path == "" then None
    else HandleFromSegments(Segments(path), target, JUNK_PATH_SEGMENTS)
  }

  /** The rules on the path's segments, `junk` being the directory words. */
  function HandleFromSegments(segs: seq<string>, target: string, junk: set<string>): (r: Option<string>)
    requires forall g :: g in segs ==> g != [] && '/' !in g
    ensures r.Some? ==> r.value != "" && '/' !in r.value
    ensures segs == [] ==> r.None?
    ensures r.Some? ==> segs != [] && (r.value == target || r.value in segs || "@" + r.value == segs[0])
  {
    if segs == [] then None
    // `/@name`
    else if |segs[0]| > 1 && segs[0][0] == '@' then
      assert segs[0] in segs;
      Some(segs[0][1..])
    // `/<junk>/<name>` with a non-junk second segment
    else if |segs| >= 2 && Lower(segs[0]) in junk
         && segs[1] != "" && Lower(segs[1]) !in junk then
      assert segs[1] in segs;
      Some(segs[1])
    else
      var last := segs[|segs| - 1];
      assert last in segs;
      if Lower(last) in junk then None
      else if target != "" && Lower(last) == Lower(target) then
        LowerSameSlashes(last, target);
        Some(target)
      // looks like a file name
      else if '.' in last then None
      else Some(last)
  }

  /** Strings that lower-case alike agree on where their slashes are. */
  lemma LowerSameSlashes(a: string, b: string)
    requires Lower(a) == Lower(b)
    ensures '/' in a <==> '/' in b
  {
    if '/' in a {
      var i :| 0 <= i < |a| && a[i] == '/';
      LowerKeepsOthers(a, '/', i);
      LowerKeepsOthers(b, '/', i);
    }
    if '/' in b {
      var i :| 0 <= i < |b| && b[i] == '/';
      LowerKeepsOthers(a, '/', i);
      LowerKeepsOthers(b, '/', i);
    }
  }

  /** What the heuristic can return: the `@`-stripped first segment, or
      else a segment or the target that is not a directory word, and a
      file-like last segment (one with a `.`) is never returned as is. */
  lemma GuessHandleShape(url: string, target: string)
    ensures var r := GuessHandleFromUrl(url, target);
      var segs := Segments(StripBy(Parse(url).path, Slash));
      r.Some? ==> SegmentHandleShape(segs, target, JUNK_PATH_SEGMENTS, r.value)
  {
    var path := StripBy(Parse(url).path, Slash);
    if path != "" {
      SegmentsHandleShape(Segments(path), target, JUNK_PATH_SEGMENTS);
    }
  }

  /** The `@`-stripped first segment, or a segment after a directory
      word, or else the target or a last segment without a `.`; none
      but the first is a directory word. */
  predicate SegmentHandleShape(segs: seq<string>, target: string, junk: set<string>, h: string)
  {
    (segs != [] && |segs[0]| > 1 && segs[0][0] == '@' && h == segs[0][1..]) ||
    (Lower(h) !in junk && (h == target || (h in segs && '.' !in h) || (|segs| >= 2 && h == segs[1])))
  }

  lemma SegmentsHandleShape(segs: seq<string>, target: string, junk: set<string>)
    requires forall g :: g in segs ==> g != [] && '/' !in g
    ensures var r := HandleFromSegments(segs, target, junk);
      r.Some? ==> SegmentHandleShape(segs, target, junk, r.value)
  {
    if segs != [] {
      var last := segs[|segs| - 1];
      assert last in segs;
    }
  }

  /** A first segment `@name` wins over every later rule. */
  lemma GuessAtHandle(url: string, target: string)
    requires var segs := Segments(StripBy(Parse(url).path, Slash));
      segs != [] && |segs[0]| > 1 && segs[0][0] == '@'
    ensures GuessHandleFromUrl(url, target) ==
      Some(Segments(StripBy(Parse(url).path, Slash))[0][1..])
  {
  }

  /** `/<directory word>/<name>` gives `name` when `name` is no directory
      word and the first segment is no `@name`. */
  lemma GuessAfterDirectory(segs: seq<string>, target: string, junk: set<string>)
    requires forall g :: g in segs ==> g != [] && '/' !in g
    requires |segs| >= 2 && !(|segs[0]| > 1 && segs[0][0] == '@')
    requires Lower(segs[0]) in junk && Lower(segs[1]) !in junk
    ensures HandleFromSegments(segs, target, junk) == Some(segs[1])
  {
    assert segs[1] in segs;
  }

  /** When no earlier rule fires and the last segment equals the target
      ignoring case, the target is returned in its own spelling. */
  lemma GuessTargetLast(segs: seq<string>, target: string, junk: set<string>)
    requires forall g :: g in segs ==> g != [] && '/' !in g
    requires segs != [] && !(|segs[0]| > 1 && segs[0][0] == '@')
    requires !(|segs| >= 2 && Lower(segs[0]) in junk && Lower(segs[1]) !in junk)
    requires target != "" && Lower(segs[|segs| - 1]) == Lower(target) && Lower(target) !in junk
    ensures HandleFromSegments(segs, target, junk) == Some(target)
  {
    assert segs[|segs| - 1] in segs;
  }

  /** When no earlier rule fires, a last segment that is a directory word
      yields no handle. */
  lemma GuessJunkLast(segs: seq<string>, target: string, junk: set<string>)
    requires forall g :: g in segs ==> g != [] && '/' !in g
    requires segs != [] && !(|segs[0]| > 1 && segs[0][0] == '@')
    requires !(|segs| >= 2 && Lower(segs[0]) in junk && Lower(segs[1]) !in junk)
    requires Lower(segs[|segs| - 1]) in junk
    ensures HandleFromSegments(segs, target, junk) == None
  {
    assert segs[|segs| - 1] in segs;
  }

  /** When no earlier rule fires, a last segment that is not the target and
      holds a `.` looks like a file name and yields no handle; one without a
      `.` is the handle. */
  lemma GuessFileLast(segs: seq<string>, target: string, junk: set<string>)
    requires forall g :: g in segs ==> g != [] && '/' !in g
    requires segs != [] && !(|segs[0]| > 1 && segs[0][0] == '@')
    requires !(|segs| >= 2 && Lower(segs[0]) in junk && Lower(segs[1]) !in junk)
    requires Lower(segs[|segs| - 1]) !in junk
    requires target == "" || Lower(segs[|segs| - 1]) != Lower(target)
    ensures HandleFromSegments(segs, target, junk) ==
      if '.' in segs[|segs| - 1] then None else Some(segs[|segs| - 1])
  {
    assert segs[|segs| - 1] in segs;
  }

  /** An empty path (after stripping slashes) yields no handle. */
  lemma GuessEmptyPath(url: string, target: string)
    requires StripBy(Parse(url).path, Slash) == ""
    ensures GuessHandleFromUrl(url, target) == None
  {
  }

}
