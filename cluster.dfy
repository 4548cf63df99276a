/**
 * Scoring and clustering of account candidates (project/src/cluster.py):
 * a platform guess from the host's suffix, a handle taken from the path,
 * handle normalisation, an additive clamped confidence score, and the
 * grouping of accounts by `(platform, normalised handle or host)` into
 * clusters sorted by descending confidence.
 *
 * Scores are integer hundredths: 0.25 is 25 and the clamp range is 0..100.
 */
module Cluster {
  import opened Wrappers
  import opened Strings
  import opened Url
  import opened Normalize
  import opened Seqs

  const HIGH_SIGNAL_PLATFORMS: set<string> :=
    {"github", "instagram", "twitch", "reddit", "twitter", "linkedin", "youtube", "patreon"}

  // =====================================================================
  // Host and path

  /** `_host`: the lower-cased netloc with every leading `w` and `.`
      removed. `lstrip("w.")` strips a set of characters, not a prefix. */
  function Host(url: string): (h: string)
    ensures var low := Lower(Parse(url).netloc);
      && |h| <= |low| && h == low[|low| - |h|..]
      && (forall i :: 0 <= i < |low| - |h| ==> low[i] == 'w' || low[i] == '.')
      && (h != [] ==> h[0] != 'w' && h[0] != '.')
  {
    TrimLeft(Lower(Parse(url).netloc), WOrDot)
  }

  /** `lstrip("w.")` removes a `www.` prefix ... */
  lemma LstripDropsWww(rest: string)
    requires rest != [] && rest[0] != 'w' && rest[0] != '.'
    ensures TrimLeft("www." + rest, WOrDot) == rest
  {
    var s := "www." + rest;
    assert s[1..] == "ww." + rest && s[1..][1..] == "w." + rest;
    assert s[1..][1..][1..] == "." + rest && s[1..][1..][1..][1..] == rest;
    TrimLeftStep(s, WOrDot);
    TrimLeftStep(s[1..], WOrDot);
    TrimLeftStep(s[1..][1..], WOrDot);
    TrimLeftStep(s[1..][1..][1..], WOrDot);
    TrimLeftStop(rest, WOrDot);
  }

  /** ... but also the `w` of `web.`, so `web.archive.org` becomes `eb.archive.org`. */
  lemma LstripDropsWOfWeb(rest: string)
    ensures TrimLeft("web." + rest, WOrDot) == "eb." + rest
  {
    var s := "web." + rest;
    assert s[1..] == "eb." + rest;
    TrimLeftStep(s, WOrDot);
    TrimLeftStop(s[1..], WOrDot);
  }

  lemma TrimLeftStep(s: string, drop: CharClass)
    requires s != [] && InClass(s[0], drop)
    ensures TrimLeft(s, drop) == TrimLeft(s[1..], drop)
  {
  }

  lemma TrimLeftStop(s: string, drop: CharClass)
    requires s == [] || !InClass(s[0], drop)
    ensures TrimLeft(s, drop) == s
  {
  }

  /** `_path_parts`: the non-empty segments of the path. */
  function PathParts(url: string): (parts: seq<string>)
    ensures forall p :: p in parts ==> p != "" && '/' !in p
  {
    Segments(StripBy(Parse(url).path, Slash))
  }

  // =====================================================================
  // platform_guess

  /** The suffix tests of `platform_guess`, in the order they are tried. */
  const SUFFIX_PLATFORMS: seq<(string, string)> := [
    ("github.com", "github"),
    ("instagram.com", "instagram"),
    ("twitch.tv", "twitch"),
    ("reddit.com", "reddit"),
    ("patreon.com", "patreon"),
    ("twitter.com", "twitter"),
    ("x.com", "twitter"),
    ("linkedin.com", "linkedin"),
    ("youtube.com", "youtube"),
    ("youtu.be", "youtube")
  ]

  /** The first suffix test at or after `from` that `host` passes. */
  function FirstSuffix(host: string, from: nat): (r: Option<nat>)
    requires from <= |SUFFIX_PLATFORMS|
    ensures r.Some? ==> from <= r.value < |SUFFIX_PLATFORMS| && EndsWith(host, SUFFIX_PLATFORMS[r.value].0)
    ensures r.Some? ==> forall j :: from <= j < r.value ==> !EndsWith(host, SUFFIX_PLATFORMS[j].0)
    ensures r.None? ==> forall j :: from <= j < |SUFFIX_PLATFORMS| ==> !EndsWith(host, SUFFIX_PLATFORMS[j].0)
    decreases |SUFFIX_PLATFORMS| - from
  {
    if from == |SUFFIX_PLATFORMS| then None
    else if EndsWith(host, SUFFIX_PLATFORMS[from].0) then Some(from)
    else FirstSuffix(host, from + 1)
  }

  /** `platform_guess` once the host is known: the stored platform when
      there is one, else the platform of the first suffix the host ends
      with, else `unknown`. */
  function GuessFromHost(host: string, field: Option<string>): (r: string)
    ensures r != ""
    ensures field.Some? && field.value != "" ==> r == field.value
    ensures field.None? || field.value == "" ==>
      match FirstSuffix(host, 0)
      case Some(j) => r == SUFFIX_PLATFORMS[j].1 && r != "unknown"
      case None => r == "unknown"
  {
    if field.Some? && field.value != "" then field.value
    else
      match FirstSuffix(host, 0)
      case Some(j) => SuffixPlatformNames(j); SUFFIX_PLATFORMS[j].1
      case None => "unknown"
  }

  lemma SuffixPlatformNames(j: nat)
    requires j < |SUFFIX_PLATFORMS|
    ensures SUFFIX_PLATFORMS[j].1 != "" && SUFFIX_PLATFORMS[j].1 != "unknown"
  {
  }

  /** `platform_guess`. */
  function PlatformGuess(url: string, field: Option<string>): (r: string)
    ensures r != ""
    ensures field.Some? && field.value != "" ==> r == field.value
  {
    GuessFromHost(Host(url), field)
  }

  /** The suffix test has no dot boundary: `dropbox.com` ends with `x.com`. */
  lemma SuffixWithoutBoundary()
    ensures GuessFromHost("dropbox.com", None) == "twitter"
  {
    DropboxMisses();
    assert EndsWith("dropbox.com", "x.com") by {
      assert "dropbox.com"[6..] == "x.com";
    }
    XComIsTwitter("dropbox.com");
  }

  /** Any host that ends with `x.com` and passes none of the earlier
      suffix tests is taken for twitter. */
  lemma XComIsTwitter(host: string)
    requires !EndsWith(host, "github.com") && !EndsWith(host, "instagram.com")
    requires !EndsWith(host, "twitch.tv") && !EndsWith(host, "reddit.com")
    requires !EndsWith(host, "patreon.com") && !EndsWith(host, "twitter.com")
    requires EndsWith(host, "x.com")
    ensures GuessFromHost(host, None) == "twitter"
  {
    SuffixTable();
    FirstSuffixSkip(host, 0);
    FirstSuffixSkip(host, 1);
    FirstSuffixSkip(host, 2);
    FirstSuffixSkip(host, 3);
    FirstSuffixSkip(host, 4);
    FirstSuffixSkip(host, 5);
    assert FirstSuffix(host, 6) == Some(6);
  }

  lemma DropboxMisses()
    ensures !EndsWith("dropbox.com", "github.com") && !EndsWith("dropbox.com", "instagram.com")
    ensures !EndsWith("dropbox.com", "twitch.tv") && !EndsWith("dropbox.com", "reddit.com")
    ensures !EndsWith("dropbox.com", "patreon.com") && !EndsWith("dropbox.com", "twitter.com")
  {
    NotGithub();
    NotTwitch();
    NotReddit();
    NotPatreon();
    NotTwitter();
  }

  // Each suffix rejected on its own, at a place where it differs from `dropbox.com`.
  lemma NotGithub() ensures !EndsWith("dropbox.com", "github.com") { MismatchAt("dropbox.com", "github.com", 0); }
  lemma NotTwitch() ensures !EndsWith("dropbox.com", "twitch.tv") { MismatchAt("dropbox.com", "twitch.tv", 0); }
  lemma NotReddit() ensures !EndsWith("dropbox.com", "reddit.com") { MismatchAt("dropbox.com", "reddit.com", 1); }
  lemma NotPatreon() ensures !EndsWith("dropbox.com", "patreon.com") { MismatchAt("dropbox.com", "patreon.com", 0); }
  lemma NotTwitter() ensures !EndsWith("dropbox.com", "twitter.com") { MismatchAt("dropbox.com", "twitter.com", 0); }

  /** A suffix test that fails passes the search on to the next one. */
  lemma FirstSuffixSkip(host: string, from: nat)
    requires from < |SUFFIX_PLATFORMS| && !EndsWith(host, SUFFIX_PLATFORMS[from].0)
    ensures FirstSuffix(host, from) == FirstSuffix(host, from + 1)
  {
  }

  lemma SuffixTable()
    ensures SUFFIX_PLATFORMS[0].0 == "github.com" && SUFFIX_PLATFORMS[1].0 == "instagram.com"
    ensures SUFFIX_PLATFORMS[2].0 == "twitch.tv" && SUFFIX_PLATFORMS[3].0 == "reddit.com"
    ensures SUFFIX_PLATFORMS[4].0 == "patreon.com" && SUFFIX_PLATFORMS[5].0 == "twitter.com"
    ensures SUFFIX_PLATFORMS[6] == ("x.com", "twitter")
  {
  }

  /** A host that differs from a suffix at some place does not end with it. */
  lemma MismatchAt(host: string, suffix: string, k: nat)
    requires k < |suffix| <= |host| && host[|host| - |suffix| + k] != suffix[k]
    ensures !EndsWith(host, suffix)
  {
    assert host[|host| - |suffix|..][k] == host[|host| - |suffix| + k];
  }

  // =====================================================================
  // extract_handle

  /** `extract_handle`: reddit wants `/user/<handle>`; every other platform
      takes the first path segment. */
  function ExtractHandle(platform: string, url: string): (r: Option<string>)
    ensures r.Some? ==> r.value != "" && '/' !in r.value
    ensures PathParts(url) == [] ==> r.None?
    ensures platform != "reddit" && PathParts(url) != [] ==> r == Some(PathParts(url)[0])
    ensures platform == "reddit" ==>
      (r.Some? <==> |PathParts(url)| >= 2 && Lower(PathParts(url)[0]) == "user")
    ensures platform == "reddit" && r.Some? ==> r.value == PathParts(url)[1]
  {
    var parts := PathParts(url);
    if parts == [] then None
    else if platform == "reddit" then
      if |parts| >= 2 && Lower(parts[0]) == "user" then
        assert parts[1] in parts;
        Some(parts[1])
      else None
    else
      assert parts[0] in parts;
      Some(parts[0])
  }

  // =====================================================================
  // normalized_handle

  predicate IsHandleChar(c: char)
  {
    'a' <= c <= 'z' || '0' <= c <= '9' || c == '.' || c == '_' || c == '-'
  }

  /** Deletes every character outside `[a-z0-9._-]`, keeping the order of the rest. */
  function KeepHandleChars(s: string): (r: string)
    ensures |r| <= |s|
    ensures forall c :: c in r ==> IsHandleChar(c) && c in s
    ensures forall c :: c in s && IsHandleChar(c) ==> c in r
  {
    if s == [] then []
    else
      var rest := KeepHandleChars(s[1..]);
      assert forall c :: c in s[1..] ==> c in s;
      if IsHandleChar(s[0]) then [s[0]] + rest else rest
  }

  /** The filter works character by character: a handle character is kept
      as it is, any other is deleted ... */
  lemma KeepOne(c: char)
    ensures KeepHandleChars([c]) == if IsHandleChar(c) then [c] else []
  {
    assert [c][1..] == [];
  }

  /** ... and the filter of a concatenation is the concatenation of the
      filters, so order and repeats of the kept characters are those of
      the input. */
  lemma {:induction false} KeepAppend(a: string, b: string)
    ensures KeepHandleChars(a + b) == KeepHandleChars(a) + KeepHandleChars(b)
    decreases |a|
  {
    if a == [] {
      assert a + b == b;
    } else {
      assert (a + b)[0] == a[0];
      assert (a + b)[1..] == a[1..] + b;
      KeepAppend(a[1..], b);
    }
  }

  /** Normalising a concatenation normalises each part: one character is
      lower-cased, then kept when it is a handle character. */
  lemma NormalizedAppend(a: string, b: string, c: char)
    ensures NormalizedHandle(a + b) == NormalizedHandle(a) + NormalizedHandle(b)
    ensures NormalizedHandle([c]) == if IsHandleChar(LowerChar(c)) then [LowerChar(c)] else []
  {
    LowerAppend(a, b);
    KeepAppend(Lower(a), Lower(b));
    assert Lower([c]) == [LowerChar(c)];
    KeepOne(LowerChar(c));
  }

  /** `normalized_handle`: lower-case, then keep only `[a-z0-9._-]`. */
  function NormalizedHandle(s: string): (r: string)
    ensures forall c :: c in r ==> IsHandleChar(c)
    ensures |r| <= |s|
  {
    KeepHandleChars(Lower(s))
  }

  lemma {:induction false} KeepAllHandleChars(s: string)
    requires forall c :: c in s ==> IsHandleChar(c)
    ensures KeepHandleChars(s) == s
    decreases |s|
  {
    if s != [] {
      assert s[0] in s;
      assert forall c :: c in s[1..] ==> c in s;
      KeepAllHandleChars(s[1..]);
      assert s == [s[0]] + s[1..];
    }
  }

  lemma LowerOfHandleChars(s: string)
    requires forall c :: c in s ==> IsHandleChar(c)
    ensures Lower(s) == s
  {
    forall i | 0 <= i < |s|
      ensures Lower(s)[i] == s[i]
    {
      assert s[i] in s;
    }
  }

  /** A string already made of `[a-z0-9._-]` is its own normal form. */
  lemma NormalizedFixedPoint(s: string)
    requires forall c :: c in s ==> IsHandleChar(c)
    ensures NormalizedHandle(s) == s
  {
    LowerOfHandleChars(s);
    KeepAllHandleChars(s);
  }

  /** Normalising twice is normalising once. */
  lemma NormalizedIdempotent(s: string)
    ensures NormalizedHandle(NormalizedHandle(s)) == NormalizedHandle(s)
  {
    NormalizedFixedPoint(NormalizedHandle(s));
  }

  // =====================================================================
  // score_account

  /** An account record as `cluster_accounts` stores it: a copy of the
      input record whose platform is the guessed one, plus the extracted
      handle (`""` when there is none). */
  datatype Member = Member(
    platform: string,
    url: string,
    username: Option<string>,
    kind: string,
    signals: seq<Signal>,
    handle: string)

  /** The distinct non-empty module names among the signals. */
  function Modules(signals: seq<Signal>): set<string>
  {
    set i | 0 <= i < |signals| && signals[i].moduleName != "" :: signals[i].moduleName
  }

  /** The normalised handle and the normalised target agree (and are not empty). */
  predicate HandleMatches(target: string, m: Member)
  {
    var handleN := if m.handle != "" then NormalizedHandle(m.handle) else "";
    handleN != "" && handleN == NormalizedHandle(target)
  }

  predicate HighSignal(m: Member)
  {
    (if m.platform != "" then m.platform else "unknown") in HIGH_SIGNAL_PLATFORMS
  }

  /** The normalised target occurs in the normalised URL. */
  predicate UrlMentions(target: string, m: Member)
  {
    NormalizedHandle(target) != "" && IsSubstring(NormalizedHandle(target), NormalizedHandle(m.url))
  }

  function Min(a: int, b: int): int { if a <= b then a else b }

  /** The score before clamping, in hundredths: 25 plus 15 per module up
      to 45, plus 25 for a handle match and 10 more on a high-signal
      platform, plus 5 when the URL mentions the target. */
  function RawScore(moduleCount: nat, handleMatch: bool, highSignal: bool, urlMatch: bool): int
  {
    25 + Min(15 * moduleCount, 45)
    + (if handleMatch then 25 + (if highSignal then 10 else 0) else 0)
    + (if urlMatch then 5 else 0)
  }

  function Clamp(x: int): int
  {
    if x > 100 then 100 else if x < 0 then 0 else x
  }

  /** The confidence that `m` belongs to `target`: between 0.25 and 1, at
      least 0.50 with a handle match, and at most 0.75 without one, so that
      no account is likely (0.80) unless its handle matches. */
  function Score(target: string, m: Member): (r: int)
    ensures 25 <= r <= 100
    ensures HandleMatches(target, m) ==> r >= 50
    ensures HandleMatches(target, m) && HighSignal(m) ==> r >= 60
    ensures !HandleMatches(target, m) ==> r <= 75
  {
    Clamp(RawScore(|Modules(m.signals)|, HandleMatches(target, m), HighSignal(m), UrlMentions(target, m)))
  }

  /** `score_account`, which adds its terms to a running score and clamps it. */
  method ScoreAccount(target: string, m: Member) returns (score: int)
    ensures score == Score(target, m)
    ensures 25 <= score <= 100
  {
    var targetN := NormalizedHandle(target);
    var plat := if m.platform != "" then m.platform else "unknown";
    var url := m.url;
    var handle := m.handle;
    var handleN := if handle != "" then NormalizedHandle(handle) else "";
    var moduleCount := |Modules(m.signals)|;

    score := 25 + Min(15 * moduleCount, 45);
    if handleN != "" && handleN == targetN {
      score := score + 25;
      if plat in HIGH_SIGNAL_PLATFORMS {
        score := score + 10;
      }
    }
    if targetN != "" && IsSubstring(targetN, NormalizedHandle(url)) {
      score := score + 5;
    }
    if score > 100 {
      score := 100;
    }
    if score < 0 {
      score := 0;
    }
  }

  /** More supporting modules never lower the score ... */
  lemma ScoreMonotoneInModules(a: nat, b: nat, h: bool, s: bool, u: bool)
    requires a <= b
    ensures Clamp(RawScore(a, h, s, u)) <= Clamp(RawScore(b, h, s, u))
  {
  }

  /** One more signal never lowers an account's score: its modules can
      only grow. */
  lemma ScoreGrowsWithSignals(target: string, m: Member, s: Signal)
    ensures Score(target, m) <= Score(target, m.(signals := m.signals + [s]))
  {
    var m' := m.(signals := m.signals + [s]);
    ModulesGrow(m.signals, s);
    assert HandleMatches(target, m') == HandleMatches(target, m);
    assert HighSignal(m') == HighSignal(m);
    assert UrlMentions(target, m') == UrlMentions(target, m);
    ScoreMonotoneInModules(|Modules(m.signals)|, |Modules(m'.signals)|,
      HandleMatches(target, m), HighSignal(m), UrlMentions(target, m));
  }

  /** Appending a signal keeps every module and adds at most its own. */
  lemma ModulesGrow(signals: seq<Signal>, s: Signal)
    ensures Modules(signals + [s]) == Modules(signals) + (if s.moduleName != "" then {s.moduleName} else {})
    ensures |Modules(signals)| <= |Modules(signals + [s])|
  {
    var t := signals + [s];
    assert forall i :: 0 <= i < |signals| ==> t[i] == signals[i];
    assert t[|signals|] == s;
    var a := Modules(signals);
    if s.moduleName != "" && s.moduleName !in a {
      assert |a + {s.moduleName}| == |a| + 1;
    }
  }

  /** ... and beyond three they add nothing. */
  lemma ScoreSaturates(a: nat, h: bool, s: bool, u: bool)
    requires a >= 3
    ensures RawScore(a, h, s, u) == RawScore(3, h, s, u)
  {
  }

  /** The clamp is reached: every boost at once would give 1.10. */
  lemma ScoreClamped(a: nat)
    requires a >= 3
    ensures RawScore(a, true, true, true) == 110 && Clamp(RawScore(a, true, true, true)) == 100
  {
  }

  // =====================================================================
  // cluster_accounts: what it builds

  /** The copy of an input account that `cluster_accounts` stores: the
      platform replaced by the guessed one and the extracted handle added. */
  function Annotate(acc: Account): Member
  {
    var plat := PlatformGuess(acc.url, acc.platform);
    Member(plat, acc.url, acc.username, acc.kind, acc.signals, ExtractHandle(plat, acc.url).GetOr(""))
  }

  /** A cluster key: the platform and the normalised handle, or the host
      when no handle was extracted. */
  datatype Key = Key(platform: string, id: string)

  function KeyOf(m: Member): Key
  {
    Key(m.platform, if m.handle != "" then NormalizedHandle(m.handle) else Host(m.url))
  }

  /** An annotated account together with its cluster key. */
  datatype Entry = Entry(member: Member, key: Key)

  function EntryOf(acc: Account): Entry
  {
    var m := Annotate(acc);
    Entry(m, KeyOf(m))
  }

  /** The entries of the accounts, in input order. */
  function Entries(accs: seq<Account>): seq<Entry>
  {
    MapSeq(EntryOf, accs)
  }

  /** What an entry records about its account: the account's own fields,
      a platform that is never empty and is the stored one when that is
      set, and a handle that is a single path segment. */
  lemma EntryFields(acc: Account)
    ensures var e := EntryOf(acc);
      && e.member.url == acc.url && e.member.username == acc.username
      && e.member.kind == acc.kind && e.member.signals == acc.signals
      && e.member.platform != "" && e.key.platform == e.member.platform
      && (acc.platform.Some? && acc.platform.value != "" ==> e.member.platform == acc.platform.value)
      && (e.member.handle != "" ==> '/' !in e.member.handle && e.key.id == NormalizedHandle(e.member.handle))
      && (e.member.handle == "" ==> e.key.id == Host(acc.url))
  {
    var plat := PlatformGuess(acc.url, acc.platform);
    var h := ExtractHandle(plat, acc.url);
    assert h.Some? ==> h.value != "" && '/' !in h.value;
  }

  predicate Distinct<T(==)>(s: seq<T>)
  {
    forall i, j :: 0 <= i < j < |s| ==> s[i] != s[j]
  }

  /** The keys in the order they first occur (the order of the clusters
      dict, which keeps insertion order). */
  function FirstKeys(es: seq<Entry>): (keys: seq<Key>)
  {
    if es == [] then []
    else
      var before := FirstKeys(es[..|es| - 1]);
      var k := es[|es| - 1].key;
      if k in before then before else before + [k]
  }

  /** No key is listed twice. */
  lemma {:induction false} FirstKeysDistinct(es: seq<Entry>)
    ensures Distinct(FirstKeys(es))
    decreases |es|
  {
    if es != [] {
      FirstKeysDistinct(es[..|es| - 1]);
    }
  }

  /** A key is listed exactly when some entry has it. */
  lemma {:induction false} FirstKeysSpec(es: seq<Entry>, k: Key)
    ensures k in FirstKeys(es) <==> exists i :: 0 <= i < |es| && es[i].key == k
    decreases |es|
  {
    if es != [] {
      var n := |es| - 1;
      FirstKeysSpec(es[..n], k);
      if k in FirstKeys(es[..n]) {
        var i :| 0 <= i < n && es[..n][i].key == k;
        assert es[i].key == k;
      } else {
        forall i | 0 <= i < n
          ensures es[i].key != k
        {
          assert es[..n][i] == es[i];
        }
      }
    }
  }

  /** The members filed under key `k`, in input order. */
  function GroupOf(es: seq<Entry>, k: Key): seq<Member>
  {
    if es == [] then []
    else
      var n := |es| - 1;
      GroupOf(es[..n], k) + (if es[n].key == k then [es[n].member] else [])
  }

  lemma GroupStep(es: seq<Entry>, e: Entry, k: Key)
    ensures GroupOf(es + [e], k) == GroupOf(es, k) + (if e.key == k then [e.member] else [])
  {
    assert (es + [e])[..|es|] == es;
  }

  lemma FirstKeysStep(es: seq<Entry>, e: Entry)
    ensures FirstKeys(es + [e]) == if e.key in FirstKeys(es) then FirstKeys(es) else FirstKeys(es) + [e.key]
  {
    assert (es + [e])[..|es|] == es;
  }

  /** A key has members exactly when it is listed. */
  lemma {:induction false} GroupNonEmpty(es: seq<Entry>, k: Key)
    ensures GroupOf(es, k) != [] <==> k in FirstKeys(es)
    decreases |es|
  {
    if es != [] {
      GroupNonEmpty(es[..|es| - 1], k);
    }
  }

  /** Every member of a group came from an entry with that key. */
  lemma {:induction false} GroupSound(es: seq<Entry>, k: Key, j: nat)
    requires j < |GroupOf(es, k)|
    ensures exists i :: 0 <= i < |es| && es[i] == Entry(GroupOf(es, k)[j], k)
    decreases |es|
  {
    var n := |es| - 1;
    var before := GroupOf(es[..n], k);
    if j < |before| {
      GroupSound(es[..n], k, j);
      var i :| 0 <= i < n && es[..n][i] == Entry(before[j], k);
      assert es[i] == Entry(GroupOf(es, k)[j], k);
    } else {
      assert es[n] == Entry(GroupOf(es, k)[j], k);
    }
  }

  /** Every entry's member is filed in the group of its key. */
  lemma {:induction false} MemberInGroup(es: seq<Entry>, i: nat)
    requires i < |es|
    ensures es[i].member in GroupOf(es, es[i].key)
    decreases |es|
  {
    var n := |es| - 1;
    if i < n {
      MemberInGroup(es[..n], i);
      assert es[..n][i] == es[i];
    }
  }

  /** The sizes of the groups of `keys`, added up. */
  function GroupSizes(es: seq<Entry>, keys: seq<Key>): nat
  {
    if keys == [] then 0 else GroupSizes(es, keys[..|keys| - 1]) + |GroupOf(es, keys[|keys| - 1])|
  }

  lemma {:induction false} GroupSizesStep(es: seq<Entry>, e: Entry, keys: seq<Key>)
    requires Distinct(keys)
    ensures GroupSizes(es + [e], keys) == GroupSizes(es, keys) + (if e.key in keys then 1 else 0)
    decreases |keys|
  {
    if keys != [] {
      var n := |keys| - 1;
      assert Distinct(keys[..n]);
      GroupSizesStep(es, e, keys[..n]);
      GroupStep(es, e, keys[n]);
      assert e.key in keys <==> e.key in keys[..n] || e.key == keys[n] by {
        assert keys == keys[..n] + [keys[n]];
      }
      if e.key == keys[n] {
        assert e.key !in keys[..n];
      }
    }
  }

  lemma GroupSizesSnoc(es: seq<Entry>, keys: seq<Key>, k: Key)
    ensures GroupSizes(es, keys + [k]) == GroupSizes(es, keys) + |GroupOf(es, k)|
  {
    assert (keys + [k])[..|keys|] == keys;
  }

  /** The groups partition the entries: their sizes add up to the number of accounts. */
  lemma {:induction false} GroupsCoverAll(es: seq<Entry>)
    ensures GroupSizes(es, FirstKeys(es)) == |es|
    decreases |es|
  {
    if es != [] {
      var n := |es| - 1;
      var pre := es[..n];
      var e := es[n];
      assert es == pre + [e];
      GroupsCoverAll(pre);
      FirstKeysDistinct(pre);
      FirstKeysStep(pre, e);
      GroupSizesStep(pre, e, FirstKeys(pre));
      if e.key !in FirstKeys(pre) {
        GroupSizesSnoc(es, FirstKeys(pre), e.key);
        GroupStep(pre, e, e.key);
        GroupNonEmpty(pre, e.key);
      }
    }
  }

  /** A cluster while `cluster_accounts` is still filling it. */
  datatype Bucket = Bucket(platform: string, handle: Option<string>, key: string, accounts: seq<Member>)

  /** The bucket of key `k`: platform and key from `k`, handle from the
      first member filed under it. */
  function BucketOf(es: seq<Entry>, k: Key): Bucket
    requires GroupOf(es, k) != []
  {
    var first := GroupOf(es, k)[0];
    Bucket(k.platform, if first.handle != "" then Some(first.handle) else None, k.id, GroupOf(es, k))
  }

  /** A finished cluster. */
  datatype Cluster = Cluster(
    platform: string,
    handle: Option<string>,
    key: string,
    accounts: seq<Member>,
    confidence: int,
    signals: seq<string>,
    urls: seq<string>)

  /** `[score_account(target, a) for a in accounts]`. */
  function Scores(target: string, ms: seq<Member>): seq<int>
  {
    MapSeq(ScoreFor(target), ms)
  }

  function ScoreFor(target: string): Member -> int
  {
    m => Score(target, m)
  }

  /** `max(xs) if xs else 0`. */
  function MaxOrZero(xs: seq<int>): int
  {
    if xs == [] then 0
    else if |xs| == 1 then xs[0]
    else
      var best := MaxOrZero(xs[..|xs| - 1]);
      if xs[|xs| - 1] > best then xs[|xs| - 1] else best
  }

  /** The maximum is an element and no element exceeds it. */
  lemma {:induction false} MaxOrZeroSpec(xs: seq<int>)
    requires xs != []
    ensures MaxOrZero(xs) in xs
    ensures forall i :: 0 <= i < |xs| ==> xs[i] <= MaxOrZero(xs)
    decreases |xs|
  {
    var n := |xs| - 1;
    if n > 0 {
      MaxOrZeroSpec(xs[..n]);
      assert forall i :: 0 <= i < n ==> xs[..n][i] == xs[i];
      assert MaxOrZero(xs[..n]) in xs by {
        assert forall x :: x in xs[..n] ==> x in xs;
      }
    }
  }

  /** The distinct non-empty module names over all members' signals. */
  function MemberModules(ms: seq<Member>): set<string>
  {
    set i, j | 0 <= i < |ms| && 0 <= j < |ms[i].signals| && ms[i].signals[j].moduleName != "" :: ms[i].signals[j].moduleName
  }

  /** The distinct non-empty URLs of the members. */
  function MemberUrls(ms: seq<Member>): set<string>
  {
    set i | 0 <= i < |ms| && ms[i].url != "" :: ms[i].url
  }

  /** A bucket with its confidence and explanation fields filled in. */
  function Finish(target: string, b: Bucket): Cluster
  {
    Cluster(b.platform, b.handle, b.key, b.accounts, MaxOrZero(Scores(target, b.accounts)),
            SortedSet(MemberModules(b.accounts)), SortedSet(MemberUrls(b.accounts)))
  }

  function Finisher(target: string): Bucket -> Cluster
  {
    b => Finish(target, b)
  }

  predicate AllGrouped(es: seq<Entry>, keys: seq<Key>)
  {
    forall j :: 0 <= j < |keys| ==> GroupOf(es, keys[j]) != []
  }

  /** The buckets of the given keys, in order. */
  function BucketsFor(es: seq<Entry>, keys: seq<Key>): (bs: seq<Bucket>)
    requires AllGrouped(es, keys)
    ensures |bs| == |keys|
  {
    if keys == [] then []
    else
      var n := |keys| - 1;
      assert AllGrouped(es, keys[..n]) by {
        assert forall j :: 0 <= j < n ==> keys[..n][j] == keys[j];
      }
      BucketsFor(es, keys[..n]) + [BucketOf(es, keys[n])]
  }

  lemma {:induction false} BucketsForAt(es: seq<Entry>, keys: seq<Key>, j: nat)
    requires AllGrouped(es, keys) && j < |keys|
    ensures BucketsFor(es, keys)[j] == BucketOf(es, keys[j])
    decreases |keys|
  {
    var n := |keys| - 1;
    if j < n {
      assert forall i :: 0 <= i < n ==> keys[..n][i] == keys[i];
      BucketsForAt(es, keys[..n], j);
    }
  }

  lemma FirstKeysGrouped(es: seq<Entry>)
    ensures AllGrouped(es, FirstKeys(es))
  {
    var keys := FirstKeys(es);
    forall j | 0 <= j < |keys|
      ensures GroupOf(es, keys[j]) != []
    {
      GroupNonEmpty(es, keys[j]);
    }
  }

  /** The clusters in the order their keys first occur, before sorting. */
  function Built(target: string, accounts: seq<Account>): (cs: seq<Cluster>)
  {
    var es := Entries(accounts);
    FirstKeysGrouped(es);
    MapSeq(Finisher(target), BucketsFor(es, FirstKeys(es)))
  }

  // =====================================================================
  // What the built clusters satisfy

  lemma BuiltAt(target: string, accounts: seq<Account>, j: nat)
    requires j < |FirstKeys(Entries(accounts))|
    ensures var es := Entries(accounts); var k := FirstKeys(es)[j];
      && |Built(target, accounts)| == |FirstKeys(es)|
      && GroupOf(es, k) != []
      && Built(target, accounts)[j] == Finish(target, BucketOf(es, k))
  {
    var es := Entries(accounts);
    FirstKeysGrouped(es);
    var bs := BucketsFor(es, FirstKeys(es));
    MapSeqAt(Finisher(target), bs, j);
    BucketsForAt(es, FirstKeys(es), j);
  }

  lemma BuiltSize(target: string, accounts: seq<Account>)
    ensures |Built(target, accounts)| == |FirstKeys(Entries(accounts))|
  {
  }

  /** The key of a cluster: its platform and its `key` field. */
  function ClusterKey(c: Cluster): Key
  {
    Key(c.platform, c.key)
  }

  /** No two clusters share a key. */
  lemma ClusterKeysDistinct(target: string, accounts: seq<Account>)
    ensures var cs := Built(target, accounts);
      forall i, j :: 0 <= i < j < |cs| ==> ClusterKey(cs[i]) != ClusterKey(cs[j])
  {
    var cs := Built(target, accounts);
    var keys := FirstKeys(Entries(accounts));
    FirstKeysDistinct(Entries(accounts));
    BuiltSize(target, accounts);
    forall i, j | 0 <= i < j < |cs|
      ensures ClusterKey(cs[i]) != ClusterKey(cs[j])
    {
      BuiltAt(target, accounts, i);
      BuiltAt(target, accounts, j);
      assert ClusterKey(cs[i]) == keys[i];
      assert ClusterKey(cs[j]) == keys[j];
    }
  }

  /** Every member of a cluster is the annotation of some input account
      whose key is the cluster's key. */
  lemma ClusterMembersBelong(target: string, accounts: seq<Account>, j: nat, t: nat)
    requires j < |Built(target, accounts)| && t < |Built(target, accounts)[j].accounts|
    ensures var c := Built(target, accounts)[j];
      exists i :: 0 <= i < |accounts| && EntryOf(accounts[i]) == Entry(c.accounts[t], ClusterKey(c))
  {
    var es := Entries(accounts);
    var k := FirstKeys(es)[j];
    BuiltSize(target, accounts);
    BuiltAt(target, accounts, j);
    GroupSound(es, k, t);
    var i :| 0 <= i < |es| && es[i] == Entry(GroupOf(es, k)[t], k);
    MapSeqAt(EntryOf, accounts, i);
  }

  /** Every input account, annotated, lies in the cluster of its key. */
  lemma AccountPlaced(target: string, accounts: seq<Account>, i: nat)
    requires i < |accounts|
    ensures var cs := Built(target, accounts); var e := EntryOf(accounts[i]);
      exists j :: 0 <= j < |cs| && ClusterKey(cs[j]) == e.key && e.member in cs[j].accounts
  {
    var es := Entries(accounts);
    var keys := FirstKeys(es);
    MapSeqAt(EntryOf, accounts, i);
    var e := es[i];
    MemberInGroup(es, i);
    FirstKeysSpec(es, e.key);
    var j :| 0 <= j < |keys| && keys[j] == e.key;
    BuiltAt(target, accounts, j);
  }

  /** The number of accounts over all clusters. */
  function TotalMembers(cs: seq<Cluster>): nat
  {
    if cs == [] then 0 else TotalMembers(cs[..|cs| - 1]) + |cs[|cs| - 1].accounts|
  }

  lemma {:induction false} TotalOfBuckets(target: string, es: seq<Entry>, keys: seq<Key>)
    requires AllGrouped(es, keys)
    ensures TotalMembers(MapSeq(Finisher(target), BucketsFor(es, keys))) == GroupSizes(es, keys)
    decreases |keys|
  {
    if keys != [] {
      var n := |keys| - 1;
      var f := Finisher(target);
      assert AllGrouped(es, keys[..n]) by {
        assert forall j :: 0 <= j < n ==> keys[..n][j] == keys[j];
      }
      TotalOfBuckets(target, es, keys[..n]);
      var bs := BucketsFor(es, keys);
      assert bs[..n] == BucketsFor(es, keys[..n]);
      assert MapSeq(f, bs)[..n] == MapSeq(f, bs[..n]);
    }
  }

  /** The clusters partition the accounts: every account is in the
      cluster of its key, no two clusters share a key, and the cluster
      sizes add up to the number of accounts. */
  lemma ClustersCoverAll(target: string, accounts: seq<Account>)
    ensures TotalMembers(Built(target, accounts)) == |accounts|
  {
    var es := Entries(accounts);
    FirstKeysGrouped(es);
    TotalOfBuckets(target, es, FirstKeys(es));
    GroupsCoverAll(es);
  }

  /** The confidence of a finished bucket is the highest score of its members. */
  lemma FinishConfidence(target: string, b: Bucket)
    requires b.accounts != []
    ensures var conf := Finish(target, b).confidence;
      && (forall t :: 0 <= t < |b.accounts| ==> Score(target, b.accounts[t]) <= conf)
      && (exists t :: 0 <= t < |b.accounts| && Score(target, b.accounts[t]) == conf)
      && 25 <= conf <= 100
  {
    var ss := Scores(target, b.accounts);
    MaxOrZeroSpec(ss);
    forall t | 0 <= t < |b.accounts|
      ensures ss[t] == Score(target, b.accounts[t])
    {
      MapSeqAt(ScoreFor(target), b.accounts, t);
    }
    var t :| 0 <= t < |ss| && ss[t] == MaxOrZero(ss);
  }

  /** A cluster's confidence is the highest score of its members, and
      every cluster has at least one member. */
  lemma ClusterConfidence(target: string, accounts: seq<Account>, j: nat)
    requires j < |Built(target, accounts)|
    ensures var c := Built(target, accounts)[j];
      && c.accounts != []
      && (forall t :: 0 <= t < |c.accounts| ==> Score(target, c.accounts[t]) <= c.confidence)
      && (exists t :: 0 <= t < |c.accounts| && Score(target, c.accounts[t]) == c.confidence)
      && 25 <= c.confidence <= 100
  {
    var es := Entries(accounts);
    BuiltSize(target, accounts);
    BuiltAt(target, accounts, j);
    FinishConfidence(target, BucketOf(es, FirstKeys(es)[j]));
  }

  /** A cluster carries the platform and handle of its first member, and
      its explanation fields list the members' modules and URLs, sorted
      and without repeats. */
  lemma ClusterFields(target: string, accounts: seq<Account>, j: nat)
    requires j < |Built(target, accounts)|
    ensures var c := Built(target, accounts)[j];
      && c.accounts != []
      && c.platform == c.accounts[0].platform
      && c.handle == (if c.accounts[0].handle != "" then Some(c.accounts[0].handle) else None)
      && StrictlySorted(c.signals) && (forall s :: s in c.signals <==> s in MemberModules(c.accounts))
      && StrictlySorted(c.urls) && (forall u :: u in c.urls <==> u in MemberUrls(c.accounts))
  {
    var c := Built(target, accounts)[j];
    BuiltSize(target, accounts);
    BuiltAt(target, accounts, j);
    ClusterMembersBelong(target, accounts, j, 0);
    var i :| 0 <= i < |accounts| && EntryOf(accounts[i]) == Entry(c.accounts[0], ClusterKey(c));
    EntryFields(accounts[i]);
  }

  // =====================================================================
  // Sorting by confidence

  /** Places `c` before the first cluster whose confidence is not above
      its own, so that it stays ahead of the equal ones coming after it. */
  function InsertByConfidence(c: Cluster, sorted: seq<Cluster>): (r: seq<Cluster>)
    ensures |r| == |sorted| + 1
  {
    if sorted == [] || c.confidence >= sorted[0].confidence then [c] + sorted
    else [sorted[0]] + InsertByConfidence(c, sorted[1..])
  }

  /** `out.sort(key=confidence, reverse=True)`: a stable sort, highest confidence first. */
  function SortByConfidence(cs: seq<Cluster>): (r: seq<Cluster>)
    ensures |r| == |cs|
    ensures Descending(r)
    ensures multiset(r) == multiset(cs)
    decreases |cs|
  {
    if cs == [] then []
    else
      var rest := SortByConfidence(cs[1..]);
      InsertDescending(cs[0], rest);
      InsertPermutes(cs[0], rest);
      assert cs == [cs[0]] + cs[1..];
      InsertByConfidence(cs[0], rest)
  }

  predicate Descending(cs: seq<Cluster>)
  {
    forall i, j :: 0 <= i < j < |cs| ==> cs[i].confidence >= cs[j].confidence
  }

  /** The clusters of confidence `v`, in order. */
  function WithConfidence(cs: seq<Cluster>, v: int): seq<Cluster>
  {
    if cs == [] then []
    else (if cs[0].confidence == v then [cs[0]] else []) + WithConfidence(cs[1..], v)
  }

  lemma {:induction false} InsertPermutes(c: Cluster, sorted: seq<Cluster>)
    ensures multiset(InsertByConfidence(c, sorted)) == multiset(sorted) + multiset{c}
    decreases |sorted|
  {
    if sorted != [] && c.confidence < sorted[0].confidence {
      InsertPermutes(c, sorted[1..]);
      assert sorted == [sorted[0]] + sorted[1..];
    }
  }

  lemma {:induction false} InsertDescending(c: Cluster, sorted: seq<Cluster>)
    requires Descending(sorted)
    ensures Descending(InsertByConfidence(c, sorted))
    decreases |sorted|
  {
    if sorted == [] || c.confidence >= sorted[0].confidence {
      DescendingCons(c, sorted);
    } else {
      var rest := InsertByConfidence(c, sorted[1..]);
      DescendingTail(sorted);
      InsertDescending(c, sorted[1..]);
      InsertBelow(c, sorted[1..], sorted[0].confidence);
      DescendingCons(sorted[0], rest);
    }
  }

  lemma DescendingTail(cs: seq<Cluster>)
    requires cs != [] && Descending(cs)
    ensures Descending(cs[1..])
    ensures forall j :: 0 <= j < |cs[1..]| ==> cs[1..][j].confidence <= cs[0].confidence
  {
    assert forall j :: 0 <= j < |cs[1..]| ==> cs[1..][j] == cs[j + 1];
  }

  lemma DescendingCons(x: Cluster, cs: seq<Cluster>)
    requires Descending(cs)
    requires forall j :: 0 <= j < |cs| ==> cs[j].confidence <= x.confidence
    ensures Descending([x] + cs)
  {
    var r := [x] + cs;
    forall i, j | 0 <= i < j < |r|
      ensures r[i].confidence >= r[j].confidence
    {
      assert r[j] == cs[j - 1];
      if i > 0 {
        assert r[i] == cs[i - 1];
      }
    }
  }

  /** Inserting below a bound keeps everything below it. */
  lemma {:induction false} InsertBelow(c: Cluster, sorted: seq<Cluster>, bound: int)
    requires c.confidence <= bound
    requires forall j :: 0 <= j < |sorted| ==> sorted[j].confidence <= bound
    ensures forall j :: 0 <= j < |sorted| + 1 ==> InsertByConfidence(c, sorted)[j].confidence <= bound
    decreases |sorted|
  {
    var r := InsertByConfidence(c, sorted);
    if sorted == [] || c.confidence >= sorted[0].confidence {
      forall j | 0 <= j < |r|
        ensures r[j].confidence <= bound
      {
        if j > 0 {
          assert r[j] == sorted[j - 1];
        }
      }
    } else {
      var rest := InsertByConfidence(c, sorted[1..]);
      assert forall j :: 0 <= j < |sorted[1..]| ==> sorted[1..][j] == sorted[j + 1];
      InsertBelow(c, sorted[1..], bound);
      forall j | 0 <= j < |r|
        ensures r[j].confidence <= bound
      {
        if j > 0 {
          assert r[j] == rest[j - 1];
        }
      }
    }
  }

  lemma WithCons(x: Cluster, s: seq<Cluster>, v: int)
    ensures WithConfidence([x] + s, v) == (if x.confidence == v then [x] else []) + WithConfidence(s, v)
  {
    assert ([x] + s)[0] == x && ([x] + s)[1..] == s;
  }

  lemma {:induction false} InsertStable(c: Cluster, sorted: seq<Cluster>, v: int)
    ensures WithConfidence(InsertByConfidence(c, sorted), v)
      == (if c.confidence == v then [c] else []) + WithConfidence(sorted, v)
    decreases |sorted|
  {
    if sorted != [] && c.confidence < sorted[0].confidence {
      var x := sorted[0];
      var rest := InsertByConfidence(c, sorted[1..]);
      InsertStable(c, sorted[1..], v);
      assert InsertByConfidence(c, sorted) == [x] + rest;
      WithCons(x, rest, v);
      WithCons(x, sorted[1..], v);
      assert sorted == [x] + sorted[1..];
      var w := WithConfidence(sorted[1..], v);
      if c.confidence == v {
        assert x.confidence != v;
        assert WithConfidence(InsertByConfidence(c, sorted), v) == [] + ([c] + w);
      } else {
        assert WithConfidence(InsertByConfidence(c, sorted), v) == (if x.confidence == v then [x] else []) + ([] + w);
      }
    } else {
      WithCons(c, sorted, v);
    }
  }

  /** The sort is stable: clusters of equal confidence keep their order. */
  lemma {:induction false} SortStable(cs: seq<Cluster>, v: int)
    ensures WithConfidence(SortByConfidence(cs), v) == WithConfidence(cs, v)
    decreases |cs|
  {
    if cs != [] {
      SortStable(cs[1..], v);
      InsertStable(cs[0], SortByConfidence(cs[1..]), v);
    }
  }

  // =====================================================================
  // cluster_accounts

  /** Filing one more entry: the bucket of its key gains the member
      (created, named after it, when the key is new); every other bucket
      is unchanged. */
  lemma FileEntry(es: seq<Entry>, e: Entry, buckets: map<Key, Bucket>)
    requires forall k :: k in buckets <==> k in FirstKeys(es)
    requires forall k :: k in buckets ==> GroupOf(es, k) != [] && buckets[k] == BucketOf(es, k)
    ensures var c := if e.key in buckets then buckets[e.key]
                     else Bucket(e.key.platform, if e.member.handle != "" then Some(e.member.handle) else None, e.key.id, []);
      var filed := buckets[e.key := c.(accounts := c.accounts + [e.member])];
      forall k :: k in filed ==> GroupOf(es + [e], k) != [] && filed[k] == BucketOf(es + [e], k)
  {
    var c := if e.key in buckets then buckets[e.key]
             else Bucket(e.key.platform, if e.member.handle != "" then Some(e.member.handle) else None, e.key.id, []);
    var filed := buckets[e.key := c.(accounts := c.accounts + [e.member])];
    forall k | k in filed
      ensures GroupOf(es + [e], k) != [] && filed[k] == BucketOf(es + [e], k)
    {
      GroupStep(es, e, k);
      if k == e.key && e.key !in buckets {
        GroupNonEmpty(es, k);
      }
    }
  }

  lemma AllGroupedPrefix(es: seq<Entry>, keys: seq<Key>, j: nat)
    requires AllGrouped(es, keys) && j <= |keys|
    ensures AllGrouped(es, keys[..j])
  {
    assert forall i :: 0 <= i < j ==> keys[..j][i] == keys[i];
  }

  /** The first loop of `cluster_accounts`: each account, annotated, is
      appended to the bucket of its key, which is created (named after
      that account) the first time the key is seen. `keys` lists the
      dict's keys in insertion order. */
  method FileAccounts(accounts: seq<Account>) returns (keys: seq<Key>, buckets: map<Key, Bucket>)
    ensures keys == FirstKeys(Entries(accounts))
    ensures forall k :: k in buckets <==> k in keys
    ensures forall k :: k in buckets ==> GroupOf(Entries(accounts), k) != [] && buckets[k] == BucketOf(Entries(accounts), k)
  {
    keys := [];
    buckets := map[];
    for i := 0 to |accounts|
      invariant keys == FirstKeys(Entries(accounts[..i]))
      invariant forall k :: k in buckets <==> k in keys
      invariant forall k :: k in buckets ==> GroupOf(Entries(accounts[..i]), k) != [] && buckets[k] == BucketOf(Entries(accounts[..i]), k)
    {
      MapSeqStep(EntryOf, accounts, i);
      keys, buckets := FileAccount(Entries(accounts[..i]), accounts[i], keys, buckets);
    }
    assert accounts[..|accounts|] == accounts;
  }

  /** The body of the first loop: the account with its guessed platform
      and handle goes to the end of the bucket of its key. */
  method FileAccount(ghost es: seq<Entry>, acc: Account, keysIn: seq<Key>, bucketsIn: map<Key, Bucket>)
    returns (keys: seq<Key>, buckets: map<Key, Bucket>)
    requires keysIn == FirstKeys(es)
    requires forall k :: k in bucketsIn <==> k in keysIn
    requires forall k :: k in bucketsIn ==> GroupOf(es, k) != [] && bucketsIn[k] == BucketOf(es, k)
    ensures keys == FirstKeys(es + [EntryOf(acc)])
    ensures forall k :: k in buckets <==> k in keys
    ensures forall k :: k in buckets ==> GroupOf(es + [EntryOf(acc)], k) != [] && buckets[k] == BucketOf(es + [EntryOf(acc)], k)
  {
    var url := acc.url;
    var plat := PlatformGuess(url, acc.platform);
    var handle := ExtractHandle(plat, url).GetOr("");
    var acc2 := Member(plat, url, acc.username, acc.kind, acc.signals, handle);
    var key := Key(plat, if handle != "" then NormalizedHandle(handle) else Host(url));

    assert Entry(acc2, key) == EntryOf(acc);
    FirstKeysStep(es, Entry(acc2, key));
    FileEntry(es, Entry(acc2, key), bucketsIn);

    keys := keysIn;
    var c: Bucket;
    if key in bucketsIn {
      c := bucketsIn[key];
    } else {
      c := Bucket(plat, if handle != "" then Some(handle) else None, key.id, []);
      keys := keys + [key];
    }
    c := c.(accounts := c.accounts + [acc2]);
    buckets := bucketsIn[key := c];
  }

  /** `[score_account(target, a) for a in members]`. */
  method MemberScores(target: string, ms: seq<Member>) returns (scores: seq<int>)
    ensures scores == Scores(target, ms)
  {
    scores := [];
    for t := 0 to |ms|
      invariant scores == Scores(target, ms[..t])
    {
      var s := ScoreAccount(target, ms[t]);
      MapSeqStep(ScoreFor(target), ms, t);
      scores := scores + [s];
    }
    assert ms[..|ms|] == ms;
  }

  /** The body of the second loop of `cluster_accounts`: the confidence
      is the highest member score (0 for no members), and the signals and
      URLs are the members' distinct non-empty modules and URLs, sorted. */
  method FinishBucket(target: string, b: Bucket) returns (c: Cluster)
    ensures c == Finish(target, b)
  {
    var memberScores := MemberScores(target, b.accounts);
    var confidence := MaxOrZero(memberScores);
    var signals := SortedSet(MemberModules(b.accounts));
    var urls := SortedSet(MemberUrls(b.accounts));
    c := Cluster(b.platform, b.handle, b.key, b.accounts, confidence, signals, urls);
  }

  lemma FinishStep(target: string, es: seq<Entry>, keys: seq<Key>, j: nat)
    requires AllGrouped(es, keys) && j < |keys|
    ensures AllGrouped(es, keys[..j]) && AllGrouped(es, keys[..j + 1])
    ensures MapSeq(Finisher(target), BucketsFor(es, keys[..j + 1]))
      == MapSeq(Finisher(target), BucketsFor(es, keys[..j])) + [Finish(target, BucketOf(es, keys[j]))]
  {
    AllGroupedPrefix(es, keys, j);
    AllGroupedPrefix(es, keys, j + 1);
    assert keys[..j + 1][..j] == keys[..j];
    MapSeqSnoc(Finisher(target), BucketsFor(es, keys[..j]), BucketOf(es, keys[j]));
  }

  /** The second loop of `cluster_accounts`: every bucket, in the order
      its key was first seen, finished. */
  method FinishAll(target: string, accounts: seq<Account>, keys: seq<Key>, buckets: map<Key, Bucket>)
    returns (clusters: seq<Cluster>)
    requires keys == FirstKeys(Entries(accounts))
    requires forall k :: k in keys ==> k in buckets && GroupOf(Entries(accounts), k) != [] && buckets[k] == BucketOf(Entries(accounts), k)
    ensures clusters == Built(target, accounts)
  {
    ghost var es := Entries(accounts);
    FirstKeysGrouped(es);
    clusters := [];
    for j := 0 to |keys|
      invariant AllGrouped(es, keys[..j])
      invariant clusters == MapSeq(Finisher(target), BucketsFor(es, keys[..j]))
    {
      var c := FinishBucket(target, buckets[keys[j]]);
      FinishStep(target, es, keys, j);
      clusters := clusters + [c];
    }
    assert keys[..|keys|] == keys;
  }

  /** `cluster_accounts`: files every account under its key, then
      finishes each bucket, in the order its key first appeared, with the
      highest member score and its sorted modules and URLs, and sorts the
      clusters by descending confidence. */
  method ClusterAccounts(target: string, accounts: seq<Account>) returns (clusters: seq<Cluster>)
    ensures clusters == SortByConfidence(Built(target, accounts))
  {
    var keys, buckets := FileAccounts(accounts);
    clusters := FinishAll(target, accounts, keys, buckets);
    clusters := SortByConfidence(clusters);
  }
}
