/**
 * Event normalisation (project/src/normalize.py): raw scan events become an
 * evidence list, the sorted set of usernames seen, the sorted set of URLs
 * found inside `<SFURL>...</SFURL>` markup, and one account candidate per
 * URL occurrence.
 */
module Normalize {
  import opened Wrappers
  import opened Strings
  import opened Url
  import opened Sfurl
  import opened Platforms
  import opened Seqs

  // =====================================================================
  // Records

  /** One raw scan event; `None` is a missing (or null) key. */
  datatype RawEvent = RawEvent(
    eventType: Option<string>,
    data: Option<string>,
    moduleName: Option<string>,
    source: Option<string>,
    generated: Option<int>,
    ts: Option<int>)

  datatype Evidence = Evidence(eventType: string, value: string, moduleName: string, source: string, ts: int)

  datatype Signal = Signal(fromEvent: string, moduleName: string, source: string)

  datatype Account = Account(
    platform: Option<string>,
    url: string,
    username: Option<string>,
    kind: string,
    signals: seq<Signal>)

  datatype Counts = Counts(rawEvents: nat, evidence: nat, uniqueUsernames: nat, uniqueUrls: nat, accounts: nat)

  datatype Normalized = Normalized(
    target: string,
    counts: Counts,
    usernames: seq<string>,
    urls: seq<string>,
    accounts: seq<Account>,
    evidence: seq<Evidence>)

  /** `_safe_str`: a missing value reads as the empty string. */
  function SafeStr(x: Option<string>): (r: string)
    ensures x.Some? ==> r == x.value
    ensures x.None? ==> r == ""
  {
    x.GetOr("")
  }

  /** `ev.get("generated") or ev.get("ts") or 0`: a nonzero `generated`
      wins, else a nonzero `ts`, and the result is 0 only when neither is
      present and nonzero. */
  function Timestamp(ev: RawEvent): (r: int)
    ensures r == 0 <==> (ev.generated.None? || ev.generated.value == 0) && (ev.ts.None? || ev.ts.value == 0)
    ensures ev.generated.Some? && ev.generated.value != 0 ==> r == ev.generated.value
    ensures (ev.generated.None? || ev.generated.value == 0) ==> r == ev.ts.GetOr(0)
  {
    if ev.generated.Some? && ev.generated.value != 0 then ev.generated.value
    else if ev.ts.Some? && ev.ts.value != 0 then ev.ts.value
    else 0
  }

  // =====================================================================
  // Accounts

  /** The handle an account is built from: the rule table's, else the guess. */
  function ChosenHandle(u: string, target: string): (h: Option<string>)
    ensures h.Some? ==> h.value != "" && '/' !in h.value
    ensures ParsePlatformAndUsername(u).1.Some? ==> h == ParsePlatformAndUsername(u).1
    ensures ParsePlatformAndUsername(u).1.None? ==> h == GuessHandleFromUrl(u, target)
  {
    var u2 := ParsePlatformAndUsername(u).1;
    if u2.Some? && u2.value != "" then u2 else GuessHandleFromUrl(u, target)
  }

  /** The account record for one URL occurrence found in event `ev`. */
  function MakeAccount(u: string, ev: RawEvent, target: string): (a: Account)
    ensures a.url == u && a.kind == "url"
    ensures a.signals == [Signal(SafeStr(ev.eventType), SafeStr(ev.moduleName), SafeStr(ev.source))]
    ensures a.platform.Some? ==> a.platform.value != "" && a.platform.value != "unknown"
    ensures DomainPlatform(RuleHost(u)).Some? ==> a.platform == NameOf(DomainPlatform(RuleHost(u)))
    ensures DomainPlatform(RuleHost(u)).None? ==> a.platform == NameOf(DomainPlatform(PortlessHost(u)))
    ensures target == "" ==> a.username == ChosenHandle(u, target)
    ensures var h := ChosenHandle(u, target);
      h.Some? && Lower(h.value) != Lower(target) ==> a.username == h
    ensures var h := ChosenHandle(u, target);
      target != "" && (h.None? || Lower(h.value) == Lower(target)) ==> a.username == Some(target)
  {
    var platform0 := PlatformFromUrl(u);
    var handle0 := GuessHandleFromUrl(u, target);
    var (p2, u2) := ParsePlatformAndUsername(u);
    // prefer the rule table, then the plain host lookup
    var platform := if p2.Some? && p2.value != "" then p2
                    else if platform0 == "unknown" then None else Some(platform0);
    var handle := if u2.Some? && u2.value != "" then u2 else handle0;
    var username :=
      if handle.Some? && handle.value != "" && Lower(handle.value) != Lower(target) then handle
      else if target != "" then Some(target)
      else handle;
    Account(
      if platform == Some("unknown") then None else platform,
      u,
      username,
      "url",
      [Signal(SafeStr(ev.eventType), SafeStr(ev.moduleName), SafeStr(ev.source))])
  }

  // =====================================================================
  // What normalisation produces, as functions of the event prefix read so far

  function EvidenceOf(ev: RawEvent): Evidence
  {
    Evidence(SafeStr(ev.eventType), SafeStr(ev.data), SafeStr(ev.moduleName), SafeStr(ev.source), Timestamp(ev))
  }

  /** One evidence record per event, in order. */
  function EvidenceList(evs: seq<RawEvent>): (r: seq<Evidence>)
    ensures |r| == |evs|
    ensures forall i :: 0 <= i < |evs| ==> r[i] == EvidenceOf(evs[i])
  {
    if evs == [] then [] else EvidenceList(evs[..|evs| - 1]) + [EvidenceOf(evs[|evs| - 1])]
  }

  predicate IsUsernameEvent(ev: RawEvent)
  {
    Lower(SafeStr(ev.eventType)) == "username" && SafeStr(ev.data) != ""
  }

  function Usernames(evs: seq<RawEvent>): set<string>
  {
    if evs == [] then {}
    else
      var ev := evs[|evs| - 1];
      Usernames(evs[..|evs| - 1]) + (if IsUsernameEvent(ev) then {SafeStr(ev.data)} else {})
  }

  function UrlsOf(ev: RawEvent): seq<string>
  {
    ExtractSfurls(SafeStr(ev.data))
  }

  function Urls(evs: seq<RawEvent>): set<string>
  {
    UnionOf(UrlsOf, evs)
  }

  /** `MakeAccount` for the URLs of event `ev`. */
  function AccountOf(ev: RawEvent, target: string): string -> Account
  {
    u => MakeAccount(u, ev, target)
  }

  /** One account per URL occurrence of one event, in order. */
  function AccountsFor(urls: seq<string>, ev: RawEvent, target: string): seq<Account>
  {
    MapSeq(AccountOf(ev, target), urls)
  }

  function Accounts(evs: seq<RawEvent>, target: string): seq<Account>
  {
    if evs == [] then []
    else Accounts(evs[..|evs| - 1], target) + AccountsFor(UrlsOf(evs[|evs| - 1]), evs[|evs| - 1], target)
  }

  /** The number of URL occurrences over all events. */
  function UrlOccurrences(evs: seq<RawEvent>): nat
  {
    if evs == [] then 0 else UrlOccurrences(evs[..|evs| - 1]) + |UrlsOf(evs[|evs| - 1])|
  }

  // =====================================================================
  // normalize_events

  method NormalizeEvents(events: seq<RawEvent>, target: string) returns (out: Normalized)
    ensures out.target == target
    ensures out.evidence == EvidenceList(events)
    ensures out.usernames == SortedSet(Usernames(events))
    ensures out.urls == SortedSet(Urls(events))
    ensures out.accounts == Accounts(events, target)
    ensures out.counts == Counts(|events|, |out.evidence|, |out.usernames|, |out.urls|, |out.accounts|)
  {
    var evidence, usernamesSet, urlsSet, accounts := ReadEvents(events, target);
    var usernames := SortedSet(usernamesSet);
    var urlList := SortedSet(urlsSet);
    out := Normalized(
      target,
      Counts(|events|, |evidence|, |usernames|, |urlList|, |accounts|),
      usernames, urlList, accounts, evidence);
  }

  /** The outer loop of `normalize_events`: one evidence record per
      event, the usernames and URLs seen so far, and the account
      candidates in the order their URLs are found. */
  method ReadEvents(events: seq<RawEvent>, target: string)
    returns (evidence: seq<Evidence>, usernamesSet: set<string>, urlsSet: set<string>, accounts: seq<Account>)
    ensures evidence == EvidenceList(events)
    ensures usernamesSet == Usernames(events)
    ensures urlsSet == Urls(events)
    ensures accounts == Accounts(events, target)
  {
    evidence, usernamesSet, urlsSet, accounts := [], {}, {}, [];
    for i := 0 to |events|
      invariant evidence == EvidenceList(events[..i])
      invariant usernamesSet == Usernames(events[..i])
      invariant urlsSet == Urls(events[..i])
      invariant accounts == Accounts(events[..i], target)
    {
      EventStep(events, i, target);
      evidence, usernamesSet, urlsSet, accounts := ReadEvent(events[i], target, evidence, usernamesSet, urlsSet, accounts);
    }
    assert events[..|events|] == events;
  }

  /** The body of the outer loop: what one event adds to each result. */
  method ReadEvent(ev: RawEvent, target: string,
                   evidenceIn: seq<Evidence>, usernamesIn: set<string>, urlsIn: set<string>, accountsIn: seq<Account>)
    returns (evidence: seq<Evidence>, usernamesSet: set<string>, urlsSet: set<string>, accounts: seq<Account>)
    ensures evidence == evidenceIn + [EvidenceOf(ev)]
    ensures usernamesSet == usernamesIn + (if IsUsernameEvent(ev) then {SafeStr(ev.data)} else {})
    ensures urlsSet == urlsIn + Elements(UrlsOf(ev))
    ensures accounts == accountsIn + AccountsFor(UrlsOf(ev), ev, target)
  {
    var evType := SafeStr(ev.eventType);
    var data := SafeStr(ev.data);
    var moduleName := SafeStr(ev.moduleName);
    var source := SafeStr(ev.source);
    var ts := Timestamp(ev);

    evidence := evidenceIn + [Evidence(evType, data, moduleName, source, ts)];

    usernamesSet := usernamesIn;
    if Lower(evType) == "username" {
      if data != "" {
        usernamesSet := usernamesSet + {data};
      }
    }

    urlsSet, accounts := AddUrls(ExtractSfurls(data), ev, target, urlsIn, accountsIn);
  }

  /** The inner loop of `normalize_events`: each URL found in one event
      joins the URL set and yields one account candidate. */
  method AddUrls(urls: seq<string>, ev: RawEvent, target: string, urlsIn: set<string>, accountsIn: seq<Account>)
    returns (urlsOut: set<string>, accountsOut: seq<Account>)
    ensures urlsOut == urlsIn + Elements(urls)
    ensures accountsOut == accountsIn + AccountsFor(urls, ev, target)
  {
    urlsOut, accountsOut := urlsIn, accountsIn;
    for j := 0 to |urls|
      invariant urlsOut == urlsIn + Elements(urls[..j])
      invariant accountsOut == accountsIn + AccountsFor(urls[..j], ev, target)
    {
      var u := urls[j];
      var account := MakeAccount(u, ev, target);
      UrlStep(urls, j, ev, target);
      AppendAssoc(accountsIn, AccountsFor(urls[..j], ev, target), [account]);
      urlsOut := urlsOut + {u};
      accountsOut := accountsOut + [account];
    }
    assert urls[..|urls|] == urls;
  }

  lemma AppendAssoc(a: seq<Account>, b: seq<Account>, c: seq<Account>)
    ensures (a + b) + c == a + (b + c)
  {
  }

  /** What reading event `i` adds to each running result. */
  lemma EventStep(events: seq<RawEvent>, i: nat, target: string)
    requires i < |events|
    ensures EvidenceList(events[..i + 1]) == EvidenceList(events[..i]) + [EvidenceOf(events[i])]
    ensures Usernames(events[..i + 1]) ==
      Usernames(events[..i]) + (if IsUsernameEvent(events[i]) then {SafeStr(events[i].data)} else {})
    ensures Urls(events[..i + 1]) == Urls(events[..i]) + Elements(UrlsOf(events[i]))
    ensures Accounts(events[..i + 1], target) ==
      Accounts(events[..i], target) + AccountsFor(UrlsOf(events[i]), events[i], target)
  {
    assert events[..i + 1][..i] == events[..i];
  }

  /** What reading URL `j` of an event adds to the URL set and the account list. */
  lemma UrlStep(urls: seq<string>, j: nat, ev: RawEvent, target: string)
    requires j < |urls|
    ensures Elements(urls[..j + 1]) == Elements(urls[..j]) + {urls[j]}
    ensures AccountsFor(urls[..j + 1], ev, target) == AccountsFor(urls[..j], ev, target) + [MakeAccount(urls[j], ev, target)]
  {
    ElementsStep(urls, j);
    MapSeqStep(AccountOf(ev, target), urls, j);
  }

  lemma ElementsStep(urls: seq<string>, j: nat)
    requires j < |urls|
    ensures Elements(urls[..j + 1]) == Elements(urls[..j]) + {urls[j]}
  {
    assert urls[..j + 1] == urls[..j] + [urls[j]];
  }

  // =====================================================================
  // What the results mean

  /** A name is collected exactly when some event typed `username` (in
      any case) carries it as non-empty data. */
  lemma {:induction false} UsernamesSpec(evs: seq<RawEvent>, name: string)
    ensures name in Usernames(evs) <==>
      exists i :: 0 <= i < |evs| && IsUsernameEvent(evs[i]) && SafeStr(evs[i].data) == name
    decreases |evs|
  {
    if evs != [] {
      var n := |evs| - 1;
      var init := evs[..n];
      UsernamesSpec(init, name);
      if name in Usernames(evs) && name in Usernames(init) {
        var i :| 0 <= i < |init| && IsUsernameEvent(init[i]) && SafeStr(init[i].data) == name;
        assert evs[i] == init[i];
      }
      if exists i :: 0 <= i < |evs| && IsUsernameEvent(evs[i]) && SafeStr(evs[i].data) == name {
        var i :| 0 <= i < |evs| && IsUsernameEvent(evs[i]) && SafeStr(evs[i].data) == name;
        if i < n {
          assert init[i] == evs[i];
        }
      }
    }
  }

  /** A URL is collected exactly when the markup of some event holds it. */
  lemma UrlsSpec(evs: seq<RawEvent>, url: string)
    ensures url in Urls(evs) <==> exists i :: 0 <= i < |evs| && url in UrlsOf(evs[i])
  {
    if url in Urls(evs) {
      UnionOfSound(UrlsOf, evs, url);
    }
    if exists i :: 0 <= i < |evs| && url in UrlsOf(evs[i]) {
      var i :| 0 <= i < |evs| && url in UrlsOf(evs[i]);
      UnionOfComplete(UrlsOf, evs, url, i);
    }
  }

  /** The accounts of one event are one per URL occurrence, in order. */
  lemma AccountsForSpec(urls: seq<string>, ev: RawEvent, target: string, j: nat)
    requires j < |urls|
    ensures |AccountsFor(urls, ev, target)| == |urls|
    ensures AccountsFor(urls, ev, target)[j] == MakeAccount(urls[j], ev, target)
  {
    MapSeqAt(AccountOf(ev, target), urls, j);
  }

  /** There is one account per URL occurrence (repeats included), not one per distinct URL. */
  lemma {:induction false} AccountCount(evs: seq<RawEvent>, target: string)
    ensures |Accounts(evs, target)| == UrlOccurrences(evs)
    decreases |evs|
  {
    if evs != [] {
      AccountCount(evs[..|evs| - 1], target);
    }
  }

  /** Every account is a `url` account with one signal, for a URL in the URL list. */
  lemma {:induction false} AccountsShape(evs: seq<RawEvent>, target: string, k: nat)
    requires k < |Accounts(evs, target)|
    ensures Accounts(evs, target)[k].kind == "url"
    ensures |Accounts(evs, target)[k].signals| == 1
    ensures Accounts(evs, target)[k].url in Urls(evs)
    decreases |evs|
  {
    var n := |evs| - 1;
    var before := Accounts(evs[..n], target);
    if k < |before| {
      AccountsShape(evs[..n], target, k);
    } else {
      var urls := UrlsOf(evs[n]);
      AccountsForSpec(urls, evs[n], target, k - |before|);
      assert urls[k - |before|] in Elements(urls);
    }
  }
}
