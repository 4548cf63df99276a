/**
 * Target inference of the normalisation entry point
 * (project/src/normalize_run.py): the scan target is the input's own
 * `target` field, else the `<target>` of a file named
 * `spiderfoot_<target>_<digits>.json`, else a name taken from the
 * events, else `unknown`.
 */
module NormalizeRun {
  import opened Wrappers
  import opened Strings
  import opened Normalize

  // =====================================================================
  // _infer_target_from_filename

  /** `os.path.basename` on a POSIX path: the text after the last `/`. */
  function Basename(path: string): (b: string)
    ensures '/' !in b
    ensures EndsWith(path, b)
    ensures |b| < |path| ==> path[|path| - |b| - 1] == '/'
  {
    match LastIndexOf(path, '/')
    case None => path
    case Some(k) => path[k + 1..]
  }

  /** `rfind` finds `k` when `c` is at `k` and nowhere after it. */
  lemma {:induction false} LastIndexOfAt(s: string, c: char, k: nat)
    requires k < |s| && s[k] == c && c !in s[k + 1..]
    ensures LastIndexOf(s, c) == Some(k)
    decreases |s|
  {
    var n := |s| - 1;
    if k < n {
      assert s[n] in s[k + 1..];
      assert s[..n][k + 1..] == s[k + 1..n];
      assert s[k + 1..] == s[k + 1..n] + [s[n]];
      LastIndexOfAt(s[..n], c, k);
    }
  }

  /** The base name of `dir/name` is `name`. */
  lemma BasenameOf(dir: string, name: string)
    requires '/' !in name
    ensures Basename(dir + "/" + name) == name
  {
    var p := dir + "/" + name;
    assert p[|dir|] == '/';
    assert p[|dir| + 1..] == name;
    LastIndexOfAt(p, '/', |dir|);
  }

  const PREFIX: string := "spiderfoot_"

  predicate AllDigits(s: string)
  {
    s != [] && forall i :: 0 <= i < |s| ==> IsDigit(s[i])
  }

  /** What a `$` anchor has to reach: the string less one final newline. */
  function Anchored(s: string): (core: string)
    ensures core == s || (s == core + "\n")
  {
    if s != [] && s[|s| - 1] == '\n' then s[..|s| - 1] else s
  }

  predicate NoNewline(s: string)
  {
    forall i :: 0 <= i < |s| ==> s[i] != '\n'
  }

  /** `_`, one or more digits, then `.json`. */
  predicate IsJsonTail(core: string)
  {
    && |core| >= 7 && core[0] == '_'
    && (forall i :: 1 <= i < |core| - 5 ==> IsDigit(core[i]))
    && core[|core| - 5] == '.' && core[|core| - 4] == 'j' && core[|core| - 3] == 's'
    && core[|core| - 2] == 'o' && core[|core| - 1] == 'n'
  }

  /** `_\d+\.json$` matches the whole of `s`. */
  predicate TailMatches(s: string)
  {
    IsJsonTail(Anchored(s))
  }

  /** The tail can match at one position at most: the `_` of a later
      match would lie among the digits of an earlier one. */
  lemma TailUnique(s: string, n: nat, m: nat)
    requires n < m <= |s|
    requires TailMatches(s[m..])
    ensures !TailMatches(s[n..])
  {
    var a := s[n..];
    var b := s[m..];
    var ca := Anchored(a);
    var cb := Anchored(b);
    assert b == a[m - n..];
    assert cb == ca[m - n..] by {
      if b[|b| - 1] == '\n' {
        assert a[|a| - 1] == '\n';
      } else {
        assert a[|a| - 1] != '\n';
      }
    }
    assert ca[m - n] == '_';
  }

  /** Every later start `k < m` fails once the tail matches at `m`. */
  lemma TailOnce(rest: string, m: nat)
    requires m <= |rest| && TailMatches(rest[m..])
    ensures forall k :: 0 <= k < m ==> !TailMatches(rest[k..])
  {
    forall k | 0 <= k < m
      ensures !TailMatches(rest[k..])
    {
      TailUnique(rest, k, m);
    }
  }

  /** `(.+?)` followed by the rest of the pattern, `tail`: the group is
      tried with `n` characters, then with more, and is the first length
      whose remainder satisfies `tail`. `.` does not match a newline, so
      the group cannot grow past one. */
  function LazyGroup(rest: string, n: nat, tail: string -> bool): (r: Option<string>)
    requires 1 <= n <= |rest| + 1
    requires forall i :: 0 <= i < n - 1 ==> rest[i] != '\n'
    ensures r.Some? ==> n <= |r.value| <= |rest| && r.value == rest[..|r.value|]
    ensures r.Some? ==> NoNewline(r.value) && tail(rest[|r.value|..])
    decreases |rest| + 1 - n
  {
    if n > |rest| || rest[n - 1] == '\n' then None
    else if tail(rest[n..]) then Some(rest[..n])
    else LazyGroup(rest, n + 1, tail)
  }

  /** When `rest` is `t` followed by text satisfying `tail`, and no
      shorter group leaves such text, the lazy group is `t`. */
  lemma {:induction false} LazyGroupFinds(rest: string, n: nat, t: string, tail: string -> bool)
    requires 1 <= n <= |t| <= |rest| && rest[..|t|] == t
    requires NoNewline(t) && tail(rest[|t|..])
    requires forall k :: n <= k < |t| ==> !tail(rest[k..])
    ensures forall i :: 0 <= i < n - 1 ==> rest[i] != '\n'
    ensures LazyGroup(rest, n, tail) == Some(t)
    decreases |t| - n
  {
    assert forall i :: 0 <= i < |t| ==> rest[i] == t[i];
    if n < |t| {
      assert rest[n - 1] != '\n';
      LazyGroupFinds(rest, n + 1, t, tail);
    } else {
      assert rest[..n] == t;
    }
  }

  /** The file name is `spiderfoot_`, then `t`, then a tail matching `_\d+\.json$`. */
  predicate NamedFor(base: string, t: string)
  {
    PREFIX + t <= base && TailMatches(base[|PREFIX| + |t|..])
  }

  /** `_infer_target_from_filename`: `re.match(r"spiderfoot_(.+?)_\d+\.json$", base)`. */
  function InferTargetFromFilename(path: string): (r: Option<string>)
    ensures r.Some? ==> r.value != "" && NoNewline(r.value)
  {
    var base := Basename(path);
    if PREFIX <= base then LazyGroup(base[|PREFIX|..], 1, TailMatches) else None
  }

  /** The inferred target is `t` exactly when the base name is
      `spiderfoot_<t><tail>` with `t` non-empty and free of newlines. */
  lemma FilenameSpec(path: string, t: string)
    ensures InferTargetFromFilename(path) == Some(t) <==>
      t != "" && NoNewline(t) && NamedFor(Basename(path), t)
  {
    if InferTargetFromFilename(path) == Some(t) {
      FilenameSound(path, t);
    }
    if t != "" && NoNewline(t) && NamedFor(Basename(path), t) {
      FilenameFound(path, t);
    }
  }

  lemma FilenameSound(path: string, t: string)
    requires InferTargetFromFilename(path) == Some(t)
    ensures t != "" && NoNewline(t) && NamedFor(Basename(path), t)
  {
    SplitAfter(Basename(path), PREFIX, t);
  }

  lemma FilenameFound(path: string, t: string)
    requires t != "" && NoNewline(t) && NamedFor(Basename(path), t)
    ensures InferTargetFromFilename(path) == Some(t)
  {
    var base := Basename(path);
    var rest := base[|PREFIX|..];
    SplitAfter(base, PREFIX, t);
    TailOnce(rest, |t|);
    LazyGroupFinds(rest, 1, t, TailMatches);
  }

  /** `pre + t` opens `s` exactly when `t` opens what follows `pre`, and
      then what follows `pre + t` is what follows `t` there. */
  lemma SplitAfter(s: string, pre: string, t: string)
    requires pre <= s
    ensures var rest := s[|pre|..];
      (pre + t <= s <==> |t| <= |rest| && rest[..|t|] == t)
      && (|t| <= |rest| ==> s[|pre| + |t|..] == rest[|t|..])
  {
    var rest := s[|pre|..];
    if |t| <= |rest| {
      assert s[..|pre| + |t|] == pre + rest[..|t|];
    }
  }

  /** `dir/spiderfoot_<t>_<digits>.json` names the target `t`. */
  lemma FilenameRoundTrip(dir: string, t: string, digits: string)
    requires t != "" && NoNewline(t) && '/' !in t
    requires AllDigits(digits)
    ensures InferTargetFromFilename(dir + "/" + PREFIX + t + "_" + digits + ".json") == Some(t)
  {
    var tail := "_" + digits + ".json";
    var name := PREFIX + t + tail;
    JsonTailOf(digits);
    NameWithoutSlash(t, tail);
    NamedForConcat(t, tail);
    assert dir + "/" + PREFIX + t + "_" + digits + ".json" == dir + "/" + name;
    BasenameOf(dir, name);
    FilenameSpec(dir + "/" + name, t);
  }

  /** `$` also matches just before a final newline, so a name ending in
      `.json` and a newline still names its target. */
  lemma TrailingNewlineAccepted(t: string, digits: string)
    requires t != "" && NoNewline(t) && '/' !in t
    requires AllDigits(digits)
    ensures InferTargetFromFilename(PREFIX + t + "_" + digits + ".json\n") == Some(t)
  {
    var tail := "_" + digits + ".json\n";
    var name := PREFIX + t + tail;
    assert Anchored(tail) == "_" + digits + ".json";
    JsonTailOf(digits);
    NameWithoutSlash(t, tail);
    NamedForConcat(t, tail);
    assert PREFIX + t + "_" + digits + ".json\n" == name;
    FilenameSpec(name, t);
  }

  lemma JsonTailOf(digits: string)
    requires AllDigits(digits)
    ensures TailMatches("_" + digits + ".json")
    ensures '/' !in "_" + digits + ".json" && '/' !in "_" + digits + ".json\n"
  {
    var tail := "_" + digits + ".json";
    assert tail[|tail| - 1] == 'n';
    assert forall i :: 1 <= i < |tail| - 5 ==> tail[i] == digits[i - 1];
  }

  lemma NameWithoutSlash(t: string, tail: string)
    requires '/' !in t && '/' !in tail
    ensures '/' !in PREFIX + t + tail
  {
  }

  lemma NamedForConcat(t: string, tail: string)
    requires TailMatches(tail)
    ensures NamedFor(PREFIX + t + tail, t)
  {
    var name := PREFIX + t + tail;
    assert name[..|PREFIX| + |t|] == PREFIX + t;
    assert name[|PREFIX| + |t|..] == tail;
  }

  // =====================================================================
  // _infer_target_from_events

  /** `v.strip()` when `v` is a string holding more than whitespace. */
  function NonBlank(v: Option<string>): (r: Option<string>)
    ensures r.Some? ==> r.value != "" && Stripped(r.value)
    ensures r.Some? ==> v.Some? && exists i :: CutFrom(v.value, r.value, i)
  {
    if v.Some? && Strip(v.value) != "" then
      StripSpec(v.value);
      Some(Strip(v.value))
    else None
  }

  /** An event of type `username` (any case) whose data is not blank. */
  predicate NamesTarget(ev: RawEvent)
  {
    Lower(SafeStr(ev.eventType)) == "username" && NonBlank(ev.data).Some?
  }

  /** The first loop: the stripped data of the first event naming the target. */
  function FirstUsername(events: seq<RawEvent>): (r: Option<string>)
    ensures r.Some? ==> r.value != "" && Stripped(r.value)
  {
    if events == [] then None
    else if NamesTarget(events[0]) then NonBlank(events[0].data)
    else FirstUsername(events[1..])
  }

  /** The first loop finds nothing exactly when no event names the target. */
  lemma {:induction false} FirstUsernameNone(events: seq<RawEvent>)
    ensures FirstUsername(events).None? <==> forall i :: 0 <= i < |events| ==> !NamesTarget(events[i])
    decreases |events|
  {
    if events != [] {
      FirstUsernameNone(events[1..]);
      assert forall i :: 1 <= i < |events| ==> events[1..][i - 1] == events[i];
    }
  }

  /** ... and otherwise it returns the data of the earliest such event. */
  lemma {:induction false} FirstUsernameAt(events: seq<RawEvent>, i: nat)
    requires i < |events| && NamesTarget(events[i])
    requires forall j :: 0 <= j < i ==> !NamesTarget(events[j])
    ensures FirstUsername(events) == NonBlank(events[i].data)
    decreases i
  {
    if i > 0 {
      assert forall j :: 0 <= j < i - 1 ==> events[1..][j] == events[j + 1];
      FirstUsernameAt(events[1..], i - 1);
    }
  }

  /** `_infer_target_from_events`: a username event first; failing that the
      first event's source, then its data. */
  function InferTargetFromEvents(events: seq<RawEvent>): (r: Option<string>)
    ensures r.Some? ==> r.value != "" && Stripped(r.value)
  {
    match FirstUsername(events)
    case Some(v) => Some(v)
    case None =>
      if events == [] then None
      else if NonBlank(events[0].source).Some? then NonBlank(events[0].source)
      else NonBlank(events[0].data)
  }

  /** A username event wins over the first event's source, wherever it is. */
  lemma UsernameWins(events: seq<RawEvent>, i: nat)
    requires i < |events| && NamesTarget(events[i])
    requires forall j :: 0 <= j < i ==> !NamesTarget(events[j])
    ensures InferTargetFromEvents(events) == NonBlank(events[i].data)
  {
    FirstUsernameAt(events, i);
  }

  /** Nothing is inferred exactly when no event names the target and the
      first event (if any) has neither a non-blank source nor non-blank data. */
  lemma EventsGiveNothing(events: seq<RawEvent>)
    ensures InferTargetFromEvents(events).None? <==>
      (forall i :: 0 <= i < |events| ==> !NamesTarget(events[i])) &&
      (events == [] || (NonBlank(events[0].source).None? && NonBlank(events[0].data).None?))
  {
    FirstUsernameNone(events);
  }

  // =====================================================================
  // The precedence in main

  /** A value Python's `or` would pick: present and not empty. */
  predicate Truthy(v: Option<string>)
  {
    v.Some? && v.value != ""
  }

  /** `raw_target or from_file or from_events or "unknown"`: the first
      truthy candidate, and `unknown` only when none is. */
  function FirstTruthy(rawTarget: Option<string>, fromFile: Option<string>, fromEvents: Option<string>): (t: string)
    ensures t != ""
    ensures Truthy(rawTarget) ==> t == rawTarget.value
    ensures !Truthy(rawTarget) && Truthy(fromFile) ==> t == fromFile.value
    ensures !Truthy(rawTarget) && !Truthy(fromFile) && Truthy(fromEvents) ==> t == fromEvents.value
    ensures !Truthy(rawTarget) && !Truthy(fromFile) && !Truthy(fromEvents) ==> t == "unknown"
  {
    if Truthy(rawTarget) then rawTarget.value
    else if Truthy(fromFile) then fromFile.value
    else if Truthy(fromEvents) then fromEvents.value
    else "unknown"
  }

  /** The target `main` passes on to `normalize_events`. */
  function ChooseTarget(rawTarget: Option<string>, path: string, events: seq<RawEvent>): (t: string)
    ensures t != ""
    ensures Truthy(rawTarget) ==> t == rawTarget.value
    ensures !Truthy(rawTarget) && InferTargetFromFilename(path).Some? ==> t == InferTargetFromFilename(path).value
    ensures !Truthy(rawTarget) && InferTargetFromFilename(path).None? ==>
      t == InferTargetFromEvents(events).GetOr("unknown")
  {
    FirstTruthy(rawTarget, InferTargetFromFilename(path), InferTargetFromEvents(events))
  }

  /** The file name is used only when the input names no target, and then
      it wins over the events. */
  lemma FilenameBeatsEvents(rawTarget: Option<string>, path: string, events: seq<RawEvent>, t: string)
    requires rawTarget.None? || rawTarget.value == ""
    requires InferTargetFromFilename(path) == Some(t)
    ensures ChooseTarget(rawTarget, path, events) == t
  {
  }

  /** With no target in the input and no usable file name, an event naming
      the target decides it. */
  lemma UsernameEventDecides(rawTarget: Option<string>, path: string, events: seq<RawEvent>, i: nat)
    requires rawTarget.None? || rawTarget.value == ""
    requires InferTargetFromFilename(path).None?
    requires i < |events| && NamesTarget(events[i])
    requires forall j :: 0 <= j < i ==> !NamesTarget(events[j])
    ensures ChooseTarget(rawTarget, path, events) == NonBlank(events[i].data).value
  {
    UsernameWins(events, i);
  }
}
