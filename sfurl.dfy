/**
 * `_extract_sfurls` (project/src/normalize.py): the URLs a scan wraps in
 * `<SFURL>...</SFURL>` markup inside an event's data.
 */
module Sfurl {
  import opened Wrappers
  import opened Strings

  const OPEN_TAG := "<sfurl>"
  const CLOSE_TAG := "</sfurl>"

  /** `tag` (written in lower case) starts at `k` in `text`, ignoring case. */
  predicate TagAt(text: string, k: int, tag: string)
  {
    0 <= k && k + |tag| <= |text| && Lower(text[k..k + |tag|]) == tag
  }

  /** The first position at or after `from` where `tag` starts. */
  function FindTag(text: string, from: nat, tag: string): (r: Option<nat>)
    requires from <= |text|
    ensures r.Some? ==> from <= r.value && r.value + |tag| <= |text|
    decreases |text| - from
  {
    if from + |tag| > |text| then None
    else if TagAt(text, from, tag) then Some(from)
    else FindTag(text, from + 1, tag)
  }

  /** The first position at or after `from` that is not whitespace (or the end). */
  function SkipSpaces(text: string, from: nat): (r: nat)
    requires from <= |text|
    ensures from <= r <= |text|
    decreases |text| - from
  {
    if from < |text| && IsSpace(text[from]) then SkipSpaces(text, from + 1) else from
  }

  /** One match of `<SFURL>\s*(.*?)\s*</SFURL>`: its stripped group and
      where the scan goes on. */
  datatype Match = Match(item: string, next: nat)

  /** The leftmost match (case-insensitive, `.` matching newlines): it
      opens at the first opening tag, skips whitespace, and closes at the
      nearest closing tag, the group losing its trailing whitespace. When
      an opening tag has no closing tag after it, no later one has either,
      so there is no match at all. */
  function NextMatch(text: string): (r: Option<Match>)
    ensures r.Some? ==> 0 < r.value.next <= |text| && Stripped(r.value.item)
  {
    match FindTag(text, 0, OPEN_TAG)
    case None => None
    case Some(i) => MatchFrom(text, SkipSpaces(text, i + |OPEN_TAG|))
  }

  /** The rest of a match whose contents start at `s`. */
  function MatchFrom(text: string, s: nat): (r: Option<Match>)
    requires s <= |text|
    ensures r.Some? ==> 0 < r.value.next <= |text| && Stripped(r.value.item)
  {
    match FindTag(text, s, CLOSE_TAG)
    case None => None
    case Some(c) => Some(Match(Contents(text, s, c), c + |CLOSE_TAG|))
  }

  /** The group between `s` and `c`, without trailing whitespace, then stripped. */
  function Contents(text: string, s: nat, c: nat): (item: string)
    requires s <= c <= |text|
    ensures Stripped(item)
  {
    var group := TrimRight(text[s..c], Whitespace);
    StripSpec(group);
    Strip(group)
  }

  /** `_extract_sfurls`: every match in turn, stripped, empty ones dropped. */
  function ExtractSfurls(text: string): (urls: seq<string>)
    ensures forall u :: u in urls ==> u != "" && Stripped(u)
    decreases |text|
  {
    match NextMatch(text)
    case None => []
    case Some(m) => (if m.item == "" then [] else [m.item]) + ExtractSfurls(text[m.next..])
  }

  /** A string that can sit inside the markup and come back unchanged. */
  predicate Embeddable(u: string)
  {
    u != "" && Stripped(u) && '<' !in u
  }

  predicate AllSpace(w: string)
  {
    forall k :: 0 <= k < |w| ==> IsSpace(w[k])
  }

  lemma TagStartsWithBracket(text: string, k: int, tag: string)
    requires TagAt(text, k, tag) && tag != [] && tag[0] == '<'
    ensures text[k] == '<' && '<' in text
  {
    assert Lower(text[k..k + |tag|])[0] == LowerChar(text[k]);
  }

  /** Text without any `<` holds no markup. */
  lemma {:induction false} ExtractFromPlainText(text: string)
    requires '<' !in text
    ensures ExtractSfurls(text) == []
  {
    if FindTag(text, 0, OPEN_TAG).Some? {
      FindTagFirst(text, 0, OPEN_TAG);
      TagStartsWithBracket(text, FindTag(text, 0, OPEN_TAG).value, OPEN_TAG);
      assert false;
    }
  }

  /** One marked-up occurrence, with any case in its tags and any
      whitespace around its contents, contributes exactly its contents,
      ahead of whatever the rest of the text contributes. */
  lemma {:induction false} ExtractOne(pre: string, open: string, w1: string, u: string, w2: string, close: string, rest: string)
    requires '<' !in pre && AllSpace(w1) && AllSpace(w2) && Embeddable(u)
    requires Lower(open) == OPEN_TAG && Lower(close) == CLOSE_TAG
    ensures ExtractSfurls(pre + open + w1 + u + w2 + close + rest) == [u] + ExtractSfurls(rest)
  {
    var text := pre + open + w1 + u + w2 + close + rest;
    Pieces(pre, open, w1, u, w2, close, rest);
    ExtractPieces(text, pre, open, w1, u, w2, close, rest);
  }

  /** `ExtractOne` on a text known only through where its parts lie. */
  lemma ExtractPieces(text: string, pre: string, open: string, w1: string, u: string, w2: string, close: string, rest: string)
    requires '<' !in pre && AllSpace(w1) && AllSpace(w2) && Embeddable(u)
    requires Lower(open) == OPEN_TAG && Lower(close) == CLOSE_TAG
    requires var j := |pre| + |open|;
      var s := j + |w1|;
      var c := s + |u| + |w2|;
      && |text| == c + |close| + |rest|
      && text[..|pre|] == pre && text[|pre|..j] == open && text[j..s] == w1 && text[s..c] == u + w2
      && text[c..c + |close|] == close && text[c + |close|..] == rest
    ensures ExtractSfurls(text) == [u] + ExtractSfurls(rest)
  {
    var j := |pre| + |open|;
    var s := j + |w1|;
    var c := s + |u| + |w2|;
    assert |close| == |CLOSE_TAG|;
    assert text[c + |CLOSE_TAG|..] == rest;
    OpenAfter(text, pre, open);
    SpacesBefore(text, j, w1, s, c, u, w2);
    CloseAfter(text, s, c, u, w2, close);
    ExtractAt(text, |pre|, s, c, u, w2);
  }

  lemma OpenAfter(text: string, pre: string, open: string)
    requires '<' !in pre && Lower(open) == OPEN_TAG
    requires |pre| + |open| <= |text| && text[..|pre|] == pre && text[|pre|..|pre| + |open|] == open
    ensures |open| == |OPEN_TAG| && FindTag(text, 0, OPEN_TAG) == Some(|pre|)
  {
    OpenTagAt(text, |pre|);
  }

  lemma SpacesBefore(text: string, j: nat, w1: string, s: nat, c: nat, u: string, w2: string)
    requires AllSpace(w1) && u != [] && Stripped(u)
    requires j + |w1| == s && s + |u| + |w2| == c <= |text|
    requires text[j..s] == w1 && text[s..c] == u + w2
    ensures SkipSpaces(text, j) == s
  {
    assert text[s] == text[s..c][0];
    SkipSpacesOver(text, j, s);
  }

  lemma CloseAfter(text: string, s: nat, c: nat, u: string, w2: string, close: string)
    requires '<' !in u && AllSpace(w2) && Lower(close) == CLOSE_TAG
    requires s <= c && c + |close| <= |text| && text[s..c] == u + w2 && text[c..c + |close|] == close
    ensures |close| == |CLOSE_TAG| && FindTag(text, s, CLOSE_TAG) == Some(c)
  {
    NoBracketIn(u, w2);
    CloseTagAt(text, s, c);
  }

  /** Where the seven parts of an occurrence lie in the text they make up. */
  lemma {:induction false} Pieces<T>(a: seq<T>, b: seq<T>, c: seq<T>, d: seq<T>, e: seq<T>, f: seq<T>, g: seq<T>)
    ensures var t := a + b + c + d + e + f + g;
      var j := |a| + |b|;
      var s := j + |c|;
      var k := s + |d| + |e|;
      && |t| == k + |f| + |g|
      && t[..|a|] == a && t[|a|..j] == b && t[j..s] == c && t[s..k] == d + e
      && t[k..k + |f|] == f && t[k + |f|..] == g
  {
    PieceA(a, b, c, d, e, f, g);
    PieceB(a, b, c, d, e, f, g);
    PieceC(a, b, c, d, e, f, g);
    PieceD(a, b, c, d, e, f, g);
    PieceF(a, b, c, d, e, f, g);
    PieceG(a, b, c, d, e, f, g);
  }

  lemma PieceA<T>(a: seq<T>, b: seq<T>, c: seq<T>, d: seq<T>, e: seq<T>, f: seq<T>, g: seq<T>)
    ensures (a + b + c + d + e + f + g)[..|a|] == a
  {
  }

  lemma PieceB<T>(a: seq<T>, b: seq<T>, c: seq<T>, d: seq<T>, e: seq<T>, f: seq<T>, g: seq<T>)
    ensures (a + b + c + d + e + f + g)[|a|..|a| + |b|] == b
  {
  }

  lemma PieceC<T>(a: seq<T>, b: seq<T>, c: seq<T>, d: seq<T>, e: seq<T>, f: seq<T>, g: seq<T>)
    ensures (a + b + c + d + e + f + g)[|a| + |b|..|a| + |b| + |c|] == c
  {
  }

  lemma PieceD<T>(a: seq<T>, b: seq<T>, c: seq<T>, d: seq<T>, e: seq<T>, f: seq<T>, g: seq<T>)
    ensures (a + b + c + d + e + f + g)[|a| + |b| + |c|..|a| + |b| + |c| + |d| + |e|] == d + e
  {
  }

  lemma PieceF<T>(a: seq<T>, b: seq<T>, c: seq<T>, d: seq<T>, e: seq<T>, f: seq<T>, g: seq<T>)
    ensures var k := |a| + |b| + |c| + |d| + |e|;
      (a + b + c + d + e + f + g)[k..k + |f|] == f
  {
  }

  lemma PieceG<T>(a: seq<T>, b: seq<T>, c: seq<T>, d: seq<T>, e: seq<T>, f: seq<T>, g: seq<T>)
    ensures (a + b + c + d + e + f + g)[|a| + |b| + |c| + |d| + |e| + |f|..] == g
  {
  }

  /** Whitespace from `from` up to a non-space at `p` is skipped. */
  lemma SkipSpacesOver(text: string, from: nat, p: nat)
    requires from <= p < |text| && AllSpace(text[from..p]) && !IsSpace(text[p])
    ensures SkipSpaces(text, from) == p
  {
    forall k | from <= k < p
      ensures IsSpace(text[k])
    {
      assert text[from..p][k - from] == text[k];
    }
    SkipSpacesAt(text, from, p);
  }

  /** A position that is not `<` cannot start a tag. */
  lemma NoTagWithoutBracket(text: string, k: nat, tag: string)
    requires k < |text| && text[k] != '<' && tag != [] && tag[0] == '<'
    ensures !TagAt(text, k, tag)
  {
    if k + |tag| <= |text| {
      assert Lower(text[k..k + |tag|])[0] == LowerChar(text[k]);
    }
  }

  /** The first opening tag is the one after a prefix that holds no `<`. */
  lemma {:induction false} OpenTagAt(text: string, i: nat)
    requires i + |OPEN_TAG| <= |text| && '<' !in text[..i] && Lower(text[i..i + |OPEN_TAG|]) == OPEN_TAG
    ensures FindTag(text, 0, OPEN_TAG) == Some(i)
  {
    forall k | 0 <= k < i
      ensures !TagAt(text, k, OPEN_TAG)
    {
      assert text[..i][k] == text[k];
      NoTagWithoutBracket(text, k, OPEN_TAG);
    }
    FindTagAt(text, 0, OPEN_TAG, i);
  }

  /** The first closing tag after contents that hold no `<` is the one right after them. */
  lemma {:induction false} CloseTagAt(text: string, s: nat, c: nat)
    requires s <= c && c + |CLOSE_TAG| <= |text| && '<' !in text[s..c]
    requires Lower(text[c..c + |CLOSE_TAG|]) == CLOSE_TAG
    ensures FindTag(text, s, CLOSE_TAG) == Some(c)
  {
    forall k | s <= k < c
      ensures !TagAt(text, k, CLOSE_TAG)
    {
      assert text[s..c][k - s] == text[k];
      NoTagWithoutBracket(text, k, CLOSE_TAG);
    }
    FindTagAt(text, s, CLOSE_TAG, c);
  }

  /** One step of the scan over a match whose contents are `u` padded by `w2`. */
  lemma {:induction false} ExtractAt(text: string, i: nat, s: nat, c: nat, u: string, w2: string)
    requires FindTag(text, 0, OPEN_TAG) == Some(i)
    requires i + |OPEN_TAG| <= |text| && SkipSpaces(text, i + |OPEN_TAG|) == s
    requires FindTag(text, s, CLOSE_TAG) == Some(c)
    requires s <= c && text[s..c] == u + w2
    requires u != [] && Stripped(u) && AllSpace(w2)
    ensures ExtractSfurls(text) == [u] + ExtractSfurls(text[c + |CLOSE_TAG|..])
  {
    ContentsOf(text, s, c, u, w2);
    ExtractContents(text, i, s, c);
  }

  /** The same step, stated on the stripped group. */
  lemma {:induction false} ExtractContents(text: string, i: nat, s: nat, c: nat)
    requires FindTag(text, 0, OPEN_TAG) == Some(i)
    requires i + |OPEN_TAG| <= |text| && SkipSpaces(text, i + |OPEN_TAG|) == s
    requires FindTag(text, s, CLOSE_TAG) == Some(c)
    requires s <= c && Contents(text, s, c) != ""
    ensures ExtractSfurls(text) == [Contents(text, s, c)] + ExtractSfurls(text[c + |CLOSE_TAG|..])
  {
    ExtractStep(text, i, s, c);
  }

  lemma {:induction false} ContentsOf(text: string, s: nat, c: nat, u: string, w: string)
    requires s <= c <= |text| && text[s..c] == u + w
    requires u != [] && Stripped(u) && AllSpace(w)
    ensures Contents(text, s, c) == u
  {
    TrimRightAt(u, w);
    StripOfStripped(u);
  }

  /** One step of the scan, given where its tags and contents were found. */
  lemma {:induction false} ExtractStep(text: string, i: nat, s: nat, c: nat)
    requires FindTag(text, 0, OPEN_TAG) == Some(i)
    requires i + |OPEN_TAG| <= |text| && SkipSpaces(text, i + |OPEN_TAG|) == s
    requires FindTag(text, s, CLOSE_TAG) == Some(c)
    ensures NextMatch(text) == Some(Match(Contents(text, s, c), c + |CLOSE_TAG|))
  {
    assert NextMatch(text) == MatchFrom(text, s);
    MatchAt(text, s, c);
  }

  lemma MatchAt(text: string, s: nat, c: nat)
    requires s <= |text| && FindTag(text, s, CLOSE_TAG) == Some(c)
    ensures MatchFrom(text, s) == Some(Match(Contents(text, s, c), c + |CLOSE_TAG|))
  {
  }

  lemma NoBracketIn(u: string, w: string)
    requires '<' !in u && AllSpace(w)
    ensures '<' !in u + w
  {
    assert forall k :: 0 <= k < |w| ==> w[k] != '<';
  }

  /** `FindTag` finds position `p` when `p` is the first place the tag occurs. */
  lemma {:induction false} FindTagAt(text: string, from: nat, tag: string, p: nat)
    requires from <= p && TagAt(text, p, tag)
    requires forall k :: from <= k < p ==> !TagAt(text, k, tag)
    ensures FindTag(text, from, tag) == Some(p)
    decreases p - from
  {
    if from < p {
      FindTagAt(text, from + 1, tag, p);
    }
  }

  /** `FindTag` returns the first occurrence at or after `from`, and none
      only when there is no occurrence at all. */
  lemma FindTagFirst(text: string, from: nat, tag: string)
    requires from <= |text|
    ensures FindTag(text, from, tag).Some? ==>
      var p := FindTag(text, from, tag).value;
      TagAt(text, p, tag) && forall k :: from <= k < p ==> !TagAt(text, k, tag)
    ensures FindTag(text, from, tag).None? ==> forall k :: from <= k ==> !TagAt(text, k, tag)
  {
    if FindTag(text, from, tag).Some? {
      FindTagFound(text, from, tag);
    } else {
      FindTagNone(text, from, tag);
    }
  }

  lemma FindTagFound(text: string, from: nat, tag: string)
    requires from <= |text| && FindTag(text, from, tag).Some?
    ensures var p := FindTag(text, from, tag).value;
      TagAt(text, p, tag) && forall k :: from <= k < p ==> !TagAt(text, k, tag)
  {
    FindTagHit(text, from, tag);
    FindTagNoneBefore(text, from, tag);
  }

  lemma {:induction false} FindTagHit(text: string, from: nat, tag: string)
    requires from <= |text| && FindTag(text, from, tag).Some?
    ensures TagAt(text, FindTag(text, from, tag).value, tag)
    decreases |text| - from
  {
    if !TagAt(text, from, tag) {
      FindTagHit(text, from + 1, tag);
    }
  }

  lemma {:induction false} FindTagNoneBefore(text: string, from: nat, tag: string)
    requires from <= |text| && FindTag(text, from, tag).Some?
    ensures forall k :: from <= k < FindTag(text, from, tag).value ==> !TagAt(text, k, tag)
    decreases |text| - from
  {
    if !TagAt(text, from, tag) {
      var p := FindTag(text, from, tag).value;
      assert FindTag(text, from + 1, tag).value == p;
      FindTagNoneBefore(text, from + 1, tag);
      forall k | from <= k < p
        ensures !TagAt(text, k, tag)
      {
        if k != from {
          assert from + 1 <= k < FindTag(text, from + 1, tag).value;
        }
      }
    }
  }

  lemma {:induction false} FindTagNone(text: string, from: nat, tag: string)
    requires from <= |text| && FindTag(text, from, tag).None?
    ensures forall k :: from <= k ==> !TagAt(text, k, tag)
    decreases |text| - from
  {
    if from + |tag| <= |text| {
      FindTagNone(text, from + 1, tag);
    }
  }

  lemma {:induction false} SkipSpacesAt(text: string, from: nat, p: nat)
    requires from <= p < |text| && !IsSpace(text[p])
    requires forall k :: from <= k < p ==> IsSpace(text[k])
    ensures SkipSpaces(text, from) == p
    decreases p - from
  {
    if from < p {
      SkipSpacesAt(text, from + 1, p);
    }
  }

  lemma {:induction false} TrimRightAt(u: string, w: string)
    requires u != [] && !IsSpace(u[|u| - 1]) && AllSpace(w)
    ensures TrimRight(u + w, Whitespace) == u
    decreases |w|
  {
    if w == [] {
      assert u + w == u;
    } else {
      assert (u + w)[..|u + w| - 1] == u + w[..|w| - 1];
      TrimRightAt(u, w[..|w| - 1]);
    }
  }

  /** The markup `<SFURL>u</SFURL>` for each of `urls`, back to back. */
  function Markup(urls: seq<string>): string
  {
    if urls == [] then "" else "<SFURL>" + urls[0] + "</SFURL>" + Markup(urls[1..])
  }

  /** Extraction inverts markup: every occurrence comes back, in order,
      repeats included. */
  lemma {:induction false} ExtractMarkup(urls: seq<string>)
    requires forall u :: u in urls ==> Embeddable(u)
    ensures ExtractSfurls(Markup(urls)) == urls
  {
    if urls == [] {
      ExtractFromPlainText("");
    } else {
      assert urls[0] in urls;
      ExtractMarkup(urls[1..]);
      ExtractUpper(urls[0], Markup(urls[1..]));
    }
  }

  /** One occurrence written with upper-case tags and no padding. */
  lemma ExtractUpper(u: string, rest: string)
    requires Embeddable(u)
    ensures ExtractSfurls("<SFURL>" + u + "</SFURL>" + rest) == [u] + ExtractSfurls(rest)
  {
    UpperTags();
    Unpadded("<SFURL>", u, "</SFURL>", rest);
    ExtractOne("", "<SFURL>", "", u, "", "</SFURL>", rest);
  }

  lemma Unpadded<T>(open: seq<T>, u: seq<T>, close: seq<T>, rest: seq<T>)
    ensures open + u + close + rest == [] + open + [] + u + [] + close + rest
  {
  }

  lemma UpperTags()
    ensures Lower("<SFURL>") == OPEN_TAG && Lower("</SFURL>") == CLOSE_TAG
  {
    UpperOpen();
    UpperClose();
  }

  lemma UpperOpen()
    ensures Lower("<SFURL>") == OPEN_TAG
  {
  }

  lemma UpperClose()
    ensures Lower("</SFURL>") == CLOSE_TAG
  {
  }
}
