/**
 * The Python `str` operations the pipeline relies on, over ASCII:
 * `lower()`, `strip()`/`strip(chars)`/`lstrip(chars)`, `split("/")`,
 * `startswith`/`endswith`, the `in` substring test, and the code-point
 * order that `sorted()` uses on strings.
 */
module Strings {
  import opened Wrappers

  // ---------------------------------------------------------------------
  // Characters

  predicate IsUpper(c: char) { 'A' <= c <= 'Z' }

  predicate IsDigit(c: char) { '0' <= c <= '9' }

  predicate IsLetter(c: char) { 'a' <= c <= 'z' || 'A' <= c <= 'Z' }

  /** Whitespace as `str.isspace()` sees it, restricted to ASCII:
      space, tab, line feed, vertical tab, form feed, carriage return
      and the four separators 0x1C to 0x1F. */
  predicate IsSpace(c: char)
  {
    c == ' ' || 9 <= c as int <= 13 || 28 <= c as int <= 31
  }

  /** The character sets the pipeline strips: `strip()`'s whitespace,
      `strip("/")` and `lstrip("w.")`. */
  datatype CharClass = Whitespace | Slash | WOrDot

  predicate InClass(c: char, cls: CharClass)
  {
    match cls
    case Whitespace => IsSpace(c)
    case Slash => c == '/'
    case WOrDot => c == 'w' || c == '.'
  }

  function LowerChar(c: char): (r: char)
    ensures !IsUpper(r)
    ensures !IsUpper(c) ==> r == c
  {
    if IsUpper(c) then (c as int + 32) as char else c
  }

  // ---------------------------------------------------------------------
  // lower()

  function Lower(s: string): (r: string)
    ensures |r| == |s|
    ensures forall i :: 0 <= i < |s| ==> r[i] == LowerChar(s[i])
  {
    if s == [] then [] else [LowerChar(s[0])] + Lower(s[1..])
  }

  /** Lower-casing twice is lower-casing once. */
  lemma LowerIdempotent(s: string)
    ensures Lower(Lower(s)) == Lower(s)
  {
    assert forall i :: 0 <= i < |s| ==> Lower(Lower(s))[i] == Lower(s)[i];
  }

  lemma LowerAppend(a: string, b: string)
    ensures Lower(a + b) == Lower(a) + Lower(b)
  {
    assert forall i :: 0 <= i < |a + b| ==> Lower(a + b)[i] == (Lower(a) + Lower(b))[i];
  }

  /** Lower-casing leaves every non-letter character where it was. */
  lemma LowerKeepsOthers(s: string, c: char, i: int)
    requires 0 <= i < |s| && !IsUpper(c) && !('a' <= c <= 'z')
    ensures Lower(s)[i] == c <==> s[i] == c
  {
  }

  // ---------------------------------------------------------------------
  // strip(), strip(chars), lstrip(chars)

  /** `lstrip`: drop leading characters for which `drop` holds. */
  function TrimLeft(s: string, drop: CharClass): (r: string)
    ensures |r| <= |s| && r == s[|s| - |r|..]
    ensures r != [] ==> !InClass(r[0], drop)
    ensures forall i :: 0 <= i < |s| - |r| ==> InClass(s[i], drop)
  {
    if s != [] && InClass(s[0], drop) then TrimLeft(s[1..], drop) else s
  }

  /** `rstrip`: drop trailing characters for which `drop` holds. */
  function TrimRight(s: string, drop: CharClass): (r: string)
    ensures |r| <= |s| && r == s[..|r|]
    ensures r != [] ==> !InClass(r[|r| - 1], drop)
    ensures forall i :: |r| <= i < |s| ==> InClass(s[i], drop)
  {
    if s != [] && InClass(s[|s| - 1], drop) then TrimRight(s[..|s| - 1], drop) else s
  }

  /** `strip(chars)`: both ends. */
  function StripBy(s: string, drop: CharClass): string
  {
    TrimRight(TrimLeft(s, drop), drop)
  }

  /** `str.strip()` with no argument. */
  function Strip(s: string): string
  {
    StripBy(s, Whitespace)
  }

  /** Neither end is whitespace (the shape of anything `strip()` returns). */
  predicate Stripped(s: string)
  {
    s != [] ==> !IsSpace(s[0]) && !IsSpace(s[|s| - 1])
  }

  /** `r` is `s` with only whitespace cut from the front (the first `i`
      characters) and from the back. */
  predicate CutFrom(s: string, r: string, i: int)
  {
    0 <= i && i + |r| <= |s| && r == s[i..i + |r|] &&
    (forall k :: 0 <= k < i ==> IsSpace(s[k])) &&
    (forall k :: i + |r| <= k < |s| ==> IsSpace(s[k]))
  }

  /** `strip()` yields a stripped string obtained by removing whitespace
      only: the result is a contiguous piece of the input and everything
      cut off on either side is whitespace. */
  lemma StripSpec(s: string)
    ensures Stripped(Strip(s))
    ensures exists i :: CutFrom(s, Strip(s), i)
  {
    var l := TrimLeft(s, Whitespace);
    var r := TrimRight(l, Whitespace);
    if r != [] {
      assert r[0] == l[0];
    }
    CutOf(s, l, r);
  }

  /** A piece `r` at the front of a suffix `l` of `s`, with only
      whitespace before `l` and after `r`, is cut out of `s`. */
  lemma CutOf(s: string, l: string, r: string)
    requires |l| <= |s| && l == s[|s| - |l|..]
    requires forall k :: 0 <= k < |s| - |l| ==> InClass(s[k], Whitespace)
    requires |r| <= |l| && r == l[..|r|]
    requires forall k :: |r| <= k < |l| ==> InClass(l[k], Whitespace)
    ensures CutFrom(s, r, |s| - |l|)
  {
    var i := |s| - |l|;
    assert r == s[i..i + |r|];
    forall k | i + |r| <= k < |s|
      ensures IsSpace(s[k])
    {
      assert s[k] == l[k - i];
    }
  }

  /** `strip()` leaves a stripped string alone. */
  lemma StripOfStripped(s: string)
    requires Stripped(s)
    ensures Strip(s) == s
  {
    if s != [] {
      assert !InClass(s[0], Whitespace);
      assert TrimLeft(s, Whitespace) == s;
      assert !InClass(s[|s| - 1], Whitespace);
    }
  }

  // ---------------------------------------------------------------------
  // Prefixes, suffixes, substrings

  predicate StartsWith(s: string, prefix: string) { prefix <= s }

  predicate EndsWith(s: string, suffix: string)
  {
    |suffix| <= |s| && s[|s| - |suffix|..] == suffix
  }

  /** Python's `needle in hay` on strings. */
  predicate IsSubstring(needle: string, hay: string)
    decreases |hay|
  {
    needle <= hay || (hay != [] && IsSubstring(needle, hay[1..]))
  }

  /** `needle` occurs in `hay` starting at offset `i`. */
  predicate OccursAt(needle: string, hay: string, i: int)
  {
    0 <= i <= |hay| - |needle| && hay[i..i + |needle|] == needle
  }

  /** The recursive test agrees with "occurs at some offset". */
  lemma {:induction false} IsSubstringAt(needle: string, hay: string)
    ensures IsSubstring(needle, hay) <==> exists i :: OccursAt(needle, hay, i)
    decreases |hay|
  {
    if needle <= hay {
      assert OccursAt(needle, hay, 0);
    } else if hay != [] {
      IsSubstringAt(needle, hay[1..]);
      if IsSubstring(needle, hay[1..]) {
        var i :| OccursAt(needle, hay[1..], i);
        assert hay[1..][i..i + |needle|] == hay[i + 1..i + 1 + |needle|];
        assert OccursAt(needle, hay, i + 1);
      }
      if exists i :: OccursAt(needle, hay, i) {
        var i :| OccursAt(needle, hay, i);
        assert i != 0;
        assert hay[1..][i - 1..i - 1 + |needle|] == hay[i..i + |needle|];
        assert OccursAt(needle, hay[1..], i - 1);
      }
    } else {
      assert needle != [];
      assert forall i :: !OccursAt(needle, hay, i);
    }
  }

  /** Index of the last occurrence of `c`, or `None` (`str.rfind`). */
  function LastIndexOf(s: string, c: char): (r: Option<nat>)
    ensures r.Some? ==> r.value < |s| && s[r.value] == c && c !in s[r.value + 1..]
    ensures r.None? ==> c !in s
  {
    if s == [] then None
    else if s[|s| - 1] == c then Some(|s| - 1)
    else
      match LastIndexOf(s[..|s| - 1], c)
      case None => None
      case Some(k) =>
        assert s[k + 1..] == s[..|s| - 1][k + 1..] + [s[|s| - 1]];
        Some(k)
  }

  // ---------------------------------------------------------------------
  // split(sep) and the non-empty pieces of a path

  /** `s.split(sep)`: as many pieces as separators plus one. */
  function Split(s: string, sep: char): (parts: seq<string>)
    ensures |parts| >= 1
    ensures forall p :: p in parts ==> sep !in p
  {
    if s == [] then [""]
    else
      var rest := Split(s[1..], sep);
      if s[0] == sep then [""] + rest
      else [[s[0]] + rest[0]] + rest[1..]
  }

  /** `sep.join(parts)`. */
  function Join(parts: seq<string>, sep: char): string
    requires |parts| >= 1
  {
    if |parts| == 1 then parts[0] else parts[0] + [sep] + Join(parts[1..], sep)
  }

  /** Splitting loses nothing: joining the pieces gives the string back. */
  lemma {:induction false} JoinSplit(s: string, sep: char)
    ensures Join(Split(s, sep), sep) == s
  {
    if s != [] {
      JoinSplit(s[1..], sep);
      var rest := Split(s[1..], sep);
      if s[0] != sep && |rest| > 1 {
        assert Join(rest, sep) == rest[0] + [sep] + Join(rest[1..], sep);
        var parts := [[s[0]] + rest[0]] + rest[1..];
        assert parts[1..] == rest[1..];
      }
    }
  }

  /** Keeps the non-empty strings, in order (`[p for p in parts if p]`). */
  function NonEmpty(parts: seq<string>): (r: seq<string>)
    ensures forall p :: p in r ==> p != [] && p in parts
    ensures forall p :: p in parts && p != [] ==> p in r
  {
    if parts == [] then []
    else if parts[0] == [] then NonEmpty(parts[1..])
    else [parts[0]] + NonEmpty(parts[1..])
  }

  /** The path segments of a path: `[s for s in path.split("/") if s]`. */
  function Segments(path: string): (segs: seq<string>)
    ensures forall g :: g in segs ==> g != [] && '/' !in g
  {
    NonEmpty(Split(path, '/'))
  }

  // ---------------------------------------------------------------------
  // The order of `sorted()` on str: lexicographic on code points

  /** `a < b` for Python strings. */
  predicate Below(a: string, b: string)
  {
    if a == [] then b != []
    else b != [] && (a[0] < b[0] || (a[0] == b[0] && Below(a[1..], b[1..])))
  }

  lemma BelowIrreflexive(a: string)
    ensures !Below(a, a)
  {
  }

  lemma BelowTransitive(a: string, b: string, c: string)
    requires Below(a, b) && Below(b, c)
    ensures Below(a, c)
  {
  }

  lemma BelowTotal(a: string, b: string)
    ensures a == b || Below(a, b) || Below(b, a)
  {
    if a != [] && b != [] && a[0] == b[0] {
      BelowTotal(a[1..], b[1..]);
      if a[1..] == b[1..] {
        assert a == [a[0]] + a[1..] && b == [b[0]] + b[1..];
      }
    }
  }

  lemma BelowAsymmetric(a: string, b: string)
    requires Below(a, b)
    ensures !Below(b, a)
  {
  }

  predicate StrictlySorted(s: seq<string>)
  {
    forall i, j :: 0 <= i < j < |s| ==> Below(s[i], s[j])
  }

  predicate IsLeast(m: string, s: set<string>)
  {
    m in s && forall x :: x in s && x != m ==> Below(m, x)
  }

  lemma LeastExists(s: set<string>)
    requires s != {}
    ensures exists m :: IsLeast(m, s)
    decreases |s|
  {
    var x :| x in s;
    if s - {x} == {} {
      assert s == {x};
      assert IsLeast(x, s);
    } else {
      LeastExists(s - {x});
      var m :| IsLeast(m, s - {x});
      BelowTotal(m, x);
      if Below(m, x) {
        assert IsLeast(m, s);
      } else {
        forall y | y in s && y != x
          ensures Below(x, y)
        {
          if y != m {
            BelowTransitive(x, m, y);
          }
        }
        assert IsLeast(x, s);
      }
    }
  }

  lemma LeastUnique(s: set<string>)
    ensures forall m1, m2 :: IsLeast(m1, s) && IsLeast(m2, s) ==> m1 == m2
  {
    forall m1, m2 | IsLeast(m1, s) && IsLeast(m2, s)
      ensures m1 == m2
    {
      if m1 != m2 {
        BelowAsymmetric(m1, m2);
      }
    }
  }

  /** `sorted(s)` for a set of strings: ascending, without repeats, and
      holding exactly the elements of the set. */
  function SortedSet(s: set<string>): (r: seq<string>)
    ensures StrictlySorted(r)
    ensures forall x :: x in r <==> x in s
    ensures |r| == |s|
    decreases |s|
  {
    if s == {} then []
    else
      LeastExists(s);
      LeastUnique(s);
      var m :| IsLeast(m, s);
      var rest := SortedSet(s - {m});
      assert forall x :: x in rest ==> Below(m, x);
      [m] + rest
  }
}
