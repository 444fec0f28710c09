/**
 * The handful of Python `str` operations the router relies on, written over
 * `seq<char>`: `split`, `join`, `strip`, `lower`, `startswith`, `endswith`
 * and the substring test `in`.
 */
module Text {

  predicate StartsWith(s: string, prefix: string) {
    |prefix| <= |s| && s[..|prefix|] == prefix
  }

  predicate EndsWith(s: string, suffix: string) {
    |suffix| <= |s| && s[|s| - |suffix|..] == suffix
  }

  /** `sub` occurs in `s` starting at index `i`. */
  predicate OccursAt(s: string, sub: string, i: int) {
    0 <= i <= |s| - |sub| && s[i..i + |sub|] == sub
  }

  /** Python's `sub in s`: some window of `s` equals `sub` (the empty string is in every string). */
  predicate Contains(s: string, sub: string) {
    exists i | 0 <= i <= |s| - |sub| :: OccursAt(s, sub, i)
  }

  /**
   * Python's `s.split(sep)` for a non-empty separator: occurrences are found
   * left to right without overlap, and there is always at least one part.
   */
  function Split(s: string, sep: string): (parts: seq<string>)
    requires |sep| > 0
    ensures |parts| >= 1
    decreases |s|
  {
    if |s| < |sep| then [s]
    else if s[..|sep|] == sep then [""] + Split(s[|sep|..], sep)
    else
      var rest := Split(s[1..], sep);
      [[s[0]] + rest[0]] + rest[1..]
  }

  /** Python's `sep.join(parts)`. */
  function Join(parts: seq<string>, sep: string): string {
    if |parts| == 0 then ""
    else if |parts| == 1 then parts[0]
    else parts[0] + sep + Join(parts[1..], sep)
  }

  /** Joining the parts of a split with the same separator gives back the string. */
  lemma {:induction false} JoinSplit(s: string, sep: string)
    requires |sep| > 0
    ensures Join(Split(s, sep), sep) == s
    decreases |s|
  {
    if |s| < |sep| {
    } else if s[..|sep|] == sep {
      var rest := Split(s[|sep|..], sep);
      JoinSplit(s[|sep|..], sep);
      calc {
        Join([""] + rest, sep);
        { assert ([""] + rest)[1..] == rest; }
        "" + sep + Join(rest, sep);
        sep + s[|sep|..];
        s;
      }
    } else {
      var rest := Split(s[1..], sep);
      JoinSplit(s[1..], sep);
      var parts := [[s[0]] + rest[0]] + rest[1..];
      if |rest| == 1 {
        assert Join(parts, sep) == [s[0]] + rest[0];
        assert [s[0]] + s[1..] == s;
      } else {
        assert parts[1..] == rest[1..];
        assert Join(parts, sep) == [s[0]] + rest[0] + sep + Join(rest[1..], sep);
        assert Join(rest, sep) == rest[0] + sep + Join(rest[1..], sep);
        assert [s[0]] + s[1..] == s;
      }
    }
  }

  /** The first part of a split is a prefix of the string. */
  lemma {:induction false} SplitHeadIsPrefix(s: string, sep: string)
    requires |sep| > 0
    ensures StartsWith(s, Split(s, sep)[0])
    decreases |s|
  {
    if |s| >= |sep| && s[..|sep|] != sep {
      SplitHeadIsPrefix(s[1..], sep);
      var head := Split(s[1..], sep)[0];
      assert s[1..][..|head|] == head;
      assert s[..|head| + 1] == [s[0]] + s[1..][..|head|];
    }
  }

  /** The first part of a split is the whole string, or the separator follows it. */
  lemma {:induction false} SplitHeadEnds(s: string, sep: string)
    requires |sep| > 0
    ensures var h := Split(s, sep)[0];
            h == s || (|h| + |sep| <= |s| && s[|h|..|h| + |sep|] == sep)
    decreases |s|
  {
    if |s| >= |sep| && s[..|sep|] != sep {
      var t := s[1..];
      SplitHeadEnds(t, sep);
      var h' := Split(t, sep)[0];
      assert Split(s, sep)[0] == [s[0]] + h';
      if h' == t {
        assert [s[0]] + t == s;
      } else {
        var n := |h'|;
        assert n + |sep| <= |t| && t[n..n + |sep|] == sep;
        forall x | 0 <= x < |sep| ensures s[n + 1 + x] == sep[x] {
          assert s[n + 1 + x] == t[n + x] == t[n..n + |sep|][x];
        }
        assert s[n + 1..n + 1 + |sep|] == sep;
      }
    }
  }

  lemma ContainsTail(s: string, sub: string)
    requires |s| > 0 && Contains(s[1..], sub)
    ensures Contains(s, sub)
  {
    var i :| 0 <= i <= |s[1..]| - |sub| && OccursAt(s[1..], sub, i);
    assert s[i + 1..i + 1 + |sub|] == s[1..][i..i + |sub|];
    assert OccursAt(s, sub, i + 1);
  }

  /** A string holding the separator splits into at least two parts. */
  lemma {:induction false} SplitAtOccurrence(s: string, sep: string)
    requires |sep| > 0 && Contains(s, sep)
    ensures |Split(s, sep)| >= 2
    decreases |s|
  {
    var i :| 0 <= i <= |s| - |sep| && OccursAt(s, sep, i);
    if s[..|sep|] != sep {
      assert i > 0;
      assert OccursAt(s[1..], sep, i - 1) by { assert s[1..][i - 1..i - 1 + |sep|] == s[i..i + |sep|]; }
      SplitAtOccurrence(s[1..], sep);
    }
  }

  /** A string without the separator `", "` splits into itself alone. */
  lemma {:induction false} SplitWithoutSeparator(s: string)
    requires !Contains(s, ", ")
    ensures Split(s, ", ") == [s]
    decreases |s|
  {
    if |s| >= 2 {
      assert !OccursAt(s, ", ", 0);
      assert s[..2] != ", " by { assert s[0..0 + 2] == s[..2]; }
      if Contains(s[1..], ", ") {
        ContainsTail(s, ", ");
      }
      SplitWithoutSeparator(s[1..]);
      assert [s[0]] + s[1..] == s;
    }
  }

  /**
   * The first `", "` of `a + ", " + rest` is the one after `a` when `a` holds
   * none: `a` is the first part.
   */
  lemma {:induction false} SplitAtFirstSeparator(a: string, rest: string)
    requires !Contains(a, ", ")
    ensures Split(a + ", " + rest, ", ") == [a] + Split(rest, ", ")
    decreases |a|
  {
    var x := a + ", " + rest;
    if |a| == 0 {
      assert x[..2] == ", " && x[2..] == rest;
    } else {
      if |a| >= 2 {
        assert !OccursAt(a, ", ", 0);
        assert x[..2] == a[0..0 + 2];
      } else {
        assert x[1] == ',';
      }
      assert x[..2] != ", ";
      if Contains(a[1..], ", ") {
        ContainsTail(a, ", ");
      }
      SplitAtFirstSeparator(a[1..], rest);
      assert x[1..] == a[1..] + ", " + rest;
      assert [a[0]] + a[1..] == a;
    }
  }

  /** A single-character separator never survives inside a part. */
  lemma {:induction false} SplitPartsFree(s: string, c: char)
    ensures forall p :: p in Split(s, [c]) ==> c !in p
    decreases |s|
  {
    if |s| < 1 {
    } else if s[..1] == [c] {
      SplitPartsFree(s[1..], c);
    } else {
      var rest := Split(s[1..], [c]);
      SplitPartsFree(s[1..], c);
      assert s[0] != c by { assert s[..1] == [s[0]]; }
      assert rest[0] in rest;
      forall p | p in [[s[0]] + rest[0]] + rest[1..] ensures c !in p {
        if p != [s[0]] + rest[0] {
          assert p in rest;
        }
      }
    }
  }

  /** The characters Python's `str.isspace` accepts, which `strip()` without arguments removes. */
  const Whitespace: set<char> :=
    {'\t', '\n', '\U{000B}', '\U{000C}', '\r', '\U{001C}', '\U{001D}', '\U{001E}', '\U{001F}', ' ',
     '\U{0085}', '\U{00A0}', '\U{1680}', '\U{2000}', '\U{2001}', '\U{2002}', '\U{2003}', '\U{2004}',
     '\U{2005}', '\U{2006}', '\U{2007}', '\U{2008}', '\U{2009}', '\U{200A}', '\U{2028}', '\U{2029}',
     '\U{202F}', '\U{205F}', '\U{3000}'}

  /** Python's `s.lstrip(cs)`: drops the longest prefix made of characters in `cs`. */
  function StripLeft(s: string, cs: set<char>): (r: string)
    ensures |r| <= |s| && r == s[|s| - |r|..]
    ensures forall k :: 0 <= k < |s| - |r| ==> s[k] in cs
    ensures |r| > 0 ==> r[0] !in cs
    decreases |s|
  {
    if |s| > 0 && s[0] in cs then StripLeft(s[1..], cs) else s
  }

  /** Python's `s.rstrip(cs)`: drops the longest suffix made of characters in `cs`. */
  function StripRight(s: string, cs: set<char>): (r: string)
    ensures |r| <= |s| && r == s[..|r|]
    ensures forall k :: |r| <= k < |s| ==> s[k] in cs
    ensures |r| > 0 ==> r[|r| - 1] !in cs
    decreases |s|
  {
    if |s| > 0 && s[|s| - 1] in cs then StripRight(s[..|s| - 1], cs) else s
  }

  /** `r` is `s[i..j]`, and everything of `s` outside that slice is in `cs`. */
  predicate StrippedSlice(s: string, r: string, cs: set<char>, i: int, j: int) {
    && 0 <= i <= j <= |s| && r == s[i..j]
    && (forall k :: 0 <= k < i ==> s[k] in cs)
    && (forall k :: j <= k < |s| ==> s[k] in cs)
  }

  /** Python's `s.strip(cs)`: the slice of `s` left once both runs of `cs` characters are dropped. */
  function Strip(s: string, cs: set<char>): (r: string)
    ensures exists i, j :: StrippedSlice(s, r, cs, i, j)
    ensures |r| > 0 ==> r[0] !in cs && r[|r| - 1] !in cs
    ensures r == "" <==> forall k :: 0 <= k < |s| ==> s[k] in cs
  {
    StripSlice(s, cs);
    StripEmpty(s, cs);
    var l := StripLeft(s, cs);
    var r := StripRight(l, cs);
    assert |r| > 0 ==> r[0] == l[0];
    r
  }

  /** `rstrip` after `lstrip` leaves the slice `s[i..i + |r|]`, where `i` is what `lstrip` dropped. */
  lemma StripSlice(s: string, cs: set<char>)
    ensures var l := StripLeft(s, cs);
            var r := StripRight(l, cs);
            StrippedSlice(s, r, cs, |s| - |l|, |s| - |l| + |r|)
  {
    StripSliceBounds(s, cs);
    StripTail(s, cs);
  }

  lemma StripSliceBounds(s: string, cs: set<char>)
    ensures var l := StripLeft(s, cs);
            var r := StripRight(l, cs);
            r == s[|s| - |l|..|s| - |l| + |r|]
  {
  }

  lemma StripTail(s: string, cs: set<char>)
    ensures var l := StripLeft(s, cs);
            var r := StripRight(l, cs);
            forall k :: |s| - |l| + |r| <= k < |s| ==> s[k] in cs
  {
    var l := StripLeft(s, cs);
    var r := StripRight(l, cs);
    var i := |s| - |l|;
    assert l == s[i..];
    assert forall k :: |r| <= k < |l| ==> l[k] in cs;
    forall k | i + |r| <= k < |s| ensures s[k] in cs {
      assert s[k] == l[k - i];
    }
  }

  lemma StripEmpty(s: string, cs: set<char>)
    ensures var l := StripLeft(s, cs);
            var r := StripRight(l, cs);
            r == "" <==> forall k :: 0 <= k < |s| ==> s[k] in cs
  {
    var l := StripLeft(s, cs);
    var r := StripRight(l, cs);
    if r == "" {
      assert l == "";
    }
  }

  function LowerChar(c: char): char {
    if 'A' <= c <= 'Z' then (c as int + 32) as char else c
  }

  /** Python's `s.lower()` on the ASCII letters. */
  function Lower(s: string): string {
    if |s| == 0 then "" else [LowerChar(s[0])] + Lower(s[1..])
  }

  /** Two strings that differ only in the case of ASCII letters. */
  predicate EqualIgnoringCase(a: string, b: string) {
    |a| == |b| && forall i :: 0 <= i < |a| ==> LowerChar(a[i]) == LowerChar(b[i])
  }

  /** `lower()` identifies exactly the strings that differ only in letter case. */
  lemma {:induction false} LowerIdentifiesCase(a: string, b: string)
    ensures EqualIgnoringCase(a, b) <==> Lower(a) == Lower(b)
    decreases |a|
  {
    LowerLength(a);
    LowerLength(b);
    if |a| > 0 && |b| > 0 {
      LowerIdentifiesCase(a[1..], b[1..]);
      if Lower(a) == Lower(b) {
        assert Lower(a)[0] == LowerChar(a[0]) && Lower(b)[0] == LowerChar(b[0]);
        assert Lower(a[1..]) == Lower(a)[1..] && Lower(b[1..]) == Lower(b)[1..];
        forall i | 0 <= i < |a| ensures LowerChar(a[i]) == LowerChar(b[i]) {
          if i > 0 {
            assert a[1..][i - 1] == a[i] && b[1..][i - 1] == b[i];
          }
        }
      }
      if EqualIgnoringCase(a, b) {
        assert EqualIgnoringCase(a[1..], b[1..]) by {
          forall i | 0 <= i < |a| - 1 ensures LowerChar(a[1..][i]) == LowerChar(b[1..][i]) {
            assert a[1..][i] == a[i + 1] && b[1..][i] == b[i + 1];
          }
        }
      }
    }
  }

  lemma {:induction false} LowerLength(s: string)
    ensures |Lower(s)| == |s|
    decreases |s|
  {
    if |s| > 0 {
      LowerLength(s[1..]);
    }
  }

  /** Lower-casing twice is lower-casing once. */
  lemma {:induction false} LowerIdempotent(s: string)
    ensures Lower(Lower(s)) == Lower(s)
    decreases |s|
  {
    if |s| > 0 {
      LowerIdempotent(s[1..]);
      assert Lower(s)[1..] == Lower(s[1..]);
    }
  }
}
