/**
 * The two Python string operations the cleaners rely on:
 * `str.strip()` with no argument, and `str.replace(old, "")`.
 */
module Strings {

  /** Python's `str.isspace()` for one character: the characters `str.strip()` removes. */
  predicate IsSpace(c: char) {
    ('\t' <= c <= '\r') || ('\U{1C}' <= c <= '\U{1F}') || c == ' ' ||
    c == '\U{85}' || c == '\U{A0}' || c == '\U{1680}' ||
    ('\U{2000}' <= c <= '\U{200A}') || c == '\U{2028}' || c == '\U{2029}' ||
    c == '\U{202F}' || c == '\U{205F}' || c == '\U{3000}'
  }

  predicate AllSpace(s: string) {
    forall i :: 0 <= i < |s| ==> IsSpace(s[i])
  }

  /** `s.lstrip()` */
  function TrimStart(s: string): string
    decreases |s|
  {
    if |s| > 0 && IsSpace(s[0]) then TrimStart(s[1..]) else s
  }

  /** `s.rstrip()` */
  function TrimEnd(s: string): string
    decreases |s|
  {
    if |s| > 0 && IsSpace(s[|s| - 1]) then TrimEnd(s[..|s| - 1]) else s
  }

  /** `s.strip()`: never longer than `s`, and with no whitespace at either end. */
  function Strip(s: string): (r: string)
    ensures |r| <= |s|
    ensures r == [] || (!IsSpace(r[0]) && !IsSpace(r[|r| - 1]))
  {
    var t := TrimStart(s);
    TrimStartIsSuffix(s);
    TrimEndIsPrefix(t);
    assert TrimEnd(t) != [] ==> TrimEnd(t)[0] == t[0];
    TrimEnd(t)
  }

  /** TrimStart drops exactly the leading run of whitespace. */
  lemma {:induction false} TrimStartIsSuffix(s: string)
    ensures |TrimStart(s)| <= |s|
    ensures TrimStart(s) == s[|s| - |TrimStart(s)|..]
    ensures AllSpace(s[..|s| - |TrimStart(s)|])
    ensures TrimStart(s) == [] || !IsSpace(TrimStart(s)[0])
    decreases |s|
  {
    if |s| > 0 && IsSpace(s[0]) {
      TrimStartIsSuffix(s[1..]);
      var k := |s| - |TrimStart(s)|;
      assert s[1..][k - 1..] == s[k..];
      assert s[..k] == [s[0]] + s[1..][..k - 1];
    } else {
      assert s[..0] == [];
    }
  }

  /** TrimEnd drops exactly the trailing run of whitespace. */
  lemma {:induction false} TrimEndIsPrefix(s: string)
    ensures |TrimEnd(s)| <= |s|
    ensures TrimEnd(s) == s[..|TrimEnd(s)|]
    ensures AllSpace(s[|TrimEnd(s)|..])
    ensures TrimEnd(s) == [] || !IsSpace(TrimEnd(s)[|TrimEnd(s)| - 1])
    decreases |s|
  {
    if |s| > 0 && IsSpace(s[|s| - 1]) {
      var u := s[..|s| - 1];
      TrimEndIsPrefix(u);
      var m := |TrimEnd(s)|;
      assert u[..m] == s[..m];
      assert s[m..] == u[m..] + [s[|s| - 1]];
    } else {
      assert s[|s|..] == [];
    }
  }

  /**
   * `s[i..j]` is what is left of `s` once the whitespace runs at both ends
   * are cut off: everything outside it is whitespace, and it neither starts
   * nor ends with whitespace.
   */
  predicate IsInnerSlice(s: string, i: int, j: int) {
    0 <= i <= j <= |s| &&
    AllSpace(s[..i]) && AllSpace(s[j..]) &&
    (i < j ==> !IsSpace(s[i]) && !IsSpace(s[j - 1]))
  }

  /** `strip()` keeps the slice between the leading and trailing whitespace runs. */
  lemma StripIsInnerSlice(s: string)
    ensures exists i, j :: IsInnerSlice(s, i, j) && Strip(s) == s[i..j]
  {
    var t := TrimStart(s);
    TrimStartIsSuffix(s);
    TrimEndIsPrefix(t);
    var r := TrimEnd(t);
    var i := |s| - |t|;
    var j := i + |r|;
    assert s[i..j] == t[..|r|];
    assert s[j..] == t[|r|..];
    if i < j {
      assert r[0] == t[0];
    }
    assert Strip(s) == r;
    assert Strip(s) == s[i..j];
    assert AllSpace(s[..i]) && AllSpace(s[j..]);
    assert IsInnerSlice(s, i, j);
  }

  /** Stripping an already stripped string changes nothing. */
  lemma StripIdempotent(s: string)
    ensures Strip(Strip(s)) == Strip(s)
  {
    var r := Strip(s);
    assert TrimStart(r) == r;
    assert TrimEnd(r) == r;
  }

  /** `strip()` yields the empty string exactly when the input is all whitespace. */
  lemma StripEmptyIffBlank(s: string)
    ensures Strip(s) == [] <==> AllSpace(s)
  {
    var t := TrimStart(s);
    TrimStartIsSuffix(s);
    TrimEndIsPrefix(t);
    assert t != [] ==> t[0] == s[|s| - |t|];
    if Strip(s) == [] {
      assert t == t[0..];
      assert s == s[..|s| - |t|] + t;
    }
  }

  /** `r` is `s` with some of its characters deleted and the others kept in order. */
  predicate Subseq(r: string, s: string)
    decreases |s|
  {
    r == [] || (s != [] && ((r[0] == s[0] && Subseq(r[1..], s[1..])) || Subseq(r, s[1..])))
  }

  /** Characters put in front of `t` can all be among the deleted ones. */
  lemma {:induction false} SubseqOfLonger(r: string, u: string, t: string)
    requires Subseq(r, t)
    ensures Subseq(r, u + t)
    decreases |u|
  {
    if u != [] {
      SubseqOfLonger(r, u[1..], t);
      assert (u + t)[1..] == u[1..] + t;
      assert Subseq(r, (u + t)[1..]);
    } else {
      assert u + t == t;
    }
  }

  lemma {:induction false} SubseqRefl(s: string)
    ensures Subseq(s, s)
    decreases |s|
  {
    if s != [] {
      SubseqRefl(s[1..]);
    }
  }

  /**
   * The left-to-right scan behind `s.replace(pat, "")`: at each position,
   * an occurrence of `pat` is deleted and the scan resumes after it;
   * otherwise one character is kept.
   */
  function Scan(s: string, pat: string): string
    requires |pat| > 0
    decreases |s|
  {
    if |s| < |pat| then s
    else if s[..|pat|] == pat then Scan(s[|pat|..], pat)
    else [s[0]] + Scan(s[1..], pat)
  }

  /** The scan only deletes characters. */
  lemma {:induction false} ScanDeletes(s: string, pat: string)
    requires |pat| > 0
    ensures |Scan(s, pat)| <= |s|
    ensures multiset(Scan(s, pat)) <= multiset(s)
    ensures Subseq(Scan(s, pat), s)
    decreases |s|
  {
    if |s| < |pat| {
      SubseqRefl(s);
    } else if s[..|pat|] == pat {
      ScanDeletes(s[|pat|..], pat);
      assert s == s[..|pat|] + s[|pat|..];
      SubseqOfLonger(Scan(s[|pat|..], pat), s[..|pat|], s[|pat|..]);
    } else {
      ScanDeletes(s[1..], pat);
      assert s == [s[0]] + s[1..];
      var rest := Scan(s[1..], pat);
      assert ([s[0]] + rest)[1..] == rest;
    }
  }

  /**
   * `s.replace(pat, "")`: one left-to-right scan that deletes each
   * non-overlapping occurrence of `pat` it meets. It only deletes: what is
   * left is a subsequence of `s`.
   */
  function RemoveAll(s: string, pat: string): (r: string)
    requires |pat| > 0
    ensures |r| <= |s|
    ensures multiset(r) <= multiset(s)
    ensures Subseq(r, s)
  {
    ScanDeletes(s, pat);
    Scan(s, pat)
  }

  /** One step of the scan where the text does not start with the pattern: its first character is kept. */
  lemma RemoveAllKeepsHead(s: string, pat: string)
    requires |pat| > 0 && s != []
    requires !(|s| >= |pat| && s[..|pat|] == pat)
    ensures RemoveAll(s, pat) == [s[0]] + RemoveAll(s[1..], pat)
  {
    if |s| < |pat| {
      assert s == [s[0]] + s[1..];
    }
  }

  /** One step of the scan where the text starts with the pattern: that occurrence is deleted. */
  lemma RemoveAllDropsHead(s: string, pat: string)
    requires 0 < |pat| <= |s| && s[..|pat|] == pat
    ensures RemoveAll(s, pat) == RemoveAll(s[|pat|..], pat)
  {
  }

  /**
   * When the pattern's first character occurs nowhere else in it, an
   * occurrence cannot overlap another, so the scan deletes a given
   * occurrence and cleans the text on either side of it on its own.
   */
  lemma RemoveAllSplit(u: string, pat: string, t: string)
    requires |pat| > 0 && pat[0] !in pat[1..]
    ensures RemoveAll(u + pat + t, pat) == RemoveAll(u, pat) + RemoveAll(t, pat)
  {
    ScanSplit(u, pat, t);
  }

  lemma {:induction false} ScanSplit(u: string, pat: string, t: string)
    requires |pat| > 0 && pat[0] !in pat[1..]
    ensures Scan(u + pat + t, pat) == Scan(u, pat) + Scan(t, pat)
    decreases |u|
  {
    var s := u + pat + t;
    if u == [] {
      assert s[..|pat|] == pat && s[|pat|..] == t;
    } else if |u| >= |pat| && u[..|pat|] == pat {
      var rest := u[|pat|..];
      ScanSplit(rest, pat, t);
      DropLeadingPattern(u, pat, t);
    } else {
      var rest := u[1..];
      ScanSplit(rest, pat, t);
      PatternNotAtFront(u, pat, t);
      if |u| < |pat| {
        assert u == [u[0]] + rest;
      }
      var x, y := Scan(rest, pat), Scan(t, pat);
      assert [u[0]] + (x + y) == ([u[0]] + x) + y;
    }
  }

  lemma DropLeadingPattern(u: string, pat: string, t: string)
    requires |u| >= |pat| && u[..|pat|] == pat
    ensures var s := u + pat + t; s[..|pat|] == pat && s[|pat|..] == u[|pat|..] + pat + t
  {
    var s := u + pat + t;
    assert s[..|pat|] == u[..|pat|];
  }

  /**
   * A text that does not start with the pattern still does not once the
   * pattern is appended to it, if the pattern's first character occurs
   * nowhere else in it.
   */
  lemma PatternNotAtFront(u: string, pat: string, t: string)
    requires |pat| > 0 && pat[0] !in pat[1..]
    requires u != [] && !(|u| >= |pat| && u[..|pat|] == pat)
    ensures var s := u + pat + t;
      s[0] == u[0] && s[1..] == u[1..] + pat + t && !(|s| >= |pat| && s[..|pat|] == pat)
  {
    var s := u + pat + t;
    assert s[1..] == u[1..] + pat + t;
    if |u| >= |pat| {
      assert s[..|pat|] == u[..|pat|];
    } else {
      var k := |u|;
      assert s[k] == pat[0];
      assert pat[k] == pat[1..][k - 1];
      assert s[..|pat|][k] != pat[k];
    }
  }

  /** The characters of `s` other than `c`, in order. */
  function Without(s: string, c: char): (r: string)
    ensures c !in r
    ensures |r| <= |s|
    ensures Subseq(r, s)
    decreases |s|
  {
    if s == [] then []
    else if s[0] == c then Without(s[1..], c)
    else
      var rest := Without(s[1..], c);
      assert ([s[0]] + rest)[1..] == rest;
      [s[0]] + rest
  }

  /** `pat` stands in `s` starting at index `i`. */
  predicate MatchesAt(pat: string, s: string, i: int) {
    0 <= i && i + |pat| <= |s| && s[i..i + |pat|] == pat
  }

  predicate Occurs(pat: string, s: string) {
    exists i :: 0 <= i <= |s| && MatchesAt(pat, s, i)
  }

  /** Replacing a one-character pattern deletes every occurrence of that character and keeps the rest in order. */
  lemma {:induction false} RemoveCharIsWithout(s: string, c: char)
    ensures RemoveAll(s, [c]) == Without(s, c)
    decreases |s|
  {
    if |s| >= 1 {
      RemoveCharIsWithout(s[1..], c);
      assert s[..1] == [s[0]];
    }
  }

  /** A string that does not contain the pattern comes back unchanged. */
  lemma {:induction false} RemoveAllAbsent(s: string, pat: string)
    requires |pat| > 0
    requires !Occurs(pat, s)
    ensures RemoveAll(s, pat) == s
    decreases |s|
  {
    if |s| >= |pat| {
      assert s[0..|pat|] == s[..|pat|];
      assert !MatchesAt(pat, s, 0);
      forall i | 0 <= i && i + |pat| <= |s| - 1
        ensures !MatchesAt(pat, s[1..], i)
      {
        assert s[1..][i..i + |pat|] == s[i + 1..i + 1 + |pat|];
        assert !MatchesAt(pat, s, i + 1);
      }
      RemoveAllAbsent(s[1..], pat);
      assert s == [s[0]] + s[1..];
    }
  }

  /** Deleting a character that does not occur changes nothing. */
  lemma {:induction false} WithoutAbsent(s: string, c: char)
    requires c !in s
    ensures Without(s, c) == s
    decreases |s|
  {
    if s != [] {
      WithoutAbsent(s[1..], c);
      assert s == [s[0]] + s[1..];
    }
  }

  /** Deleting `c` from a string made only of `c` leaves nothing. */
  lemma {:induction false} WithoutOnly(s: string, c: char)
    requires forall i :: 0 <= i < |s| ==> s[i] == c
    ensures Without(s, c) == []
    decreases |s|
  {
    if s != [] {
      WithoutOnly(s[1..], c);
    }
  }

  /** A pattern can only occur in `[c] + t` at the front or inside `t`. */
  lemma OccursAfterHead(pat: string, c: char, t: string)
    requires |pat| > 0 && pat[0] != c
    requires !Occurs(pat, t)
    ensures !Occurs(pat, [c] + t)
  {
    var s := [c] + t;
    forall i | 0 <= i && i + |pat| <= |s|
      ensures !MatchesAt(pat, s, i)
    {
      if i == 0 {
        assert s[i..i + |pat|][0] == c;
      } else {
        assert t[i - 1..i - 1 + |pat|] == s[i..i + |pat|];
        assert !MatchesAt(pat, t, i - 1);
      }
    }
  }
}
