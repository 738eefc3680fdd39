/**
 * The Python `str` operations the extraction uses -- `find`, `rfind`,
 * slicing `s[lo:hi]` with its clamping of out-of-range bounds, and
 * `strip()` -- each proved against a specification of what it returns.
 */
module PyStr {

  /** `pat` occurs in `s` starting at index `i`. */
  predicate OccursAt(s: string, pat: string, i: int) {
    0 <= i && i + |pat| <= |s| && s[i..i + |pat|] == pat
  }

  ghost predicate Contains(s: string, pat: string) {
    exists i :: OccursAt(s, pat, i)
  }

  /** `i` is the lowest index at which `pat` occurs in `s`. */
  ghost predicate IsFirstOccurrence(s: string, pat: string, i: int) {
    OccursAt(s, pat, i) && forall j :: 0 <= j < i ==> !OccursAt(s, pat, j)
  }

  /** `i` is the highest index at which `pat` occurs in `s`. */
  ghost predicate IsLastOccurrence(s: string, pat: string, i: int) {
    OccursAt(s, pat, i) && forall j :: i < j ==> !OccursAt(s, pat, j)
  }

  /** The lowest occurrence of `pat` at an index `>= i`, or -1. */
  function FindFrom(s: string, pat: string, i: nat): (r: int)
    requires i <= |s|
    ensures r == -1 || (i <= r && OccursAt(s, pat, r))
    ensures r == -1 ==> forall j :: i <= j ==> !OccursAt(s, pat, j)
    ensures r != -1 ==> forall j :: i <= j < r ==> !OccursAt(s, pat, j)
    decreases |s| - i
  {
    if i + |pat| > |s| then -1
    else if OccursAt(s, pat, i) then i
    else FindFrom(s, pat, i + 1)
  }

  /** `s.find(pat)`: the lowest index at which `pat` occurs, or -1 when it does not occur. */
  function Find(s: string, pat: string): (r: int)
    ensures r == -1 <==> !Contains(s, pat)
    ensures r != -1 ==> IsFirstOccurrence(s, pat, r)
  {
    FindFrom(s, pat, 0)
  }

  /** The highest occurrence of `pat` at an index `< n`, or -1. */
  function RFindBelow(s: string, pat: string, n: nat): (r: int)
    ensures r == -1 || (r < n && OccursAt(s, pat, r))
    ensures r == -1 ==> forall j :: j < n ==> !OccursAt(s, pat, j)
    ensures r != -1 ==> forall j :: r < j < n ==> !OccursAt(s, pat, j)
  {
    if n == 0 then -1
    else if OccursAt(s, pat, n - 1) then n - 1
    else RFindBelow(s, pat, n - 1)
  }

  /** `s.rfind(pat)`: the highest index at which `pat` occurs, or -1 when it does not occur. */
  function RFind(s: string, pat: string): (r: int)
    ensures r == -1 <==> !Contains(s, pat)
    ensures r != -1 ==> IsLastOccurrence(s, pat, r)
  {
    RFindBelow(s, pat, |s| + 1)
  }

  /** The first occurrence is unique, so `find` is determined by it. */
  lemma FindIsFirstOccurrence(s: string, pat: string, i: int)
    requires IsFirstOccurrence(s, pat, i)
    ensures Find(s, pat) == i
  {
    var r := Find(s, pat);
    assert r != -1;
    assert !(r < i) && !(i < r);
  }

  /** The last occurrence is unique, so `rfind` is determined by it. */
  lemma RFindIsLastOccurrence(s: string, pat: string, i: int)
    requires IsLastOccurrence(s, pat, i)
    ensures RFind(s, pat) == i
  {
    var r := RFind(s, pat);
    assert r != -1;
    assert !(r < i) && !(i < r);
  }

  /** A slice bound as Python normalises it: negative bounds count from the end, then clamp to `[0, n]`. */
  function ClampIndex(i: int, n: nat): (k: nat)
    ensures k <= n
    ensures 0 <= i <= n ==> k == i
  {
    if i < 0 then (if i + n < 0 then 0 else i + n)
    else if i > n then n
    else i
  }

  /** `s[lo:hi]`: never fails; out-of-range bounds are clamped and crossed bounds give "". */
  function Slice(s: string, lo: int, hi: int): (r: string)
    ensures 0 <= lo <= hi <= |s| ==> r == s[lo..hi]
    ensures 0 <= hi <= lo ==> r == []
  {
    var a := ClampIndex(lo, |s|);
    var b := ClampIndex(hi, |s|);
    if a < b then s[a..b] else []
  }

  /** `c.isspace()`: the code points CPython's `str.strip()` removes. */
  predicate IsSpace(c: char) {
    var n := c as int;
    (0x09 <= n <= 0x0D) || (0x1C <= n <= 0x20) || n == 0x85 || n == 0xA0 || n == 0x1680
    || (0x2000 <= n <= 0x200A) || n == 0x2028 || n == 0x2029 || n == 0x202F || n == 0x205F
    || n == 0x3000
  }

  /** Neither the first nor the last character of `s` is whitespace. */
  predicate NoEdgeSpace(s: string) {
    s == [] || (!IsSpace(s[0]) && !IsSpace(s[|s| - 1]))
  }

  /** `r` is `s[a..a + |r|]`, everything of `s` before and after it is whitespace, and `r` has none at its ends. */
  predicate StrippedAt(s: string, r: string, a: int) {
    && 0 <= a && a + |r| <= |s|
    && r == s[a..a + |r|]
    && (forall k :: 0 <= k < a ==> IsSpace(s[k]))
    && (forall k :: a + |r| <= k < |s| ==> IsSpace(s[k]))
    && NoEdgeSpace(r)
  }

  /** The specification of `strip()`: a contiguous middle part, whitespace around it and none at its ends. */
  ghost predicate IsStripOf(s: string, r: string) {
    exists a :: StrippedAt(s, r, a)
  }

  /** `s.lstrip()` */
  function LStrip(s: string): (r: string)
    ensures |r| <= |s| && r == s[|s| - |r|..]
    ensures forall k :: 0 <= k < |s| - |r| ==> IsSpace(s[k])
    ensures r == [] || !IsSpace(r[0])
  {
    if |s| > 0 && IsSpace(s[0]) then
      var r := LStrip(s[1..]);
      assert s[1..][|s| - 1 - |r|..] == s[|s| - |r|..];
      assert forall k :: 1 <= k < |s| - |r| ==> s[1..][k - 1] == s[k];
      r
    else s
  }

  /** `s.rstrip()` */
  function RStrip(s: string): (r: string)
    ensures |r| <= |s| && r == s[..|r|]
    ensures forall k :: |r| <= k < |s| ==> IsSpace(s[k])
    ensures r == [] || !IsSpace(r[|r| - 1])
  {
    if |s| > 0 && IsSpace(s[|s| - 1]) then
      var r := RStrip(s[..|s| - 1]);
      assert s[..|s| - 1][..|r|] == s[..|r|];
      assert forall k :: |r| <= k < |s| - 1 ==> s[..|s| - 1][k] == s[k];
      r
    else s
  }

  /** Removing a leading whitespace run to get `l`, then a trailing one from `l` to get `r`,
      strips `s`. */
  lemma StrippedInTwoSteps(s: string, l: string, r: string)
    requires |l| <= |s| && l == s[|s| - |l|..]
    requires forall k :: 0 <= k < |s| - |l| ==> IsSpace(s[k])
    requires l == [] || !IsSpace(l[0])
    requires |r| <= |l| && r == l[..|r|]
    requires forall k :: |r| <= k < |l| ==> IsSpace(l[k])
    requires r == [] || !IsSpace(r[|r| - 1])
    ensures StrippedAt(s, r, |s| - |l|)
  {
    var a := |s| - |l|;
    assert r == s[a..a + |r|];
    assert r == [] || r[0] == l[0];
    forall k | a + |r| <= k < |s|
      ensures IsSpace(s[k])
    {
      assert s[k] == l[k - a];
    }
  }

  /** `s.strip()` */
  function Strip(s: string): (r: string)
    ensures NoEdgeSpace(r)
    ensures IsStripOf(s, r)
  {
    var l := LStrip(s);
    var r := RStrip(l);
    StrippedInTwoSteps(s, l, r);
    r
  }

  /** Two candidates for the stripped form of the same string coincide. */
  lemma StrippedAtUnique(s: string, r1: string, a1: int, r2: string, a2: int)
    requires StrippedAt(s, r1, a1) && StrippedAt(s, r2, a2)
    ensures r1 == r2
  {
    if r1 != [] && r2 != [] {
      assert s[a1] == r1[0] && s[a2] == r2[0];
      var b1, b2 := a1 + |r1|, a2 + |r2|;
      assert s[b1 - 1] == r1[|r1| - 1] && s[b2 - 1] == r2[|r2| - 1];
    }
  }

  /** `strip()` is fully determined by its specification. */
  lemma StripUnique(s: string, r: string)
    requires IsStripOf(s, r)
    ensures r == Strip(s)
  {
    var a :| StrippedAt(s, r, a);
    var a' :| StrippedAt(s, Strip(s), a');
    StrippedAtUnique(s, r, a, Strip(s), a');
  }

  /** A string is left unchanged by `strip()` exactly when it has no whitespace at either end. */
  lemma StripFixpoint(s: string)
    ensures Strip(s) == s <==> NoEdgeSpace(s)
  {
    if NoEdgeSpace(s) {
      assert StrippedAt(s, s, 0);
      StripUnique(s, s);
    } else {
      var a :| StrippedAt(s, Strip(s), a);
    }
  }

  /** Stripping twice is stripping once. */
  lemma StripIdempotent(s: string)
    ensures Strip(Strip(s)) == Strip(s)
    ensures NoEdgeSpace(Strip(s))
  {
    var a :| StrippedAt(s, Strip(s), a);
    StripFixpoint(Strip(s));
  }
}
