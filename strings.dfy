/**
 * The Python `str` operations the window-title and file-name logic relies on:
 * `startswith`, `endswith`, `in`, `split(sep)[0]`, `replace(old, "")` and
 * `strip()` with Python's semantics, and `lower()` on the ASCII letters only.
 */
module Strings {
  import opened Wrappers

  predicate StartsWith(s: string, p: string) {
    |p| <= |s| && s[..|p|] == p
  }

  predicate EndsWith(s: string, p: string) {
    |p| <= |s| && s[|s| - |p|..] == p
  }

  /** `p` occurs in `s` starting at index `i`. */
  predicate OccursAt(s: string, p: string, i: int) {
    0 <= i && i + |p| <= |s| && s[i..i + |p|] == p
  }

  /** The first index at or after `k` where `p` occurs (`s.find(p, k)`). */
  function IndexFrom(s: string, p: string, k: nat): (r: Option<nat>)
    decreases |s| - k
    ensures r.Some? ==> k <= r.value && OccursAt(s, p, r.value)
    ensures r.Some? ==> forall j :: k <= j < r.value ==> !OccursAt(s, p, j)
    ensures r.None? ==> forall j :: k <= j ==> !OccursAt(s, p, j)
  {
    if k + |p| > |s| then None
    else if s[k..k + |p|] == p then Some(k)
    else IndexFrom(s, p, k + 1)
  }

  function IndexOf(s: string, p: string): Option<nat> {
    IndexFrom(s, p, 0)
  }

  /** Python's `p in s`. */
  predicate Contains(s: string, p: string) {
    IndexOf(s, p).Some?
  }

  lemma ContainsAt(s: string, p: string, i: int)
    requires OccursAt(s, p, i)
    ensures Contains(s, p)
  {
  }

  /** An occurrence with none before it is the one `find` reports. */
  lemma {:induction false} IndexFromIs(s: string, p: string, k: nat, i: nat)
    requires k <= i && OccursAt(s, p, i)
    requires forall j :: k <= j < i ==> !OccursAt(s, p, j)
    ensures IndexFrom(s, p, k) == Some(i)
    decreases i - k
  {
    if k < i {
      assert !OccursAt(s, p, k);
      IndexFromIs(s, p, k + 1, i);
    }
  }

  /** `s.split(sep)[0]`: the text before the first occurrence of `sep`, or all of `s`. */
  function Before(s: string, sep: string): (r: string)
    requires |sep| > 0
    ensures StartsWith(s, r)
    ensures !Contains(s, sep) ==> r == s
    ensures Contains(s, sep) ==> StartsWith(s, r + sep) && !Contains(r, sep)
  {
    match IndexOf(s, sep)
    case None => s
    case Some(i) =>
      var r := s[..i];
      assert r + sep == s[..i + |sep|];
      assert !Contains(r, sep) by {
        forall j | 0 <= j ensures !OccursAt(r, sep, j) {
          if OccursAt(r, sep, j) {
            assert s[j..j + |sep|] == r[j..j + |sep|];
            assert OccursAt(s, sep, j);
          }
        }
      }
      r
  }

  /**
   * `s.replace(pat, rep)` for a non-empty `pat`: occurrences are replaced left
   * to right and do not overlap.
   */
  function ReplaceAll(s: string, pat: string, rep: string): (r: string)
    requires |pat| > 0
    decreases |s|
    ensures rep == "" ==> |r| <= |s|
  {
    if |s| < |pat| then s
    else if s[..|pat|] == pat then rep + ReplaceAll(s[|pat|..], pat, rep)
    else [s[0]] + ReplaceAll(s[1..], pat, rep)
  }

  /** A string without the pattern is left untouched by `replace`. */
  lemma {:induction false} ReplaceAllAbsent(s: string, pat: string, rep: string)
    requires |pat| > 0 && !Contains(s, pat)
    ensures ReplaceAll(s, pat, rep) == s
  {
    if |s| >= |pat| {
      assert !OccursAt(s, pat, 0);
      assert !Contains(s[1..], pat) by {
        forall j | 0 <= j ensures !OccursAt(s[1..], pat, j) {
          if OccursAt(s[1..], pat, j) {
            assert s[1..][j..j + |pat|] == s[j + 1..j + 1 + |pat|];
            assert OccursAt(s, pat, j + 1);
          }
        }
      }
      ReplaceAllAbsent(s[1..], pat, rep);
    }
  }

  /** A prefix in which no occurrence of `pat` starts is copied unchanged. */
  lemma {:induction false} ReplaceAllSkip(s: string, pat: string, rep: string, i: nat)
    requires |pat| > 0 && i <= |s|
    requires forall j :: 0 <= j < i ==> !OccursAt(s, pat, j)
    ensures ReplaceAll(s, pat, rep) == s[..i] + ReplaceAll(s[i..], pat, rep)
  {
    if i > 0 {
      if |s| < |pat| {
        assert s == s[..i] + s[i..];
      } else {
        assert !OccursAt(s, pat, 0);
        forall j | 0 <= j < i - 1 ensures !OccursAt(s[1..], pat, j) {
          assert !OccursAt(s, pat, j + 1);
          if j + |pat| <= |s| - 1 {
            assert s[1..][j..j + |pat|] == s[j + 1..j + 1 + |pat|];
          }
        }
        ReplaceAllSkip(s[1..], pat, rep, i - 1);
        assert s[1..][i - 1..] == s[i..];
        assert s[..i] == [s[0]] + s[1..][..i - 1];
      }
    }
  }

  /** `s.replace(pat, "")`: every occurrence deleted. */
  function RemoveAll(s: string, pat: string): (r: string)
    requires |pat| > 0
    ensures |r| <= |s|
  {
    ReplaceAll(s, pat, "")
  }

  /** Removing a pattern that occurs deletes at least one copy of it. */
  lemma RemoveAllShortens(s: string, pat: string)
    requires |pat| > 0 && Contains(s, pat)
    ensures |RemoveAll(s, pat)| + |pat| <= |s|
  {
    var i := IndexOf(s, pat).value;
    ReplaceAllSkip(s, pat, "", i);
    var t := s[i..];
    assert t[..|pat|] == s[i..i + |pat|] == pat;
    assert ReplaceAll(t, pat, "") == ReplaceAll(t[|pat|..], pat, "");
  }

  /** `str.lower()` on the ASCII letters. */
  function LowerChar(c: char): char {
    if 'A' <= c <= 'Z' then (c as int + 32) as char else c
  }

  function Lower(s: string): (r: string)
    ensures |r| == |s|
  {
    seq(|s|, i requires 0 <= i < |s| => LowerChar(s[i]))
  }

  /** The characters Python's `str.isspace()` accepts, which `str.strip()` removes. */
  predicate IsSpace(c: char) {
    c == ' ' || '\t' <= c <= '\r' || '\U{1c}' <= c <= '\U{1f}'
    || c == '\U{85}' || c == '\U{a0}' || c == '\U{1680}' || '\U{2000}' <= c <= '\U{200a}'
    || c == '\U{2028}' || c == '\U{2029}' || c == '\U{202f}' || c == '\U{205f}' || c == '\U{3000}'
  }

  function TrimStart(s: string): (r: string)
    ensures |r| <= |s| && r == s[|s| - |r|..]
    ensures r == [] || !IsSpace(r[0])
    ensures forall i :: 0 <= i < |s| - |r| ==> IsSpace(s[i])
  {
    if |s| > 0 && IsSpace(s[0]) then TrimStart(s[1..]) else s
  }

  function TrimEnd(s: string): (r: string)
    ensures |r| <= |s| && r == s[..|r|]
    ensures r == [] || !IsSpace(r[|r| - 1])
    ensures forall i :: |r| <= i < |s| ==> IsSpace(s[i])
  {
    if |s| > 0 && IsSpace(s[|s| - 1]) then TrimEnd(s[..|s| - 1]) else s
  }

  /** `str.strip()`: drop the leading and trailing whitespace. */
  function Strip(s: string): (r: string)
    ensures |r| <= |s|
    ensures r == [] || (!IsSpace(r[0]) && !IsSpace(r[|r| - 1]))
  {
    var t := TrimStart(s);
    var r := TrimEnd(t);
    assert r != [] ==> r[0] == t[0];
    r
  }

  /** `strip()` removes whitespace only: what remains is a contiguous slice of the input. */
  lemma StripRemovesOnlySpace(s: string)
    ensures var k, r := |s| - |TrimStart(s)|, Strip(s);
      && k + |r| <= |s| && r == s[k..k + |r|]
      && (forall i :: 0 <= i < k ==> IsSpace(s[i]))
      && (forall i :: k + |r| <= i < |s| ==> IsSpace(s[i]))
  {
    StripIsSlice(s);
    StripTrailingSpace(s);
  }

  lemma StripIsSlice(s: string)
    ensures var k, r := |s| - |TrimStart(s)|, Strip(s);
      k + |r| <= |s| && r == s[k..k + |r|]
  {
    var t := TrimStart(s);
    SliceOfSuffix(s, |s| - |t|, |TrimEnd(t)|);
  }

  lemma StripTrailingSpace(s: string)
    ensures var k, r := |s| - |TrimStart(s)|, Strip(s);
      forall i :: k + |r| <= i < |s| ==> IsSpace(s[i])
  {
    var t := TrimStart(s);
    var k := |s| - |t|;
    ShiftedAll(s, k, |TrimEnd(t)|, IsSpace);
  }

  /** A property of every element of a suffix from index `lo` on holds of the whole sequence from `k + lo` on. */
  lemma ShiftedAll<T>(s: seq<T>, k: nat, lo: nat, p: T -> bool)
    requires k <= |s| && forall i :: lo <= i < |s| - k ==> p(s[k..][i])
    ensures forall i :: k + lo <= i < |s| ==> p(s[i])
  {
    forall i | k + lo <= i < |s| ensures p(s[i]) {
      assert s[i] == s[k..][i - k];
    }
  }

  /** A prefix of a suffix is a middle slice. */
  lemma SliceOfSuffix<T>(s: seq<T>, k: nat, m: nat)
    requires k + m <= |s|
    ensures s[k..][..m] == s[k..k + m]
  {
  }
}
