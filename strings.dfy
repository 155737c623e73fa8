/**
 * The few JavaScript string operations the views use: `includes`,
 * `split(' ')[0]` and `replace` with a string pattern.
 */
module Strings {

  /** `term` sits in `s` starting at index `i`. */
  ghost predicate OccursAt(term: string, s: string, i: int) {
    0 <= i && i + |term| <= |s| && s[i..i + |term|] == term
  }

  ghost predicate Occurs(term: string, s: string) {
    exists i :: OccursAt(term, s, i)
  }

  /** `s.includes(term)`: true exactly when `term` occurs somewhere in `s`. */
  function Includes(s: string, term: string): (r: bool)
    ensures r <==> Occurs(term, s)
    decreases |s|
  {
    if |term| <= |s| && s[..|term|] == term then
      assert OccursAt(term, s, 0);
      true
    else if s == [] then
      false
    else
      var r := Includes(s[1..], term);
      assert Occurs(term, s[1..]) ==> Occurs(term, s) by {
        if Occurs(term, s[1..]) {
          var i :| OccursAt(term, s[1..], i);
          assert s[i + 1..i + 1 + |term|] == s[1..][i..i + |term|];
          assert OccursAt(term, s, i + 1);
        }
      }
      assert Occurs(term, s) ==> Occurs(term, s[1..]) by {
        if Occurs(term, s) {
          var i :| OccursAt(term, s, i);
          assert i != 0;
          assert s[1..][i - 1..i - 1 + |term|] == s[i..i + |term|];
          assert OccursAt(term, s[1..], i - 1);
        }
      }
      r
  }

  /** An occurrence of an occurrence is an occurrence. */
  lemma OccursTransitive(a: string, b: string, c: string)
    requires Occurs(a, b) && Occurs(b, c)
    ensures Occurs(a, c)
  {
    var i :| OccursAt(a, b, i);
    var j :| OccursAt(b, c, j);
    forall k | 0 <= k < |a|
      ensures c[j + i + k] == a[k]
    {
      assert a[k] == b[i..i + |a|][k] == b[i + k];
      assert b[i + k] == c[j..j + |b|][i + k];
    }
    assert c[j + i..j + i + |a|] == a;
    assert OccursAt(a, c, j + i);
  }

  /** The empty string occurs in every string. */
  lemma EmptyOccurs(s: string)
    ensures Includes(s, "")
  {
    assert OccursAt("", s, 0);
  }

  /**
   * `s.split(' ')[0]`: everything before the first space, or all of `s`
   * when it has no space.
   */
  function FirstWord(s: string): (r: string)
    ensures r <= s
    ensures ' ' !in r
    ensures |r| < |s| ==> s[|r|] == ' '
  {
    if s == [] || s[0] == ' ' then [] else [s[0]] + FirstWord(s[1..])
  }

  /** `pat` occurs at `i` and at no earlier position. */
  ghost predicate FirstOccurrenceAt(pat: string, s: string, i: int) {
    OccursAt(pat, s, i) && forall j :: 0 <= j < i ==> !OccursAt(pat, s, j)
  }

  /** The index of the first occurrence of `pat` in `s`, if any. */
  function IndexOf(s: string, pat: string): (r: int)
    ensures r == -1 <==> !Occurs(pat, s)
    ensures r != -1 ==> OccursAt(pat, s, r) && forall j :: 0 <= j < r ==> !OccursAt(pat, s, j)
    decreases |s|
  {
    if |pat| <= |s| && s[..|pat|] == pat then
      assert OccursAt(pat, s, 0);
      0
    else if s == [] then
      -1
    else
      var k := IndexOf(s[1..], pat);
      forall j | 1 <= j <= |s| - |pat|
        ensures OccursAt(pat, s, j) <==> OccursAt(pat, s[1..], j - 1)
      {
        assert s[1..][j - 1..j - 1 + |pat|] == s[j..j + |pat|];
      }
      assert !OccursAt(pat, s, 0);
      if k == -1 then
        -1
      else
        assert OccursAt(pat, s, k + 1);
        k + 1
  }

  /**
   * `s.replace(pat, rep)` with a string pattern: only the FIRST occurrence
   * of `pat` is replaced, and `s` is returned unchanged when there is none.
   */
  function ReplaceFirst(s: string, pat: string, rep: string): (r: string)
    ensures !Occurs(pat, s) ==> r == s
    ensures Occurs(pat, s) ==> exists i :: FirstOccurrenceAt(pat, s, i) && r == s[..i] + rep + s[i + |pat|..]
    ensures Occurs(pat, s) ==> |r| == |s| - |pat| + |rep|
  {
    var i := IndexOf(s, pat);
    if i == -1 then s
    else
      assert FirstOccurrenceAt(pat, s, i);
      s[..i] + rep + s[i + |pat|..]
  }
}
