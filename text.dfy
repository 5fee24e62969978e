/**
 * The two operations on Python strings that the core relies on:
 * the substring test `pat in s` and `s.endswith(suffix)`. Both are
 * case-sensitive and compare characters exactly.
 */
module Text {

  /** `pat` occurs in `s` starting at position `i`. */
  predicate OccursAt(s: string, pat: string, i: int)
  {
    0 <= i && i + |pat| <= |s| && s[i..i + |pat|] == pat
  }

  /** Python's `pat in s`: scan `s` from the left for a position where `pat` starts. */
  function Contains(s: string, pat: string): (r: bool)
    ensures pat == [] ==> r
    ensures r ==> |pat| <= |s|
    decreases |s|
  {
    pat <= s || (|s| > 0 && Contains(s[1..], pat))
  }

  /** Every occurrence is found by the scan. */
  lemma {:induction false} OccurrenceIsFound(s: string, pat: string, i: int)
    requires OccursAt(s, pat, i)
    ensures Contains(s, pat)
    decreases i
  {
    if i == 0 {
      assert s[..|pat|] == s[0..|pat|];
    } else {
      assert s[1..][i - 1..i - 1 + |pat|] == s[i..i + |pat|];
      OccurrenceIsFound(s[1..], pat, i - 1);
    }
  }

  /** Whatever the scan finds is an occurrence. */
  lemma {:induction false} FoundIsOccurrence(s: string, pat: string)
    requires Contains(s, pat)
    ensures exists i :: OccursAt(s, pat, i)
    decreases |s|
  {
    if pat <= s {
      assert OccursAt(s, pat, 0);
    } else {
      FoundIsOccurrence(s[1..], pat);
      var j :| OccursAt(s[1..], pat, j);
      assert s[1..][j..j + |pat|] == s[j + 1..j + 1 + |pat|];
      assert OccursAt(s, pat, j + 1);
    }
  }

  /** The scan agrees with the positional definition, in both directions. */
  lemma ContainsIff(s: string, pat: string)
    ensures Contains(s, pat) <==> exists i :: OccursAt(s, pat, i)
  {
    if Contains(s, pat) {
      FoundIsOccurrence(s, pat);
    }
    forall i | OccursAt(s, pat, i) ensures Contains(s, pat) {
      OccurrenceIsFound(s, pat, i);
    }
  }

  /** An occurrence in either part of a concatenation is an occurrence in the whole. */
  lemma ContainsInConcat(a: string, b: string, pat: string)
    ensures Contains(a, pat) || Contains(b, pat) ==> Contains(a + b, pat)
  {
    ContainsIff(a, pat);
    ContainsIff(b, pat);
    ContainsIff(a + b, pat);
    if Contains(a, pat) {
      var i :| OccursAt(a, pat, i);
      assert (a + b)[i..i + |pat|] == a[i..i + |pat|];
      assert OccursAt(a + b, pat, i);
    } else if Contains(b, pat) {
      var i :| OccursAt(b, pat, i);
      assert (a + b)[|a| + i..|a| + i + |pat|] == b[i..i + |pat|];
      assert OccursAt(a + b, pat, |a| + i);
    }
  }

  /** A pattern holding a character that `s` lacks cannot occur in `s`. */
  lemma {:induction false} AbsentCharNotContained(s: string, pat: string, c: char)
    requires c in pat && c !in s
    ensures !Contains(s, pat)
    decreases |s|
  {
    var k :| 0 <= k < |pat| && pat[k] == c;
    if |pat| <= |s| {
      assert s[k] != c;
      assert s[..|pat|][k] != pat[k];
    }
    if |s| > 0 {
      AbsentCharNotContained(s[1..], pat, c);
    }
  }

  /** Python's `s.endswith(suffix)`. */
  predicate EndsWith(s: string, suffix: string): (r: bool)
    ensures suffix == [] ==> r
    ensures r ==> |suffix| <= |s|
  {
    |suffix| <= |s| && s[|s| - |suffix|..] == suffix
  }

  /** `s` ends with `suffix` exactly when `s` is some string followed by `suffix`. */
  lemma EndsWithIff(s: string, suffix: string)
    ensures EndsWith(s, suffix) <==> exists stem :: s == stem + suffix
  {
    if EndsWith(s, suffix) {
      assert s == s[..|s| - |suffix|] + suffix;
    }
    forall stem | s == stem + suffix ensures EndsWith(s, suffix) {
      assert s[|stem|..] == suffix;
    }
  }
}
