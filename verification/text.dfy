/**
  The few string operations the record store uses: suffix tests, substring
  search and Python's `str.replace`, on strings as sequences of characters.
 */
module Text {

  /** `pat` occurs in `s` starting at index `i`. */
  predicate OccursAt(s: string, pat: string, i: nat) {
    i + |pat| <= |s| && s[i..i + |pat|] == pat
  }

  /** `pat` occurs somewhere in `s` (Python's `pat in s`). */
  predicate Contains(s: string, pat: string) {
    exists i: nat :: i <= |s| && OccursAt(s, pat, i)
  }

  /** Python's `s.endswith(suffix)`. */
  predicate EndsWith(s: string, suffix: string) {
    |suffix| <= |s| && s[|s| - |suffix|..] == suffix
  }

  /**
    Python's `s.replace(pat, rep)` for a non-empty `pat`: scanning from the
    left, every occurrence that does not overlap an earlier replaced one is
    replaced by `rep`.
   */
  function ReplaceAll(s: string, pat: string, rep: string): (r: string)
    requires |pat| > 0
    ensures !Contains(s, pat) ==> r == s
    ensures rep == [] ==> |r| <= |s|
    ensures rep == [] && Contains(s, pat) ==> |r| <= |s| - |pat|
    decreases |s|
  {
    if |s| < |pat| then
      s
    else if s[..|pat|] == pat then
      assert OccursAt(s, pat, 0);
      rep + ReplaceAll(s[|pat|..], pat, rep)
    else
      ContainsAfterFirst(s, pat);
      [s[0]] + ReplaceAll(s[1..], pat, rep)
  }

  /** When `pat` does not start `s`, it occurs in `s` exactly when it occurs in `s` without its first character. */
  lemma ContainsAfterFirst(s: string, pat: string)
    requires |s| > 0 && !OccursAt(s, pat, 0)
    ensures Contains(s, pat) <==> Contains(s[1..], pat)
  {
    if Contains(s, pat) {
      var i: nat :| i <= |s| && OccursAt(s, pat, i);
      assert i > 0;
      assert s[1..][i - 1..i - 1 + |pat|] == s[i..i + |pat|];
      assert OccursAt(s[1..], pat, i - 1);
    }
    if Contains(s[1..], pat) {
      var i: nat :| i <= |s[1..]| && OccursAt(s[1..], pat, i);
      assert s[i + 1..i + 1 + |pat|] == s[1..][i..i + |pat|];
      assert OccursAt(s, pat, i + 1);
    }
  }
}
