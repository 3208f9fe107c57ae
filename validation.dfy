/** The email check both forms apply: `/\S+@\S+\.\S+/.test(email)`. The
    expression has no anchors, so it succeeds when any part of the string has
    the shape `x@y.z` without whitespace. */
module Validation {
  import opened Text

  predicate NoWhitespace(s: string)
  {
    forall k :: 0 <= k < |s| ==> !IsWhitespace(s[k])
  }

  /** The reference meaning of a match: s[i..l] splits into a non-empty run of
      non-whitespace, '@' at j, a non-empty run of non-whitespace, '.' at k and
      a non-empty run of non-whitespace. */
  ghost predicate MatchesAt(s: string, i: int, j: int, k: int, l: int)
  {
    && 0 <= i < j && j + 1 < k && k + 1 < l <= |s|
    && NoWhitespace(s[i..j]) && s[j] == '@'
    && NoWhitespace(s[j + 1..k]) && s[k] == '.'
    && NoWhitespace(s[k + 1..l])
  }

  ghost predicate RegexFinds(s: string)
  {
    exists i, j, k, l :: MatchesAt(s, i, j, k, l)
  }

  /** '@' at j and '.' at k with the shortest runs that can surround them: one
      non-whitespace character before '@', the whole stretch between them, and
      one after '.'. */
  predicate AtThenDot(s: string, j: int, k: int)
  {
    && 0 < j && j + 1 < k && k + 1 < |s|
    && !IsWhitespace(s[j - 1]) && s[j] == '@'
    && NoWhitespace(s[j + 1..k]) && s[k] == '.'
    && !IsWhitespace(s[k + 1])
  }

  /** `/\S+@\S+\.\S+/.test(s)` */
  predicate EmailPatternTest(s: string)
  {
    exists j, k | 0 <= j < |s| && 0 <= k < |s| :: AtThenDot(s, j, k)
  }

  /** The test succeeds exactly when the regular expression finds a match. */
  lemma EmailPatternTestIff(s: string)
    ensures EmailPatternTest(s) <==> RegexFinds(s)
  {
    if EmailPatternTest(s) {
      var j, k :| 0 <= j < |s| && 0 <= k < |s| && AtThenDot(s, j, k);
      assert MatchesAt(s, j - 1, j, k, k + 2);
    }
    if RegexFinds(s) {
      var i, j, k, l :| MatchesAt(s, i, j, k, l);
      assert s[j - 1] == s[i..j][j - 1 - i];
      assert s[k + 1] == s[k + 1..l][0];
      assert AtThenDot(s, j, k);
    }
  }

  /** The expression is unanchored, so surrounding text, even with spaces in
      it, does not make an address fail; a missing part does. */
  lemma EmailPatternExamples()
    ensures EmailPatternTest("a@b.com")
    ensures EmailPatternTest("see x@y.z now")
    ensures !EmailPatternTest("a@b")
    ensures !EmailPatternTest("a@.com")
    ensures !EmailPatternTest("a @b.com")
  {
    assert AtThenDot("a@b.com", 1, 3);
    assert AtThenDot("see x@y.z now", 5, 7);
    var s := "a @b.com";
    forall j, k | 0 <= j < |s| && 0 <= k < |s| ensures !AtThenDot(s, j, k) {
      if j != 2 { assert s[j] != '@'; }
    }
  }
}
