/**
 * Case-insensitive string comparison, as used by the content processors to
 * compare media types and by the JSON key queries to compare property names.
 * The repository's own EqualsCaseInsensitive helper is not part of this model;
 * it is modelled here as ASCII case folding.
 */
module Text {

  /** Folds one ASCII upper-case letter to lower case; every other character is kept. */
  function Lower(c: char): (r: char)
    ensures !('A' <= r <= 'Z')
    ensures 'a' <= c <= 'z' ==> r == c
  {
    if 'A' <= c <= 'Z' then (c as int + 32) as char else c
  }

  /** The string with every character folded by Lower. */
  function ToLower(s: string): string
  {
    seq(|s|, i requires 0 <= i < |s| => Lower(s[i]))
  }

  /** Two strings are equal ignoring case when they agree character by character after folding. */
  predicate EqualsCaseInsensitive(a: string, b: string)
    ensures EqualsCaseInsensitive(a, b) ==> |a| == |b|
    ensures a == b ==> EqualsCaseInsensitive(a, b)
  {
    |a| == |b| && forall i :: 0 <= i < |a| ==> Lower(a[i]) == Lower(b[i])
  }

  /** Comparing ignoring case is the same as comparing the folded strings. */
  lemma EqualsCaseInsensitiveIffLowered(a: string, b: string)
    ensures EqualsCaseInsensitive(a, b) <==> ToLower(a) == ToLower(b)
  {
    if ToLower(a) == ToLower(b) {
      assert |a| == |b|;
      forall i | 0 <= i < |a| ensures Lower(a[i]) == Lower(b[i]) {
        assert ToLower(a)[i] == ToLower(b)[i];
      }
    }
  }

  /** A string without upper-case letters is its own folding. */
  lemma ToLowerOfLowercase(s: string)
    requires forall i :: 0 <= i < |s| ==> !('A' <= s[i] <= 'Z')
    ensures ToLower(s) == s
  {
  }

  /** EqualsCaseInsensitive is an equivalence relation. */
  lemma EqualsCaseInsensitiveIsEquivalence(a: string, b: string, c: string)
    ensures EqualsCaseInsensitive(a, a)
    ensures EqualsCaseInsensitive(a, b) ==> EqualsCaseInsensitive(b, a)
    ensures EqualsCaseInsensitive(a, b) && EqualsCaseInsensitive(b, c) ==> EqualsCaseInsensitive(a, c)
  {
  }
}
