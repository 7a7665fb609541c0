/** Character classes and case mapping over ASCII, as the lessons' regular
    expressions and `toLowerCase` use them on the characters that matter. */
module Ascii {

  predicate IsDigit(c: char) { '0' <= c <= '9' }

  predicate IsUpper(c: char) { 'A' <= c <= 'Z' }

  predicate IsLower(c: char) { 'a' <= c <= 'z' }

  predicate IsAlphanumeric(c: char) { IsUpper(c) || IsLower(c) || IsDigit(c) }

  /** Upper-case ASCII letters map to their lower-case letter; every other
      character is left alone. */
  function LowerChar(c: char): (d: char)
    ensures IsUpper(c) ==> IsLower(d) && d as int - c as int == 'a' as int - 'A' as int
    ensures !IsUpper(c) ==> d == c
  {
    if IsUpper(c) then (c as int + ('a' as int - 'A' as int)) as char else c
  }

  /** The string with every character passed through LowerChar. */
  function ToLower(s: string): (r: string)
    ensures |r| == |s|
    ensures forall i | 0 <= i < |s| :: r[i] == LowerChar(s[i])
  {
    if s == [] then [] else [LowerChar(s[0])] + ToLower(s[1..])
  }

  predicate AllDigits(s: string) {
    forall i | 0 <= i < |s| :: IsDigit(s[i])
  }

  /** Two strings are equal once ASCII case is ignored. */
  predicate EqualIgnoringCase(s: string, t: string) {
    |s| == |t| && forall i | 0 <= i < |s| :: LowerChar(s[i]) == LowerChar(t[i])
  }

  /** A string with no upper-case ASCII letter is its own lower-case form. */
  lemma {:induction false} ToLowerFixesLowerCase(t: string)
    requires forall i | 0 <= i < |t| :: !IsUpper(t[i])
    ensures ToLower(t) == t
  {
    if t != [] {
      ToLowerFixesLowerCase(t[1..]);
    }
  }

  /** Against a string with no upper-case letter, comparing the lower-case
      form is the same as comparing ignoring case. */
  lemma ToLowerEqualsIffEqualIgnoringCase(s: string, t: string)
    requires forall i | 0 <= i < |t| :: !IsUpper(t[i])
    ensures ToLower(s) == t <==> EqualIgnoringCase(s, t)
  {
    ToLowerFixesLowerCase(t);
    if EqualIgnoringCase(s, t) {
      assert forall i | 0 <= i < |s| :: ToLower(s)[i] == t[i];
    }
  }
}
