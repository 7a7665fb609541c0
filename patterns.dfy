/** The meaning of the small regular expressions the lessons write: character
    classes, concatenation, an optional group and an exact repetition count,
    either anchored at both ends (`^…$`) or searched for anywhere in the
    string, as a JavaScript `RegExp.test` without flags does. */
module Patterns {
  import opened Ascii

  /** `[lo-hi…]`, or `[^lo-hi…]` when negated. */
  datatype CharClass = CharClass(ranges: seq<(char, char)>, negated: bool)

  predicate InClass(cls: CharClass, c: char) {
    (exists k | 0 <= k < |cls.ranges| :: cls.ranges[k].0 <= c <= cls.ranges[k].1) != cls.negated
  }

  datatype Regex =
    | Single(cls: CharClass)              // one character of the class
    | Concat(first: Regex, rest: Regex)   // `first` then `rest`
    | Optional(body: Regex)               // `(body)?`
    | Repeat(body: Regex, count: nat)     // `body{count}`

  /** `anchored` stands for a pattern written between `^` and `$`. */
  datatype Pattern = Pattern(anchored: bool, regex: Regex)

  /** The whole of `s` is a word of `r`. */
  ghost predicate Matches(r: Regex, s: string)
    decreases r, 0
  {
    match r
    case Single(cls) => |s| == 1 && InClass(cls, s[0])
    case Concat(a, b) => exists k | 0 <= k <= |s| :: Matches(a, s[..k]) && Matches(b, s[k..])
    case Optional(a) => s == [] || Matches(a, s)
    case Repeat(a, n) => MatchesTimes(a, n, s)
  }

  /** `s` splits into `n` consecutive words of `r`. */
  ghost predicate MatchesTimes(r: Regex, n: nat, s: string)
    decreases r, n + 1
  {
    if n == 0 then s == []
    else exists k | 0 <= k <= |s| :: Matches(r, s[..k]) && MatchesTimes(r, n - 1, s[k..])
  }

  /** What `RegExp.test` answers: an anchored pattern must match the whole
      string, an unanchored one some substring of it. */
  ghost predicate Test(p: Pattern, s: string) {
    if p.anchored then Matches(p.regex, s)
    else exists i, j | 0 <= i <= j <= |s| :: Matches(p.regex, s[i..j])
  }

  /** `\d` and `[0-9]`: ASCII digits only (no `u` flag). */
  const Digit := CharClass([('0', '9')], false)

  /** A one-character class searched for anywhere in a string is found iff
      some character of the string is in the class. */
  lemma SearchSingle(cls: CharClass, s: string)
    ensures Test(Pattern(false, Single(cls)), s) <==> exists i | 0 <= i < |s| :: InClass(cls, s[i])
  {
    if Test(Pattern(false, Single(cls)), s) {
      var i, j :| 0 <= i <= j <= |s| && Matches(Single(cls), s[i..j]);
      assert s[i..j][0] == s[i];
    }
    if exists i | 0 <= i < |s| :: InClass(cls, s[i]) {
      var i :| 0 <= i < |s| && InClass(cls, s[i]);
      assert s[i..i + 1] == [s[i]];
      assert Matches(Single(cls), s[i..i + 1]);
    }
  }

  /** `\d{n}` matches exactly the strings of `n` ASCII digits. */
  lemma {:induction false} DigitsTimes(n: nat, s: string)
    ensures MatchesTimes(Single(Digit), n, s) <==> |s| == n && AllDigits(s)
  {
    assert forall c: char :: InClass(Digit, c) <==> IsDigit(c) by {
      forall c: char ensures InClass(Digit, c) <==> IsDigit(c) {
        assert Digit.ranges[0] == ('0', '9');
      }
    }
    if n > 0 {
      if MatchesTimes(Single(Digit), n, s) {
        var k :| 0 <= k <= |s| && Matches(Single(Digit), s[..k]) && MatchesTimes(Single(Digit), n - 1, s[k..]);
        DigitsTimes(n - 1, s[k..]);
        assert k == 1 && s[..k][0] == s[0];
        assert forall i | 1 <= i < |s| :: s[i] == s[k..][i - 1];
      }
      if |s| == n && AllDigits(s) {
        DigitsTimes(n - 1, s[1..]);
        assert s[..1] == [s[0]];
        assert Matches(Single(Digit), s[..1]);
      }
    }
  }

  /** `[c]\d{n}`: one character of the class followed by exactly `n` digits. */
  lemma ClassThenDigits(cls: CharClass, n: nat, s: string)
    ensures Matches(Concat(Single(cls), Repeat(Single(Digit), n)), s)
      <==> |s| == n + 1 && InClass(cls, s[0]) && AllDigits(s[1..])
  {
    if Matches(Concat(Single(cls), Repeat(Single(Digit), n)), s) {
      var k :| 0 <= k <= |s| && Matches(Single(cls), s[..k]) && Matches(Repeat(Single(Digit), n), s[k..]);
      DigitsTimes(n, s[k..]);
      assert k == 1 && s[..k][0] == s[0];
      assert s[k..] == s[1..];
    }
    if |s| == n + 1 && InClass(cls, s[0]) && AllDigits(s[1..]) {
      DigitsTimes(n, s[1..]);
      assert s[..1] == [s[0]];
      assert Matches(Single(cls), s[..1]) && Matches(Repeat(Single(Digit), n), s[1..]);
    }
  }

  /** `\d{n}(r)?`: exactly `n` digits, then either nothing or a word of `r`. */
  lemma DigitsThenOptional(n: nat, r: Regex, s: string)
    ensures Matches(Concat(Repeat(Single(Digit), n), Optional(r)), s)
      <==> |s| >= n && AllDigits(s[..n]) && (|s| == n || Matches(r, s[n..]))
  {
    if Matches(Concat(Repeat(Single(Digit), n), Optional(r)), s) {
      var k :| 0 <= k <= |s| && Matches(Repeat(Single(Digit), n), s[..k]) && Matches(Optional(r), s[k..]);
      DigitsTimes(n, s[..k]);
    }
    if |s| >= n && AllDigits(s[..n]) && (|s| == n || Matches(r, s[n..])) {
      DigitsTimes(n, s[..n]);
      assert Matches(Repeat(Single(Digit), n), s[..n]) && Matches(Optional(r), s[n..]);
    }
  }
}
