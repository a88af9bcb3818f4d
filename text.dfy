/** Character classes and decimal numerals shared by the URL and page scanners. */
module Text {

  /** The ASCII digits: the model reads the pattern class `\d` and `int()` on them only. */
  predicate IsDigit(c: char) {
    '0' <= c <= '9'
  }

  /** The character class `[0-9A-Za-z_-]` of a video identifier. */
  predicate IsIdChar(c: char) {
    IsDigit(c) || 'A' <= c <= 'Z' || 'a' <= c <= 'z' || c == '_' || c == '-'
  }

  /** Video identifiers are exactly eleven characters long. */
  const IdLength: nat := 11

  /** A well-formed video identifier: eleven characters of the identifier class. */
  predicate IsVideoId(s: string) {
    |s| == IdLength && forall k :: 0 <= k < |s| ==> IsIdChar(s[k])
  }

  /** `t` occurs in `s` starting at index `i`. */
  predicate StartsAt(s: string, i: nat, t: string) {
    i + |t| <= |s| && s[i..i + |t|] == t
  }

  /** Two pieces that follow each other in `s` form their concatenation there. */
  lemma StartsAtConcat(s: string, i: nat, a: string, b: string)
    requires StartsAt(s, i, a) && StartsAt(s, i + |a|, b)
    ensures StartsAt(s, i, a + b)
  {
    assert s[i..i + |a| + |b|] == s[i..i + |a|] + s[i + |a|..i + |a| + |b|];
  }

  /** `t` occurs in `s` at `start + j` when it occurs at `j` in a piece of `s` taken from `start`. */
  lemma StartsAtWithin(s: string, start: nat, piece: string, j: nat, t: string)
    requires StartsAt(s, start, piece)
    ensures StartsAt(piece, j, t) <==> j + |t| <= |piece| && StartsAt(s, start + j, t)
  {
    if j + |t| <= |piece| {
      assert forall m :: 0 <= m < |piece| ==> piece[m] == s[start + m];
      var here, there := s[start + j..start + j + |t|], piece[j..j + |t|];
      assert forall m :: 0 <= m < |t| ==> here[m] == there[m];
      assert here == there;
    }
  }

  predicate AllDigits(s: string) {
    forall k :: 0 <= k < |s| ==> IsDigit(s[k])
  }

  function DigitValue(c: char): (d: nat)
    requires IsDigit(c)
    ensures d < 10
  {
    c as int - '0' as int
  }

  function DigitChar(d: nat): (c: char)
    requires d < 10
    ensures IsDigit(c) && DigitValue(c) == d
  {
    ('0' as int + d) as char
  }

  /** The value `int(ds)` of a string of decimal digits, leading zeros allowed. */
  function DecimalValue(ds: string): nat
    requires AllDigits(ds)
  {
    if ds == [] then 0
    else DecimalValue(ds[..|ds| - 1]) * 10 + DigitValue(ds[|ds| - 1])
  }

  /** The shortest decimal numeral of `n`: the inverse partner of `DecimalValue`. */
  function DecimalString(n: nat): (ds: string)
    ensures ds != [] && AllDigits(ds)
    decreases n
  {
    if n < 10 then [DigitChar(n)] else DecimalString(n / 10) + [DigitChar(n % 10)]
  }

  /** Reading back the numeral of `n` gives `n`. */
  lemma {:induction false} DecimalRoundTrip(n: nat)
    ensures DecimalValue(DecimalString(n)) == n
    decreases n
  {
    if n >= 10 {
      var ds := DecimalString(n);
      assert ds[..|ds| - 1] == DecimalString(n / 10);
      DecimalRoundTrip(n / 10);
    }
  }
}
