/** Decimal numerals as `%d` prints them and `strconv.Atoi` reads them. */
module Decimal {
  import opened Wrappers

  /** The largest value of Go's 64-bit `int`. */
  const MAX_INT := 0x7FFF_FFFF_FFFF_FFFF

  predicate IsDigit(c: char) {
    '0' <= c <= '9'
  }

  predicate AllDigits(s: string) {
    forall i :: 0 <= i < |s| ==> IsDigit(s[i])
  }

  function DigitChar(d: nat): (c: char)
    requires d < 10
    ensures IsDigit(c) && DigitValue(c) == d
  {
    ('0' as int + d) as char
  }

  function DigitValue(c: char): (d: nat)
    requires IsDigit(c)
    ensures d < 10
  {
    c as int - '0' as int
  }

  /** `%d` of a non-negative integer. */
  function Format(n: nat): (s: string)
    ensures s != [] && AllDigits(s)
  {
    if n < 10 then [DigitChar(n)] else Format(n / 10) + [DigitChar(n % 10)]
  }

  /** The number a digit string denotes; leading zeros are allowed. */
  function Value(s: string): nat
    requires AllDigits(s)
  {
    if s == [] then 0 else 10 * Value(s[..|s| - 1]) + DigitValue(s[|s| - 1])
  }

  /** `strconv.Atoi` on a digit string: fails when the number does not fit an int. */
  function Atoi(s: string): Option<nat>
    requires AllDigits(s)
  {
    if Value(s) <= MAX_INT then Some(Value(s)) else None
  }

  lemma {:induction false} ValueOfFormat(n: nat)
    ensures Value(Format(n)) == n
  {
    if n >= 10 {
      ValueOfFormat(n / 10);
      assert Format(n)[..|Format(n)| - 1] == Format(n / 10);
    }
  }

  /** Reading back a printed int gives the int. */
  lemma {:induction false} AtoiOfFormat(n: nat)
    ensures n <= MAX_INT ==> Atoi(Format(n)) == Some(n)
    ensures n > MAX_INT ==> Atoi(Format(n)) == None
  {
    ValueOfFormat(n);
  }
}
