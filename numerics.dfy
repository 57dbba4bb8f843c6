/// The two .NET integer operations the game's getters rely on: C# integer
/// division by two (which truncates toward zero, unlike Dafny's Euclidean
/// `/`) and `int.ToString()` for positive values (plain decimal digits).
module Numerics {

  /** C# `s / 2` on `int`: the quotient truncated toward zero.
      The remainder `s - 2 * d` is at most one in size and has the sign of `s`,
      which pins `d` down uniquely. */
  function HalfTowardZero(s: int): (d: int)
    ensures s >= 0 ==> 0 <= s - 2 * d <= 1
    ensures s < 0 ==> -1 <= s - 2 * d <= 0
  {
    if s >= 0 then s / 2 else -((-s) / 2)
  }

  /** Truncation is symmetric about zero, which floor division is not:
      C# gives -3 / 2 == -1. */
  lemma HalfTowardZeroCommutesWithNegation(s: int)
    ensures HalfTowardZero(-s) == -HalfTowardZero(s)
    ensures HalfTowardZero(-3) == -1
  {
  }

  predicate IsDigit(c: char)
  {
    '0' <= c <= '9'
  }

  predicate IsDecimal(s: string)
  {
    forall i :: 0 <= i < |s| ==> IsDigit(s[i])
  }

  function DigitChar(d: nat): (c: char)
    requires d < 10
    ensures IsDigit(c) && c as int - '0' as int == d
  {
    ('0' as int + d) as char
  }

  function DigitValue(c: char): (d: nat)
    requires IsDigit(c)
    ensures d < 10 && DigitChar(d) == c
  {
    c as int - '0' as int
  }

  /** `n.ToString()` for a non-negative `int`: its decimal digits, most
      significant first, with no sign and no leading zero. */
  function DecimalText(n: nat): (s: string)
    ensures |s| >= 1 && IsDecimal(s)
    ensures n == 0 ==> s == "0"
    ensures n > 0 ==> s[0] != '0'
    decreases n
  {
    if n < 10 then [DigitChar(n)] else DecimalText(n / 10) + [DigitChar(n % 10)]
  }

  /** The number a string of decimal digits denotes: the inverse of DecimalText. */
  function DecimalValue(s: string): nat
    requires IsDecimal(s)
    decreases |s|
  {
    if s == [] then 0 else 10 * DecimalValue(s[..|s| - 1]) + DigitValue(s[|s| - 1])
  }

  /** Reading back the text of a number gives the number. */
  lemma {:induction false} DecimalRoundTrip(n: nat)
    ensures DecimalValue(DecimalText(n)) == n
    decreases n
  {
    if n >= 10 {
      var s := DecimalText(n);
      assert s[..|s| - 1] == DecimalText(n / 10);
      DecimalRoundTrip(n / 10);
    }
  }

  /** Distinct numbers have distinct texts. */
  lemma DecimalTextInjective(m: nat, n: nat)
    requires DecimalText(m) == DecimalText(n)
    ensures m == n
  {
    DecimalRoundTrip(m);
    DecimalRoundTrip(n);
  }
}
