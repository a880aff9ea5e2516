/** Python's `str` of an integer: optional minus sign, then decimal digits without
    leading zeros. Used for the pitcher-name fallback. */
module Decimal {

  function DigitChar(d: nat): (c: char)
    requires d < 10
    ensures '0' <= c <= '9'
  {
    (('0' as int) + d) as char
  }

  predicate IsDigit(c: char) { '0' <= c <= '9' }

  function DigitValue(c: char): (d: nat)
    requires IsDigit(c)
    ensures d < 10 && DigitChar(d) == c
  {
    (c as int - '0' as int)
  }

  /** The decimal digits of `n`, most significant first. */
  function Digits(n: nat): (s: string)
    ensures |s| >= 1
    ensures forall c :: c in s ==> IsDigit(c)
    ensures n > 0 ==> s[0] != '0'
    ensures s[0] == '0' ==> n == 0 && s == "0"
    ensures n == 0 ==> s == "0"
  {
    if n < 10 then [DigitChar(n)] else Digits(n / 10) + [DigitChar(n % 10)]
  }

  /** `str(i)` for a Python int: never empty, signed exactly when negative, and without
      leading zeros (the only text starting with '0' is "0" itself). */
  function Str(i: int): (s: string)
    ensures |s| >= 1
    ensures s[0] == '-' <==> i < 0
    ensures s[0] == '0' ==> i == 0 && s == "0"
    ensures i < 0 ==> |s| >= 2 && s[1] != '0'
  {
    if i < 0 then "-" + Digits(-i)
    else
      assert Digits(i)[0] in Digits(i);
      Digits(i)
  }

  /** Strings of the shape `Str` produces: an optional '-' and at least one digit. */
  predicate IsDecimal(s: string)
  {
    if |s| > 0 && s[0] == '-' then IsDigitString(s[1..]) else IsDigitString(s)
  }

  predicate IsDigitString(s: string)
  {
    |s| >= 1 && forall k :: 0 <= k < |s| ==> IsDigit(s[k])
  }

  /** The natural number a digit string denotes. */
  function DigitsValue(s: string): nat
    requires forall k :: 0 <= k < |s| ==> IsDigit(s[k])
  {
    if s == [] then 0 else 10 * DigitsValue(s[..|s| - 1]) + DigitValue(s[|s| - 1])
  }

  /** The integer a decimal string denotes (Python's `int(s)` on such strings). */
  function Value(s: string): int
    requires IsDecimal(s)
  {
    if |s| > 0 && s[0] == '-' then -(DigitsValue(s[1..]) as int) else DigitsValue(s)
  }

  lemma {:induction false} DigitsRoundTrip(n: nat)
    ensures IsDigitString(Digits(n)) && DigitsValue(Digits(n)) == n
  {
    var s := Digits(n);
    if n >= 10 {
      DigitsRoundTrip(n / 10);
      assert s[..|s| - 1] == Digits(n / 10);
    }
  }

  /** `Str` loses nothing: the id can be read back from the fallback text. */
  lemma StrRoundTrip(i: int)
    ensures IsDecimal(Str(i)) && Value(Str(i)) == i
  {
    if i < 0 {
      DigitsRoundTrip(-i);
      assert Str(i)[1..] == Digits(-i);
    } else {
      DigitsRoundTrip(i);
    }
  }

  /** Distinct ids give distinct fallback texts. */
  lemma StrInjective(i: int, j: int)
    ensures Str(i) == Str(j) ==> i == j
  {
    StrRoundTrip(i);
    StrRoundTrip(j);
  }
}
