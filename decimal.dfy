/** Decimal rendering of unsigned integers, as `Display` prints a `U256`, together
    with the reader that undoes it. */
module Decimal {

  predicate IsDigit(c: char) {
    '0' <= c <= '9'
  }

  predicate AllDigits(s: string) {
    forall i :: 0 <= i < |s| ==> IsDigit(s[i])
  }

  function DigitValue(c: char): (d: nat)
    requires IsDigit(c)
    ensures d < 10
  {
    c as int - '0' as int
  }

  function DigitChar(d: nat): (c: char)
    requires d < 10
    ensures IsDigit(c) && DigitValue(c) == d
  {
    ('0' as int + d) as char
  }

  /** The decimal digits of `n`, most significant first, without leading zeros. */
  function ToDecimal(n: nat): (s: string)
    ensures |s| > 0 && AllDigits(s)
    decreases n
  {
    if n < 10 then [DigitChar(n)] else ToDecimal(n / 10) + [DigitChar(n % 10)]
  }

  /** The value of a string of decimal digits. */
  function ParseDecimal(s: string): (n: nat)
    requires AllDigits(s)
  {
    if s == [] then 0 else ParseDecimal(s[..|s| - 1]) * 10 + DigitValue(s[|s| - 1])
  }

  /** Reading back a rendered number gives the number. */
  lemma {:induction false} ParseToDecimal(n: nat)
    ensures ParseDecimal(ToDecimal(n)) == n
    decreases n
  {
    if n >= 10 {
      var s := ToDecimal(n);
      assert s[..|s| - 1] == ToDecimal(n / 10);
      ParseToDecimal(n / 10);
    }
  }

  /** Distinct numbers render as distinct strings. */
  lemma ToDecimalInjective(a: nat, b: nat)
    ensures ToDecimal(a) == ToDecimal(b) ==> a == b
  {
    ParseToDecimal(a);
    ParseToDecimal(b);
  }

  /** A run of digits followed by a text that starts with a non-digit can be split
      in one way only. */
  lemma {:induction false} SplitAtFirstNonDigit(x: string, s: string, y: string, t: string)
    requires AllDigits(x) && AllDigits(y)
    requires |s| > 0 && !IsDigit(s[0]) && |t| > 0 && !IsDigit(t[0])
    requires x + s == y + t
    ensures x == y && s == t
    decreases |x|
  {
    if |x| == 0 && |y| == 0 {
      assert x + s == s && y + t == t;
    } else if |x| == 0 || |y| == 0 {
      assert false;
    } else {
      assert (x + s)[0] == (y + t)[0];
      assert x[1..] + s == (x + s)[1..];
      assert y[1..] + t == (y + t)[1..];
      SplitAtFirstNonDigit(x[1..], s, y[1..], t);
      assert x == [x[0]] + x[1..];
      assert y == [y[0]] + y[1..];
    }
  }

  /** Equal texts with an equal prefix agree after it. */
  lemma DropPrefix(p: string, u: string, v: string)
    requires p + u == p + v
    ensures u == v
  {
    assert u == (p + u)[|p|..];
    assert v == (p + v)[|p|..];
  }

  lemma Regroup(p: string, x: string, m: string, z: string)
    ensures p + x + m + z == p + (x + (m + z))
  {
  }

  /** A message made of a fixed prefix, a number, a separator that does not start
      with a digit, and a second number determines both numbers. */
  lemma TwoNumbersReadBack(p: string, m: string, a: nat, b: nat, c: nat, d: nat)
    requires |m| > 0 && !IsDigit(m[0])
    requires p + ToDecimal(a) + m + ToDecimal(b) == p + ToDecimal(c) + m + ToDecimal(d)
    ensures a == c && b == d
  {
    var x, xb, y, yd := ToDecimal(a), ToDecimal(b), ToDecimal(c), ToDecimal(d);
    Regroup(p, x, m, xb);
    Regroup(p, y, m, yd);
    DropPrefix(p, x + (m + xb), y + (m + yd));
    SplitAtFirstNonDigit(x, m + xb, y, m + yd);
    ToDecimalInjective(a, c);
    DropPrefix(m, xb, yd);
    ToDecimalInjective(b, d);
  }
}
