/**
 * Decimal rendering of non-negative integers, as Python's `str(n)` and
 * `f"{n:0Wd}"` produce it, together with the digit-string reader that
 * inverts it.  The stopwatch and the countdown screens format their text
 * with these.  The quotient-and-remainder lemmas at the end put fields
 * split off with `//` and `%` back together.
 */
module Format {

  predicate IsDigit(c: char) {
    '0' <= c <= '9'
  }

  predicate AllDigits(s: string) {
    forall i :: 0 <= i < |s| ==> IsDigit(s[i])
  }

  function DigitChar(d: nat): (c: char)
    requires d < 10
    ensures IsDigit(c) && DigitValue(c) == d
  {
    (('0' as int) + d) as char
  }

  function DigitValue(c: char): int {
    (c as int) - ('0' as int)
  }

  /** The value of a string of decimal digits, most significant first. */
  function ParseDecimal(s: string): int
    decreases |s|
  {
    if s == [] then 0 else ParseDecimal(s[..|s| - 1]) * 10 + DigitValue(s[|s| - 1])
  }

  /** `str(n)`: the shortest decimal representation of `n`. */
  function Decimal(n: nat): (s: string)
    ensures 1 <= |s|
    ensures AllDigits(s)
    ensures n > 0 ==> s[0] != '0'
    decreases n
  {
    if n < 10 then [DigitChar(n)] else Decimal(n / 10) + [DigitChar(n % 10)]
  }

  function Zeros(k: nat): (s: string)
    ensures |s| == k && AllDigits(s)
  {
    seq(k, _ => '0')
  }

  /** `f"{n:0Wd}"` for `n >= 0`: `str(n)` left-padded with '0' to at least `w` characters. */
  function ZeroPad(n: nat, w: nat): (s: string)
    ensures |s| == if |Decimal(n)| < w then w else |Decimal(n)|
    ensures AllDigits(s)
  {
    var digits := Decimal(n);
    if |digits| < w then Zeros(w - |digits|) + digits else digits
  }

  function Pow10(k: nat): (p: nat)
    ensures p >= 1
  {
    if k == 0 then 1 else 10 * Pow10(k - 1)
  }

  /** Reading back what `Decimal` wrote gives the number. */
  lemma {:induction false} ParseDecimalOfDecimal(n: nat)
    ensures ParseDecimal(Decimal(n)) == n
    decreases n
  {
    if n >= 10 {
      var s := Decimal(n);
      assert s[..|s| - 1] == Decimal(n / 10);
      ParseDecimalOfDecimal(n / 10);
    }
  }

  lemma {:induction false} ParseZeros(k: nat)
    ensures ParseDecimal(Zeros(k)) == 0
  {
    if k > 0 {
      assert Zeros(k)[..k - 1] == Zeros(k - 1);
      ParseZeros(k - 1);
    }
  }

  /** Leading zeros do not change the value read. */
  lemma {:induction false} ParseLeadingZeros(k: nat, s: string)
    ensures ParseDecimal(Zeros(k) + s) == ParseDecimal(s)
    decreases |s|
  {
    if s == [] {
      assert Zeros(k) + s == Zeros(k);
      ParseZeros(k);
    } else {
      var t := Zeros(k) + s;
      assert t[..|t| - 1] == Zeros(k) + s[..|s| - 1];
      assert t[|t| - 1] == s[|s| - 1];
      ParseLeadingZeros(k, s[..|s| - 1]);
    }
  }

  /** Reading back a zero-padded field gives the number, whatever the width. */
  lemma ParseZeroPad(n: nat, w: nat)
    ensures ParseDecimal(ZeroPad(n, w)) == n
  {
    var digits := Decimal(n);
    if |digits| < w {
      ParseLeadingZeros(w - |digits|, digits);
    }
    ParseDecimalOfDecimal(n);
  }

  /** A number below 10^k needs at most k digits. */
  lemma {:induction false} DecimalLength(n: nat, k: nat)
    requires 1 <= k && n < Pow10(k)
    ensures |Decimal(n)| <= k
    decreases n
  {
    if n >= 10 {
      assert k != 1 by { assert Pow10(1) == 10; }
      assert n / 10 < Pow10(k - 1);
      DecimalLength(n / 10, k - 1);
    }
  }

  /** A field whose value fits in `w` digits is exactly `w` characters wide. */
  lemma ZeroPadWidth(n: nat, w: nat)
    requires 1 <= w && n < Pow10(w)
    ensures |ZeroPad(n, w)| == w
  {
    DecimalLength(n, w);
  }

  // Quotient and remainder, used to put split-up fields back together.

  lemma MulAtLeastOnce(a: int, p: int)
    requires a >= 1 && p > 0
    ensures a * p >= p
  {
  }

  /** `total == k * period + rest` with the rest in `[0, period)` fixes quotient and remainder. */
  lemma DivModUnique(total: int, period: int, k: int, rest: int)
    requires period > 0 && 0 <= rest < period && total == k * period + rest
    ensures total / period == k && total % period == rest
  {
    var q, r := total / period, total % period;
    var d := q - k;
    assert d * period == rest - r by {
      assert q * period + r == k * period + rest;
      assert d * period == q * period - k * period;
    }
    if d >= 1 {
      MulAtLeastOnce(d, period);
    } else if d <= -1 {
      MulAtLeastOnce(-d, period);
    }
    assert d == 0;
  }
}
