/** `Number.prototype.toString` on a number with a short decimal expansion:
    the whole part, then a point and the fraction digits without trailing
    zeros. A number is an exact `real` here; see `Numbers` for the other
    number operations. */
module Decimals {
  import opened Records
  import opened Text
  import opened Numbers

  /** 10 to the power `k`. */
  function Pow10(k: nat): (p: nat)
    ensures p >= 1
  {
    if k == 0 then 1 else 10 * Pow10(k - 1)
  }

  /** `x` times 10^k. */
  function Shift(x: real, k: nat): real {
    x * Pow10(k) as real
  }

  /** `n` divided by 10^k. */
  function Quotient(n: nat, k: nat): real {
    n as real / Pow10(k) as real
  }

  /** `x` is written exactly with `k` decimals. */
  predicate HasDecimals(x: real, k: nat) {
    Shift(x, k).Floor as real == Shift(x, k)
  }

  /** The longest fraction the rendering below is exact for. */
  const MaxDecimals: nat := 20

  /** The fewest decimals, from `k` on, that write `x` exactly, or
      MaxDecimals when none up to there does. */
  function FewestDecimals(x: real, k: nat): (d: nat)
    requires k <= MaxDecimals
    ensures k <= d <= MaxDecimals
    ensures d < MaxDecimals ==> HasDecimals(x, d)
    ensures forall j :: k <= j < d ==> !HasDecimals(x, j)
    decreases MaxDecimals - k
  {
    if k == MaxDecimals || HasDecimals(x, k) then k else FewestDecimals(x, k + 1)
  }

  /** The digits of a non-negative number: the whole part, and a point
      with `k` fraction digits when `k` decimals are needed. */
  function UnsignedText(a: real): (s: string)
    requires a >= 0.0
  {
    var k := FewestDecimals(a, 0);
    DecimalText(Scaled(a, k), k)
  }

  /** `n / 10^k` written out: the whole part, and a point followed by
      exactly `k` digits when `k` is positive. */
  function DecimalText(n: nat, k: nat): (s: string)
  {
    NatToString(Whole(n, k)) + (if k == 0 then "" else "." + PadStart(NatToString(Fraction(n, k)), k))
  }

  /** The whole part of `n / 10^k`: `n` without its last `k` digits. */
  function Whole(n: nat, k: nat): nat {
    if k == 0 then n else Whole(n / 10, k - 1)
  }

  /** The last `k` digits of `n`, as a number. */
  function Fraction(n: nat, k: nat): (f: nat)
    ensures f < Pow10(k)
    ensures k > 0 ==> f % 10 == n % 10
  {
    if k == 0 then 0 else 10 * Fraction(n / 10, k - 1) + n % 10
  }

  /** `n` is its whole part times 10^k plus its last `k` digits. */
  lemma {:induction false} WholeFraction(n: nat, k: nat)
    ensures n == Pow10(k) * Whole(n, k) + Fraction(n, k)
  {
    if k > 0 {
      WholeFraction(n / 10, k - 1);
      var p := Pow10(k - 1);
      var w := Whole(n / 10, k - 1);
      var f := Fraction(n / 10, k - 1);
      assert n / 10 == p * w + f;
      assert n == 10 * (p * w + f) + n % 10;
      assert Pow10(k) * w == 10 * (p * w);
    }
  }

  /** `a` times 10^k, rounded down. */
  function Scaled(a: real, k: nat): (n: nat)
    requires a >= 0.0
    ensures n as real <= Shift(a, k) < n as real + 1.0
    ensures HasDecimals(a, k) ==> n as real == Shift(a, k)
  {
    NonNegativeProduct(a, Pow10(k) as real);
    Shift(a, k).Floor
  }

  lemma NonNegativeProduct(a: real, b: real)
    requires a >= 0.0 && b >= 0.0
    ensures a * b >= 0.0
  {
  }

  /** `x.toString()`: a minus sign before a negative number. */
  function NumberText(x: real): (s: string)
    ensures x >= 0.0 ==> s == UnsignedText(x)
    ensures x < 0.0 ==> s == "-" + UnsignedText(-x)
  {
    if x < 0.0 then "-" + UnsignedText(-x) else UnsignedText(x)
  }

  /** A whole part `a` followed by the `k` fraction digits of `f`. */
  function Frac(a: nat, f: nat, k: nat): real {
    a as real + f as real / Pow10(k) as real
  }

  /** The value of a string of digits, or of digits, a point and digits. */
  function ReadDecimal(s: string): (v: Option<real>)
  {
    var parts := Split(s, '.');
    if |parts| == 1 && parts[0] != [] && AllDigits(parts[0]) then
      Some(ParseDigits(parts[0]) as real)
    else if |parts| == 2 && parts[0] != [] && parts[1] != [] && AllDigits(parts[0]) && AllDigits(parts[1]) then
      Some(Frac(ParseDigits(parts[0]), ParseDigits(parts[1]), |parts[1]|))
    else None
  }

  /** A number below 10^k has at most k digits. */
  lemma {:induction false} NatToStringFits(f: nat, k: nat)
    requires 1 <= k && f < Pow10(k)
    ensures |NatToString(f)| <= k
  {
    if f >= 10 {
      assert f / 10 < Pow10(k - 1);
      NatToStringFits(f / 10, k - 1);
    }
  }

  /** The last digit of `n` is the last character of its text. */
  lemma LastDigit(n: nat)
    ensures NatToString(n)[|NatToString(n)| - 1] == DigitChar(n % 10)
  {
  }

  /** A whole number is written as its digits, with no point. */
  lemma WholeText(n: nat)
    ensures NumberText(n as real) == NatToString(n)
  {
    assert Pow10(0) == 1;
    assert HasDecimals(n as real, 0);
    var k := FewestDecimals(n as real, 0);
    assert k == 0;
    assert Scaled(n as real, 0) == n;
    assert Whole(n, 0) == n;
    assert DecimalText(n, 0) == NatToString(n);
  }

  /** `n / 10^k` is `n` exactly when `x` has at most `k` decimals and `n` is
      `x` scaled by 10^k. */
  lemma ScaledExact(x: real, k: nat)
    requires x >= 0.0 && HasDecimals(x, k)
    ensures x == Quotient(Scaled(x, k), k)
  {
  }

  /** The written-out `n / 10^k` reads back as that value. */
  lemma DecimalTextRead(n: nat, k: nat)
    ensures ReadDecimal(DecimalText(n, k)) == Some(Quotient(n, k))
  {
    if k == 0 {
      WholeRead(n);
    } else {
      FractionRead(n, k);
    }
  }

  lemma WholeRead(n: nat)
    ensures ReadDecimal(DecimalText(n, 0)) == Some(Quotient(n, 0))
  {
    assert Pow10(0) == 1;
    var w := NatToString(n);
    assert Whole(n, 0) == n;
    assert DecimalText(n, 0) == w;
    assert Quotient(n, 0) == n as real;
    ParseNatToString(n);
    NoPointInDigits(w);
    SplitNoSep(w, '.');
  }

  lemma FractionRead(n: nat, k: nat)
    requires k > 0
    ensures ReadDecimal(DecimalText(n, k)) == Some(Quotient(n, k))
  {
    var w := NatToString(Whole(n, k));
    var f := PadStart(NatToString(Fraction(n, k)), k);
    ParseNatToString(Whole(n, k));
    NatToStringFits(Fraction(n, k), k);
    PadStartRoundTrip(Fraction(n, k), k);
    assert DecimalText(n, k) == w + "." + f;
    assert |f| == k;
    ReadParts(w, f);
    assert ReadDecimal(w + "." + f) == Some(Frac(Whole(n, k), Fraction(n, k), k));
    SplitParts(n, k);
  }

  /** Digits, a point and digits read back as whole part plus fraction. */
  lemma ReadParts(w: string, f: string)
    requires w != [] && f != [] && AllDigits(w) && AllDigits(f)
    ensures ReadDecimal(w + "." + f)
         == Some(Frac(ParseDigits(w), ParseDigits(f), |f|))
  {
    NoPointInDigits(w);
    NoPointInDigits(f);
    SplitPair(w, f, '.');
  }

  /** Whole part plus fraction over `p` is the quotient. */
  lemma SplitParts(n: nat, k: nat)
    ensures Frac(Whole(n, k), Fraction(n, k), k) == Quotient(n, k)
  {
    WholeFraction(n, k);
    DivideSum(n, Whole(n, k), Fraction(n, k), Pow10(k));
  }

  lemma DivideSum(n: int, w: int, f: int, p: int)
    requires p > 0 && n == p * w + f
    ensures w as real + f as real / p as real == n as real / p as real
  {
    assert n as real == p as real * w as real + f as real;
  }

  /** The text of a non-negative number with at most MaxDecimals decimals
      reads back as that number. */
  lemma NumberTextRoundTrip(x: real)
    requires x >= 0.0 && HasDecimals(x, MaxDecimals)
    ensures ReadDecimal(NumberText(x)) == Some(x)
  {
    var k := FewestDecimals(x, 0);
    ScaledExact(x, k);
    DecimalTextRead(Scaled(x, k), k);
  }

  /** With `k` positive the text has a point and ends in the last digit of `n`. */
  lemma DecimalTextEnd(n: nat, k: nat)
    requires k > 0
    ensures '.' in DecimalText(n, k)
    ensures DecimalText(n, k)[|DecimalText(n, k)| - 1] == DigitChar(Fraction(n, k) % 10)
  {
    var w := NatToString(Whole(n, k));
    assert DecimalText(n, k)[|w|] == '.';
    LastDigit(Fraction(n, k));
  }

  /** A multiple of 10 scaled by 10^k is the tenth scaled by 10^(k-1). */
  lemma TenthScaled(x: real, k: nat, m: nat)
    requires k > 0 && Shift(x, k) == (10 * m) as real
    ensures HasDecimals(x, k - 1)
  {
    assert Pow10(k) == 10 * Pow10(k - 1);
    assert Shift(x, k - 1) == m as real;
  }

  /** The text is as short as possible: a whole number has no point, and a
      fraction never ends in 0. */
  lemma NumberTextShortest(x: real)
    requires x >= 0.0 && HasDecimals(x, MaxDecimals)
    ensures HasDecimals(x, 0) ==> '.' !in NumberText(x)
    ensures !HasDecimals(x, 0) ==> '.' in NumberText(x) && NumberText(x)[|NumberText(x)| - 1] != '0'
  {
    var k := FewestDecimals(x, 0);
    var n := Scaled(x, k);
    assert NumberText(x) == DecimalText(n, k);
    if k == 0 {
      NoPointInDigits(NatToString(Whole(n, 0)));
    } else {
      DecimalTextEnd(n, k);
      if Fraction(n, k) % 10 == 0 {
        TenthScaled(x, k, n / 10);
        assert false;
      }
    }
  }

  /** A negative number is its absolute value's text after a minus sign. */
  lemma NegativeText(x: real)
    requires x > 0.0
    ensures NumberText(-x) == "-" + NumberText(x)
  {
  }
}
