/** JavaScript number operations on exact values: `Math.round`, the
    truncating `%`, `Math.min` and `toFixed(2)` of a minute count in hours. */
module Numbers {
  import opened Records
  import opened Text

  /** `Math.round(x)`: the nearest integer, halves rounded up. */
  function JsRound(x: real): (r: int)
    ensures r as real - 0.5 <= x < r as real + 0.5
  {
    (x + 0.5).Floor
  }

  /** `a % b` for b > 0: the remainder has the sign of the dividend. */
  function JsRem(a: int, b: int): (r: int)
    requires b > 0
    ensures a >= 0 ==> 0 <= r < b && r == a % b
    ensures a < 0 ==> -b < r <= 0 && -r == (-a) % b
  {
    if a >= 0 then a % b else -((-a) % b)
  }

  /** A share of a positive whole, as a percentage, is 100 exactly when the
      part is the whole. */
  lemma PercentFull(part: nat, whole: nat)
    requires 0 < whole && part <= whole
    ensures (part as real / whole as real) * 100.0 == 100.0 <==> part == whole
  {
    var q := part as real / whole as real;
    assert q * (whole as real) == part as real;
    if part < whole {
      assert q < 1.0;
    }
  }

  function Min(a: real, b: real): (r: real)
    ensures r <= a && r <= b && (r == a || r == b)
  {
    if a <= b then a else b
  }

  /** The nearest hundredth of an hour to `m` minutes, for m >= 0: n/100 is
      within 3/600 of m/60, never exactly (10m + 3 is odd), so there is no tie. */
  function Hundredths(m: nat): (n: nat)
    ensures -3 < 6 * n - 10 * m < 3
  {
    var n := (10 * m + 3) / 6;
    assert 6 * n <= 10 * m + 3 < 6 * n + 6;
    var q := 3 * n - 5 * m;
    assert 2 * q != 3;
    n
  }

  /** `(m / 60).toFixed(2)`: sign, whole hours, a point and two digits. */
  function HoursFixed2(m: int): (s: string)
  {
    var n := Hundredths(if m < 0 then -m else m);
    (if m < 0 then "-" else "") + NatToString(n / 100) + "." + PadStart(NatToString(n % 100), 2)
  }

  /** The value a `toFixed(2)` string denotes, read back. */
  function ReadFixed2(s: string): (v: Option<real>)
  {
    var parts := Split(s, '.');
    if |parts| != 2 || parts[0] == [] || |parts[1]| != 2 then None
    else if AllDigits(parts[0]) && AllDigits(parts[1]) then
      Some(ParseDigits(parts[0]) as real + ParseDigits(parts[1]) as real / 100.0)
    else None
  }

  /** A non-empty digit string, a point and two digits read back as their value. */
  lemma ReadFixed2Digits(whole: string, frac: string)
    requires whole != [] && AllDigits(whole) && |frac| == 2 && AllDigits(frac)
    ensures ReadFixed2(whole + "." + frac)
         == Some(ParseDigits(whole) as real + ParseDigits(frac) as real / 100.0)
  {
    NoPointInDigits(whole);
    NoPointInDigits(frac);
    SplitPair(whole, frac, '.');
    ReadFixed2OfSplit(whole + "." + frac, whole, frac);
  }

  lemma NoPointInDigits(s: string)
    requires AllDigits(s)
    ensures '.' !in s
  {
  }

  lemma ReadFixed2OfSplit(s: string, whole: string, frac: string)
    requires whole != [] && AllDigits(whole) && |frac| == 2 && AllDigits(frac)
    requires Split(s, '.') == [whole, frac]
    ensures ReadFixed2(s) == Some(ParseDigits(whole) as real + ParseDigits(frac) as real / 100.0)
  {
  }

  /** A whole part and a two-digit fraction read back as their value. */
  lemma ReadFixed2Parts(a: nat, b: nat)
    requires b < 100
    ensures ReadFixed2(NatToString(a) + "." + PadStart(NatToString(b), 2))
         == Some(a as real + b as real / 100.0)
  {
    var whole := NatToString(a);
    var frac := PadStart(NatToString(b), 2);
    ParseNatToString(a);
    PadStartRoundTrip(b, 2);
    NatToStringLength(b);
    ReadFixed2Digits(whole, frac);
  }

  /** The two-decimal hours of a non-negative minute count read back within
      half a hundredth of the exact value: it is the nearest hundredth. */
  lemma HoursFixed2Nearest(m: nat)
    ensures ReadFixed2(HoursFixed2(m)).Some?
    ensures var v := ReadFixed2(HoursFixed2(m)).value;
      -1.0 / 200.0 < v - m as real / 60.0 < 1.0 / 200.0
  {
    var n := Hundredths(m);
    ReadFixed2Parts(n / 100, n % 100);
    assert HoursFixed2(m) == NatToString(n / 100) + "." + PadStart(NatToString(n % 100), 2);
    var v := (n / 100) as real + (n % 100) as real / 100.0;
    assert n == 100 * (n / 100) + n % 100;
    assert v == n as real / 100.0;
    var d := (6 * n - 10 * m) as real;
    assert -3.0 < d < 3.0;
    assert v - m as real / 60.0 == d / 600.0;
  }
}
