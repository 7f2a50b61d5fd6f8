/** Ties-away rounding of an exact amount to a whole number of atoms. */
module Rounding {

  function AbsReal(x: real): real { if x < 0.0 then -x else x }

  function AbsInt(n: int): nat { if n < 0 then -n else n }

  /** The fraction's sign times the quotient of its magnitude, one more when twice the remainder
      reaches the denominator. */
  function RoundFraction(numerator: int, denominator: int): int
    requires denominator > 0
  {
    var q, r := AbsInt(numerator) / denominator, AbsInt(numerator) % denominator;
    var rounded := if 2 * r >= denominator then q + 1 else q;
    if numerator < 0 then -rounded else rounded
  }

  /** The same on the number itself. */
  function RoundAway(value: real): int {
    var magnitude := AbsReal(value);
    var q := magnitude.Floor;
    var rounded := if 2.0 * (magnitude - q as real) >= 1.0 then q + 1 else q;
    if value < 0.0 then -rounded else rounded
  }

  lemma SameQuotient(x: real, y: real, d: real)
    requires d > 0.0 && x * d == y * d
    ensures x == y
  {
    assert (x - y) * d == 0.0;
  }

  lemma UnitQuotient(x: real, d: real)
    requires d > 0.0 && 0.0 <= x * d < d
    ensures 0.0 <= x < 1.0
  {
    assert x >= 1.0 ==> (x - 1.0) * d >= 0.0;
    assert x < 0.0 ==> -x * d > 0.0;
  }

  lemma FloorOf(v: real, q: int, part: real)
    requires v == q as real + part && 0.0 <= part < 1.0
    ensures v.Floor == q
  {
    assert q as real <= v < (q + 1) as real;
  }

  lemma Divided(x: real, e: real)
    requires e > 0.0
    ensures (x / e) * e == x
  {
  }

  /** A number's whole part and twice its remainder, without dividing. */
  lemma WholeParts(v: real, part: real, q: int, y: real, e: real)
    requires e > 0.0 && v * e == q as real * e + y && part * e == y && 0.0 <= y < e
    ensures v.Floor == q && (2.0 * (v - q as real) >= 1.0 <==> 2.0 * y >= e)
  {
    SumTimes(q as real, part, e);
    SameQuotient(v, q as real + part, e);
    UnitQuotient(part, e);
    FloorOf(v, q, part);
    if 2.0 * part >= 1.0 {
      HalfTimes(part, e);
    } else {
      HalfTimesBelow(part, e);
    }
  }

  lemma RealParts(x: real, q: int, y: real, e: real)
    requires e > 0.0 && x == q as real * e + y && 0.0 <= y < e
    ensures (x / e).Floor == q && (2.0 * (x / e - q as real) >= 1.0 <==> 2.0 * y >= e)
  {
    Divided(x, e);
    Divided(y, e);
    WholeParts(x / e, y / e, q, y, e);
  }

  lemma SumTimes(a: real, b: real, e: real)
    ensures (a + b) * e == a * e + b * e
  {
  }

  lemma RealTimes(q: int, d: int)
    ensures (q * d) as real == q as real * d as real
  {
  }

  lemma Euclid(n: nat, d: nat)
    requires d > 0
    ensures n == n / d * d + n % d && 0 <= n % d < d
  {
  }

  lemma QuotientParts(n: nat, d: nat)
    requires d > 0
    ensures var v := n as real / d as real;
            v.Floor == n / d && (2.0 * (v - v.Floor as real) >= 1.0 <==> 2 * (n % d) >= d)
  {
    var q, r := n / d, n % d;
    Euclid(n, d);
    RealTimes(q, d);
    RealParts(n as real, q, r as real, d as real);
  }

  lemma HalfTimes(p: real, d: real)
    requires d > 0.0 && 2.0 * p >= 1.0
    ensures 2.0 * (p * d) >= d
  {
  }

  lemma HalfTimesBelow(p: real, d: real)
    requires d > 0.0 && 2.0 * p < 1.0
    ensures 2.0 * (p * d) < d
  {
  }

  /** The rounding depends on the number only, not on the fraction that spells it. */
  lemma FractionIsNumber(numerator: int, denominator: int)
    requires denominator > 0
    ensures RoundFraction(numerator, denominator) == RoundAway(numerator as real / denominator as real)
  {
    QuotientParts(AbsInt(numerator), denominator);
    var v := numerator as real / denominator as real;
    assert v * denominator as real == numerator as real;
    assert v < 0.0 <==> numerator < 0;
    assert AbsReal(v) == AbsInt(numerator) as real / denominator as real;
  }

  /** The rounding is the one integer at distance under a half, or the one away from zero at exactly
      a half. */
  lemma RoundAwayExact(value: real, r: int)
    ensures r == RoundAway(value)
       <==> || AbsReal(r as real - value) < 0.5
            || (AbsReal(r as real - value) == 0.5 && AbsReal(r as real) > AbsReal(value))
  {
    var magnitude := AbsReal(value);
    var q := magnitude.Floor;
    var n := RoundAway(value);
    assert q as real <= magnitude < q as real + 1.0;
    assert n < r ==> n as real + 1.0 <= r as real;
    assert r < n ==> r as real + 1.0 <= n as real;
  }

  lemma RoundAwayNear(value: real)
    ensures AbsReal(RoundAway(value) as real - value) <= 0.5
  {
    RoundAwayExact(value, RoundAway(value));
  }

  lemma RoundAwayOdd(value: real)
    ensures RoundAway(-value) == -RoundAway(value)
  {
    RoundAwayExact(value, RoundAway(value));
    RoundAwayExact(-value, -RoundAway(value));
  }

  lemma RoundAwayMonotone(x: real, y: real)
    requires x <= y
    ensures RoundAway(x) <= RoundAway(y)
  {
    RoundAwayExact(x, RoundAway(x));
    RoundAwayExact(y, RoundAway(y));
    assert RoundAway(y) < RoundAway(x) ==> RoundAway(y) as real + 1.0 <= RoundAway(x) as real;
  }

  lemma RoundAwayWhole(n: int)
    ensures RoundAway(n as real) == n
  {
    RoundAwayExact(n as real, n);
  }

  // ----- rounding each line or rounding the total -----

  function Exact(xs: seq<real>): real {
    if xs == [] then 0.0 else xs[0] + Exact(xs[1..])
  }

  function Rounded(xs: seq<real>): int {
    if xs == [] then 0 else RoundAway(xs[0]) + Rounded(xs[1..])
  }

  function Half(n: nat): real { n as real / 2.0 }

  /** Every line rounds by at most a half, and down by a full half only when it is negative. */
  lemma {:induction false} RoundedBelow(xs: seq<real>)
    ensures Exact(xs) - Rounded(xs) as real <= Half(|xs|)
    ensures Exact(xs) - Rounded(xs) as real == Half(|xs|) ==> xs == [] || Exact(xs) < 0.0
  {
    if xs != [] {
      RoundAwayExact(xs[0], RoundAway(xs[0]));
      RoundedBelow(xs[1..]);
      assert Half(|xs|) == 0.5 + Half(|xs| - 1);
    }
  }

  lemma {:induction false} RoundedAbove(xs: seq<real>)
    ensures Rounded(xs) as real - Exact(xs) <= Half(|xs|)
    ensures Rounded(xs) as real - Exact(xs) == Half(|xs|) ==> xs == [] || Exact(xs) > 0.0
  {
    if xs != [] {
      RoundAwayExact(xs[0], RoundAway(xs[0]));
      RoundedAbove(xs[1..]);
      assert Half(|xs|) == 0.5 + Half(|xs| - 1);
    }
  }

  lemma HalfFloor(n: nat)
    ensures if n % 2 == 0 then Half(n) == (n / 2) as real else Half(n) == (n / 2) as real + 0.5
  {
    if n % 2 == 0 {
      assert n == 2 * (n / 2);
    } else {
      assert n == 2 * (n / 2) + 1;
    }
  }

  /** Rounding line by line and rounding the total differ by at most half the number of lines. */
  lemma RoundedSum(xs: seq<real>)
    ensures -(|xs| / 2) <= Rounded(xs) - RoundAway(Exact(xs)) <= |xs| / 2
  {
    var d, s, m := Rounded(xs), Exact(xs), |xs| / 2;
    RoundedBelow(xs);
    RoundedAbove(xs);
    HalfFloor(|xs|);
    RoundAwayExact(s, RoundAway(s));
    var r := RoundAway(s);
    assert r > d + m ==> r as real >= d as real + m as real + 1.0;
    assert r < d - m ==> r as real + 1.0 <= d as real - m as real;
  }

  function Halves(n: nat): seq<real> {
    if n == 0 then [] else [0.5] + Halves(n - 1)
  }

  lemma {:induction false} HalvesSum(n: nat)
    ensures |Halves(n)| == n && Exact(Halves(n)) == Half(n) && Rounded(Halves(n)) == n
  {
    if n > 0 {
      HalvesSum(n - 1);
      RoundAwayExact(0.5, 1);
      assert Halves(n)[1..] == Halves(n - 1);
      assert Half(n) == 0.5 + Half(n - 1);
    }
  }

  /** No smaller bound holds, for any number of lines. */
  lemma RoundedSumTight(n: nat)
    ensures |Halves(n)| == n && Rounded(Halves(n)) - RoundAway(Exact(Halves(n))) == n / 2
  {
    HalvesSum(n);
    HalfFloor(n);
    RoundAwayExact(Half(n), n - n / 2);
  }
}
