/** Decimal digit strings, most significant digit first, and the numbers they denote. */
module Digits {

  type Digit = d: int | 0 <= d < 10

  function DigitsOf(n: nat): (ds: seq<Digit>)
    ensures 1 <= |ds| && (ds[0] == 0 ==> n == 0 && |ds| == 1)
  {
    if n < 10 then [n] else DigitsOf(n / 10) + [n % 10]
  }

  function ValueOf(ds: seq<Digit>): nat {
    if ds == [] then 0 else 10 * ValueOf(ds[..|ds| - 1]) + ds[|ds| - 1]
  }

  function Pow10(n: nat): (p: nat)
    ensures 1 <= p
  {
    if n == 0 then 1 else 10 * Pow10(n - 1)
  }

  lemma {:induction false} ValueOfDigits(n: nat)
    ensures ValueOf(DigitsOf(n)) == n
  {
    if n >= 10 {
      var ds := DigitsOf(n);
      assert ds[..|ds| - 1] == DigitsOf(n / 10);
      ValueOfDigits(n / 10);
    } else {
      assert DigitsOf(n)[..0] == [];
    }
  }

  /** A numeral without a leading zero is the numeral of its value. */
  lemma {:induction false} DigitsOfValue(ds: seq<Digit>)
    requires ds != [] && (ds[0] == 0 ==> |ds| == 1)
    ensures DigitsOf(ValueOf(ds)) == ds
    ensures ValueOf(ds) == 0 <==> ds == [0]
  {
    var n := |ds| - 1;
    var front := ds[..n];
    if n == 0 {
      assert front == [] && ds == [ds[0]];
    } else {
      DigitsOfValue(front);
      assert ValueOf(ds) / 10 == ValueOf(front) && ValueOf(ds) % 10 == ds[n];
      assert ds == front + [ds[n]];
    }
  }

  lemma {:induction false} ValueOfAppend(a: seq<Digit>, b: seq<Digit>)
    ensures ValueOf(a + b) == ValueOf(a) * Pow10(|b|) + ValueOf(b)
  {
    if b == [] {
      assert a + b == a;
    } else {
      var n := |b| - 1;
      ValueOfAppend(a, b[..n]);
      assert (a + b)[..|a + b| - 1] == a + b[..n];
      Distribute(ValueOf(a), Pow10(n));
    }
  }

  lemma Distribute(x: int, p: int)
    ensures 10 * (x * p) == x * (10 * p)
  {
  }

  lemma {:induction false} ValueBound(ds: seq<Digit>)
    ensures ValueOf(ds) < Pow10(|ds|)
  {
    if ds != [] {
      ValueBound(ds[..|ds| - 1]);
    }
  }

  lemma {:induction false} PowAdd(m: nat, n: nat)
    ensures Pow10(m + n) == Pow10(m) * Pow10(n)
  {
    if n > 0 {
      PowAdd(m, n - 1);
      Distribute(Pow10(m), Pow10(n - 1));
    }
  }

  /** Numerals of one length denote different numbers. */
  lemma {:induction false} ValueInjective(a: seq<Digit>, b: seq<Digit>)
    requires |a| == |b| && ValueOf(a) == ValueOf(b)
    ensures a == b
  {
    if a != [] {
      var n := |a| - 1;
      assert a[n] == ValueOf(a) % 10 == b[n];
      ValueInjective(a[..n], b[..n]);
      assert a == a[..n] + [a[n]] && b == b[..n] + [b[n]];
    }
  }
}
