/** Decimal text: its normal form, the number it denotes, and whole atoms shown at a scale. */
module Decimals {
  import opened Wrappers
  import opened Digits

  const MAX_TEXT := 64
  const MAX_SCALE := 18
  const MAX_SIGNIFICANT := 30

  // ----- digits and text -----

  predicate IsDigit(c: char) { '0' <= c <= '9' }

  function ToDigit(c: char): Digit
    requires IsDigit(c)
  {
    c as int - '0' as int
  }

  function ToChar(d: Digit): (c: char)
    ensures IsDigit(c) && ToDigit(c) == d
  {
    ('0' as int + d) as char
  }

  function Text(ds: seq<Digit>): (s: string)
    ensures |s| == |ds|
  {
    seq(|ds|, i requires 0 <= i < |ds| => ToChar(ds[i]))
  }

  predicate AllDigits(s: string) {
    forall i | 0 <= i < |s| :: IsDigit(s[i])
  }

  function FromText(s: string): (ds: seq<Digit>)
    requires AllDigits(s)
    ensures |ds| == |s|
  {
    seq(|s|, i requires 0 <= i < |s| => ToDigit(s[i]))
  }

  lemma TextRoundTrip(ds: seq<Digit>)
    ensures AllDigits(Text(ds)) && FromText(Text(ds)) == ds
  {
  }

  lemma FromTextRoundTrip(s: string)
    requires AllDigits(s)
    ensures Text(FromText(s)) == s
  {
    forall i | 0 <= i < |s| ensures Text(FromText(s))[i] == s[i] {
    }
  }

  // ----- stripping -----

  function StripLeading(ds: seq<Digit>): seq<Digit> {
    if ds != [] && ds[0] == 0 then StripLeading(ds[1..]) else ds
  }

  function StripTrailing(ds: seq<Digit>): (r: seq<Digit>)
    ensures |r| <= |ds|
    ensures r != [] ==> r[|r| - 1] != 0
    ensures r == ds[..|r|]
  {
    if ds != [] && ds[|ds| - 1] == 0 then StripTrailing(ds[..|ds| - 1]) else ds
  }

  function OrZero(ds: seq<Digit>): seq<Digit> { if ds == [] then [0] else ds }

  // ----- the normal form -----

  function PointAt(s: string): nat {
    if s == [] || s[0] == '.' then 0 else 1 + PointAt(s[1..])
  }

  /** The whole and fractional digits of `[0-9]+(\.[0-9]{1,18})?`, or nothing. */
  function Split(raw: string): Option<(seq<Digit>, seq<Digit>)> {
    var at := PointAt(raw);
    if at > |raw| || at == 0 || !AllDigits(raw[..at]) then None
    else if at == |raw| then Some((FromText(raw), []))
    else
      var part := raw[at + 1..];
      if !(1 <= |part| <= MAX_SCALE) || !AllDigits(part) then None else Some((FromText(raw[..at]), FromText(part)))
  }

  function Show(whole: seq<Digit>, part: seq<Digit>): string {
    Text(whole) + if part == [] then "" else "." + Text(part)
  }

  function Decimal(raw: string): Option<string> {
    match Split(raw)
    case None => None
    case Some((whole, part)) =>
      var a, b := OrZero(StripLeading(whole)), StripTrailing(part);
      if |raw| > MAX_TEXT || |OrZero(StripLeading(a + b))| > MAX_SIGNIFICANT then None else Some(Show(a, b))
  }

  // ----- the number -----

  /** The number in units of ten to the minus eighteen. */
  function Units(whole: seq<Digit>, part: seq<Digit>): nat
    requires |part| <= MAX_SCALE
  {
    ValueOf(whole + part) * Pow10(MAX_SCALE - |part|)
  }

  function Number(raw: string): Option<nat> {
    match Split(raw)
    case None => None
    case Some((whole, part)) => if |part| <= MAX_SCALE then Some(Units(whole, part)) else None
  }

  // ----- text and digits correspond -----

  lemma {:induction false} PointIn(s: string)
    ensures PointAt(s) <= |s| && (PointAt(s) < |s| ==> s[PointAt(s)] == '.')
    ensures forall i :: 0 <= i < PointAt(s) ==> s[i] != '.'
  {
    if s != [] && s[0] != '.' {
      PointIn(s[1..]);
    }
  }

  lemma PointFound(s: string, at: nat)
    requires at <= |s| && (at < |s| ==> s[at] == '.') && forall i :: 0 <= i < at ==> s[i] != '.'
    ensures PointAt(s) == at
  {
    PointIn(s);
  }

  lemma SplitShow(whole: seq<Digit>, part: seq<Digit>)
    requires whole != [] && |part| <= MAX_SCALE
    ensures Split(Show(whole, part)) == Some((whole, part))
  {
    var s := Show(whole, part);
    TextRoundTrip(whole);
    TextRoundTrip(part);
    PointFound(s, |whole|);
    assert s[..|whole|] == Text(whole);
    if part == [] {
      assert s == Text(whole);
    } else {
      assert s[|whole| + 1..] == Text(part);
    }
  }

  lemma ShowSplit(raw: string)
    requires Split(raw).Some?
    ensures var (whole, part) := Split(raw).value; whole != [] && |part| <= MAX_SCALE && Show(whole, part) == raw
  {
    var at := PointAt(raw);
    PointIn(raw);
    FromTextRoundTrip(raw[..at]);
    if at < |raw| {
      FromTextRoundTrip(raw[at + 1..]);
      assert raw == raw[..at] + "." + raw[at + 1..];
    } else {
      assert raw[..at] == raw;
    }
  }

  // ----- stripping keeps the number -----

  lemma {:induction false} LeadingKeeps(ds: seq<Digit>, rest: seq<Digit>)
    ensures ValueOf(StripLeading(ds) + rest) == ValueOf(ds + rest)
    ensures StripLeading(ds) != [] ==> StripLeading(ds)[0] != 0
    ensures |StripLeading(ds)| <= |ds|
  {
    if ds != [] && ds[0] == 0 {
      LeadingKeeps(ds[1..], rest);
      ZeroAhead(ds[1..] + rest);
      assert ds + rest == [0] + (ds[1..] + rest);
    }
  }

  lemma ZeroAhead(ds: seq<Digit>)
    ensures ValueOf([0] + ds) == ValueOf(ds)
  {
    ValueOfAppend([0], ds);
    assert [0][..0] == [] && ValueOf([0]) == 0;
  }

  /** One fractional zero less. */
  lemma ZeroDropped(ds: seq<Digit>, n: nat)
    requires ds != [] && ds[|ds| - 1] == 0
    ensures ValueOf(ds[..|ds| - 1]) * Pow10(n + 1) == ValueOf(ds) * Pow10(n)
  {
    Distribute(ValueOf(ds[..|ds| - 1]), Pow10(n));
  }

  lemma {:induction false} TrailingKeeps(whole: seq<Digit>, part: seq<Digit>)
    requires |part| <= MAX_SCALE
    ensures Units(whole, StripTrailing(part)) == Units(whole, part)
  {
    hide Pow10, ValueOf;
    if part != [] && part[|part| - 1] == 0 {
      var shorter := part[..|part| - 1];
      TrailingKeeps(whole, shorter);
      assert (whole + part)[..|whole + part| - 1] == whole + shorter;
      ZeroDropped(whole + part, MAX_SCALE - |part|);
    }
  }

  lemma StripKeeps(whole: seq<Digit>, part: seq<Digit>)
    requires |part| <= MAX_SCALE
    ensures Units(OrZero(StripLeading(whole)), StripTrailing(part)) == Units(whole, part)
  {
    hide Pow10, ValueOf;
    var b := StripTrailing(part);
    TrailingKeeps(whole, part);
    LeadingKeeps(whole, b);
    if StripLeading(whole) == [] {
      ZeroAhead(b);
      assert [] + b == b;
    }
  }

  // ----- one normal form for each number -----

  /** No leading zero but a lone one, no trailing fractional zero. */
  ghost predicate Normal(whole: seq<Digit>, part: seq<Digit>) {
    && whole != [] && (whole[0] == 0 ==> |whole| == 1)
    && |part| <= MAX_SCALE && (part != [] ==> part[|part| - 1] != 0)
  }

  function Zeros(n: nat): seq<Digit> { seq(n, _ => 0) }

  lemma {:induction false} ZerosBehind(ds: seq<Digit>, n: nat)
    ensures ValueOf(ds + Zeros(n)) == ValueOf(ds) * Pow10(n)
  {
    ValueOfAppend(ds, Zeros(n));
    ZerosValue(n);
  }

  lemma {:induction false} ZerosValue(n: nat)
    ensures ValueOf(Zeros(n)) == 0
  {
    if n > 0 {
      assert Zeros(n)[..n - 1] == Zeros(n - 1);
      ZerosValue(n - 1);
    }
  }

  function Padded(part: seq<Digit>): (r: seq<Digit>)
    requires |part| <= MAX_SCALE
    ensures |r| == MAX_SCALE
  {
    part + Zeros(MAX_SCALE - |part|)
  }

  lemma {:induction false} StripPadded(part: seq<Digit>, n: nat)
    requires part != [] ==> part[|part| - 1] != 0
    ensures StripTrailing(part + Zeros(n)) == part
  {
    var s := part + Zeros(n);
    if n > 0 {
      assert s[..|s| - 1] == part + Zeros(n - 1);
      StripPadded(part, n - 1);
    } else {
      assert s == part;
    }
  }

  lemma UnitsParts(whole: seq<Digit>, part: seq<Digit>)
    requires |part| <= MAX_SCALE
    ensures Units(whole, part) == ValueOf(whole) * Pow10(MAX_SCALE) + ValueOf(Padded(part))
    ensures ValueOf(Padded(part)) < Pow10(MAX_SCALE)
  {
    ZerosBehind(whole + part, MAX_SCALE - |part|);
    assert whole + part + Zeros(MAX_SCALE - |part|) == whole + Padded(part);
    ValueOfAppend(whole, Padded(part));
    ValueBound(Padded(part));
  }

  lemma TimesMonotone(x: nat, y: nat, base: nat)
    requires x <= y
    ensures x * base <= y * base && (x > 0 ==> x * base == (x - 1) * base + base)
  {
  }

  lemma SameParts(x: nat, y: nat, p: nat, q: nat, base: nat)
    requires p < base && q < base && x * base + p == y * base + q
    ensures x == y && p == q
  {
    if x < y {
      TimesMonotone(x + 1, y, base);
    } else if y < x {
      TimesMonotone(y + 1, x, base);
    }
  }

  lemma NormalUnique(a: seq<Digit>, b: seq<Digit>, c: seq<Digit>, d: seq<Digit>)
    requires Normal(a, b) && Normal(c, d) && Units(a, b) == Units(c, d)
    ensures a == c && b == d
  {
    hide Units, Pow10, ValueOf, DigitsOf, Padded;
    UnitsParts(a, b);
    UnitsParts(c, d);
    SameParts(ValueOf(a), ValueOf(c), ValueOf(Padded(b)), ValueOf(Padded(d)), Pow10(MAX_SCALE));
    DigitsOfValue(a);
    DigitsOfValue(c);
    ValueInjective(Padded(b), Padded(d));
    Unpadded(b);
    Unpadded(d);
  }

  lemma Unpadded(part: seq<Digit>)
    requires |part| <= MAX_SCALE && (part != [] ==> part[|part| - 1] != 0)
    ensures StripTrailing(Padded(part)) == part
  {
    StripPadded(part, MAX_SCALE - |part|);
  }

  // ----- significant digits -----

  lemma {:induction false} LeadingDigit(ds: seq<Digit>)
    requires ds != [] && ds[0] != 0
    ensures ValueOf(ds) >= Pow10(|ds| - 1)
  {
    var n := |ds| - 1;
    if n > 0 {
      LeadingDigit(ds[..n]);
    } else {
      assert ds[..0] == [];
    }
  }

  lemma {:induction false} PowMonotone(m: nat, n: nat)
    requires m <= n
    ensures Pow10(m) <= Pow10(n)
  {
    if m < n {
      PowMonotone(m, n - 1);
    }
  }

  lemma EmptyValue()
    ensures ValueOf([]) == 0
  {
  }

  lemma Significant(ds: seq<Digit>)
    ensures |OrZero(StripLeading(ds))| <= MAX_SIGNIFICANT <==> ValueOf(ds) < Pow10(MAX_SIGNIFICANT)
  {
    hide Pow10, ValueOf;
    var s := StripLeading(ds);
    LeadingKeeps(ds, []);
    assert s + [] == s && ds + [] == ds;
    ValueBound(s);
    EmptyValue();
    if s != [] {
      LeadingDigit(s);
      if |s| <= MAX_SIGNIFICANT {
        PowMonotone(|s|, MAX_SIGNIFICANT);
      } else {
        PowMonotone(MAX_SIGNIFICANT, |s| - 1);
      }
    }
  }

  // ----- the theorems -----

  /** Accepted texts are those of the grammar, at most sixty-four characters long, whose digits
      without trailing fractional zeros number less than ten to the thirty. */
  lemma DecimalAccepts(raw: string)
    ensures Decimal(raw).Some? <==>
      && |raw| <= MAX_TEXT && Split(raw).Some?
      && ValueOf(Split(raw).value.0 + StripTrailing(Split(raw).value.1)) < Pow10(MAX_SIGNIFICANT)
  {
    match Split(raw)
    case None =>
    case Some((whole, part)) =>
      var a, b := OrZero(StripLeading(whole)), StripTrailing(part);
      Significant(a + b);
      LeadingKeeps(whole, b);
      if StripLeading(whole) == [] {
        ZeroAhead(b);
        assert [] + b == b;
      }
  }

  lemma DecimalNormal(raw: string)
    requires Decimal(raw).Some?
    ensures Split(raw).Some? && Split(Decimal(raw).value).Some?
    ensures var (a, b) := Split(Decimal(raw).value).value;
            Normal(a, b) && Number(raw) == Some(Units(a, b)) && Show(a, b) == Decimal(raw).value
  {
    ShowSplit(raw);
    var (whole, part) := Split(raw).value;
    var a, b := OrZero(StripLeading(whole)), StripTrailing(part);
    LeadingKeeps(whole, b);
    StripKeeps(whole, part);
    SplitShow(a, b);
  }

  /** The normal form denotes the number of the text it came from. */
  lemma DecimalPreserves(raw: string)
    requires Decimal(raw).Some?
    ensures Number(raw).Some? && Number(Decimal(raw).value) == Number(raw)
  {
    DecimalNormal(raw);
  }

  /** Two accepted texts have one normal form exactly when they denote one number. */
  lemma DecimalDecides(x: string, y: string)
    requires Decimal(x).Some? && Decimal(y).Some?
    ensures Decimal(x) == Decimal(y) <==> Number(x) == Number(y)
  {
    DecimalNormal(x);
    DecimalNormal(y);
    if Number(x) == Number(y) {
      var (a, b) := Split(Decimal(x).value).value;
      var (c, d) := Split(Decimal(y).value).value;
      NormalUnique(a, b, c, d);
    }
  }

  /** A text in normal form is kept, as long as its digits fit. */
  lemma NormalKept(a: seq<Digit>, b: seq<Digit>)
    requires Normal(a, b) && |Show(a, b)| <= MAX_TEXT && ValueOf(a + b) < Pow10(MAX_SIGNIFICANT)
    ensures Decimal(Show(a, b)) == Some(Show(a, b))
  {
    SplitShow(a, b);
    Significant(a + b);
    StripNormal(a, b);
  }

  lemma StripNormal(a: seq<Digit>, b: seq<Digit>)
    requires Normal(a, b)
    ensures OrZero(StripLeading(a)) == a && StripTrailing(b) == b
  {
    if a[0] == 0 {
      assert a == [0] && a[1..] == [];
    }
  }

  lemma DecimalIdempotent(raw: string)
    requires Decimal(raw).Some?
    ensures Decimal(Decimal(raw).value) == Decimal(raw)
  {
    DecimalNormal(raw);
    DecimalAccepts(raw);
    ShowSplit(raw);
    var (whole, part) := Split(raw).value;
    var a, b := OrZero(StripLeading(whole)), StripTrailing(part);
    LeadingKeeps(whole, b);
    Significant(a + b);
    NormalKept(a, b);
  }
}
