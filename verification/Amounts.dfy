/** Whole atoms shown at a scale: the display is already the decimal normal form. */
module Amounts {
  import opened Wrappers
  import opened Digits
  import opened Decimals

  /** `0|[1-9][0-9]*` */
  predicate Numeral(s: string) {
    s != "" && AllDigits(s) && (s[0] == '0' ==> |s| == 1)
  }

  function ZFill(s: string, width: nat): (r: string)
    ensures |r| == if |s| < width then width else |s|
  {
    if |s| < width then seq(width - |s|, _ => '0') + s else s
  }

  /** The text without the trailing run of `c`. */
  function RStrip(s: string, c: char): string {
    if s != "" && s[|s| - 1] == c then RStrip(s[..|s| - 1], c) else s
  }

  function Unsigned(digits: string, scale: nat): string {
    var filled := ZFill(digits, scale + 1);
    if scale == 0 then filled
    else
      var at := |filled| - scale;
      RStrip(RStrip(filled[..at] + "." + filled[at..], '0'), '.')
  }

  predicate Signed(atoms: string) { atoms != "" && atoms[0] == '-' }

  /** The atoms without their sign. */
  function Magnitude(atoms: string): string { if Signed(atoms) then atoms[1..] else atoms }

  function Amount(atoms: string, scale: nat): Option<string> {
    var digits := Magnitude(atoms);
    if !Numeral(digits) then None
    else Some((if Signed(atoms) then "-" else "") + Unsigned(digits, scale))
  }

  // ----- the digits of the display -----

  lemma NumeralDigits(s: string)
    requires Numeral(s)
    ensures DigitsOf(ValueOf(FromText(s))) == FromText(s) && Text(FromText(s)) == s
  {
    FromTextRoundTrip(s);
    DigitsOfValue(FromText(s));
  }

  function Filled(ds: seq<Digit>, scale: nat): (r: seq<Digit>)
    ensures |r| > scale
  {
    if |ds| < scale + 1 then Zeros(scale + 1 - |ds|) + ds else ds
  }

  function Whole(ds: seq<Digit>, scale: nat): seq<Digit> {
    Filled(ds, scale)[..|Filled(ds, scale)| - scale]
  }

  function Part(ds: seq<Digit>, scale: nat): seq<Digit> {
    Filled(ds, scale)[|Filled(ds, scale)| - scale..]
  }

  lemma FilledText(ds: seq<Digit>, scale: nat)
    ensures ZFill(Text(ds), scale + 1) == Text(Filled(ds, scale))
  {
  }

  lemma {:induction false} StripZeros(head: string, ds: seq<Digit>)
    ensures RStrip(head + "." + Text(ds), '0') == head + "." + Text(StripTrailing(ds))
  {
    var s := head + "." + Text(ds);
    if ds == [] {
      assert s[|s| - 1] == '.';
    } else {
      var n := |ds| - 1;
      assert s[|s| - 1] == ToChar(ds[n]);
      assert s[..|s| - 1] == head + "." + Text(ds[..n]);
      if ds[n] == 0 {
        StripZeros(head, ds[..n]);
      }
    }
  }

  lemma StripPoint(whole: seq<Digit>, part: seq<Digit>)
    requires whole != []
    ensures RStrip(Text(whole) + "." + Text(part), '.') == Show(whole, part)
  {
    var s := Text(whole) + "." + Text(part);
    if part == [] {
      assert s[..|s| - 1] == Text(whole);
      assert Text(whole)[|whole| - 1] == ToChar(whole[|whole| - 1]);
    } else {
      assert s[|s| - 1] == ToChar(part[|part| - 1]);
    }
  }

  lemma TextSlices(ds: seq<Digit>, at: nat)
    requires at <= |ds|
    ensures Text(ds)[..at] == Text(ds[..at]) && Text(ds)[at..] == Text(ds[at..])
  {
  }

  lemma UnsignedShow(ds: seq<Digit>, scale: nat)
    requires ds != []
    ensures Unsigned(Text(ds), scale) == Show(Whole(ds, scale), StripTrailing(Part(ds, scale)))
  {
    hide RStrip, Text, StripTrailing;
    FilledText(ds, scale);
    var filled := Filled(ds, scale);
    if scale > 0 {
      TextSlices(filled, |filled| - scale);
      StripZeros(Text(Whole(ds, scale)), Part(ds, scale));
      StripPoint(Whole(ds, scale), StripTrailing(Part(ds, scale)));
    } else {
      assert Part(ds, scale) == [] && Whole(ds, scale) == ds == filled;
      NothingToStrip(ds);
    }
  }

  lemma NothingToStrip(ds: seq<Digit>)
    ensures Show(ds, StripTrailing([])) == Text(ds)
  {
  }

  lemma {:induction false} ZerosAhead(n: nat, ds: seq<Digit>)
    ensures ValueOf(Zeros(n) + ds) == ValueOf(ds)
  {
    ValueOfAppend(Zeros(n), ds);
    ZerosValue(n);
  }

  lemma WholeNormal(ds: seq<Digit>, scale: nat)
    requires ds != [] && (ds[0] == 0 ==> |ds| == 1) && scale <= MAX_SCALE
    ensures Normal(Whole(ds, scale), StripTrailing(Part(ds, scale)))
    ensures Units(Whole(ds, scale), StripTrailing(Part(ds, scale))) == ValueOf(ds) * Pow10(MAX_SCALE - scale)
  {
    hide Pow10, ValueOf;
    assert Whole(ds, scale) + Part(ds, scale) == Filled(ds, scale);
    if |ds| < scale + 1 {
      ZerosAhead(scale + 1 - |ds|, ds);
    }
    TrailingKeeps(Whole(ds, scale), Part(ds, scale));
  }

  lemma Shorter(whole: seq<Digit>, part: seq<Digit>)
    ensures ValueOf(whole + StripTrailing(part)) <= ValueOf(whole + part)
    decreases |part|
  {
    if part != [] && part[|part| - 1] == 0 {
      var n := |part| - 1;
      Shorter(whole, part[..n]);
      assert (whole + part)[..|whole + part| - 1] == whole + part[..n];
    }
  }

  // ----- the theorems -----

  lemma AmountText(ds: seq<Digit>, scale: nat)
    requires ds != [] && (ds[0] == 0 ==> |ds| == 1)
    ensures Amount(Text(ds), scale) == Some(Show(Whole(ds, scale), StripTrailing(Part(ds, scale))))
  {
    hide Unsigned;
    UnsignedShow(ds, scale);
    TextRoundTrip(ds);
    assert "" + Unsigned(Text(ds), scale) == Unsigned(Text(ds), scale);
  }

  lemma AmountFits(n: nat, scale: nat)
    requires n < Pow10(MAX_SIGNIFICANT) && scale <= MAX_SCALE
    ensures var ds := DigitsOf(n);
            var a, b := Whole(ds, scale), StripTrailing(Part(ds, scale));
            |Show(a, b)| <= MAX_TEXT && ValueOf(a + b) < Pow10(MAX_SIGNIFICANT)
  {
    hide Pow10, ValueOf, DigitsOf;
    var ds := DigitsOf(n);
    ValueOfDigits(n);
    DigitCount(n);
    Shorter(Whole(ds, scale), Part(ds, scale));
    assert Whole(ds, scale) + Part(ds, scale) == Filled(ds, scale);
    if |ds| < scale + 1 {
      ZerosAhead(scale + 1 - |ds|, ds);
    }
  }

  /** Up to thirty digits of atoms at a scale of at most eighteen are shown in decimal normal form,
      and the number shown is the atoms at that scale. */
  lemma AmountNormal(n: nat, scale: nat)
    requires n < Pow10(MAX_SIGNIFICANT) && scale <= MAX_SCALE
    ensures var t := Amount(Text(DigitsOf(n)), scale);
            && t.Some? && Decimal(t.value) == t
            && Number(t.value) == Some(n * Pow10(MAX_SCALE - scale))
  {
    hide Pow10, ValueOf, Units, DigitsOf, Amount, Show, Whole, Part, Decimal, Split;
    var ds := DigitsOf(n);
    var a, b := Whole(ds, scale), StripTrailing(Part(ds, scale));
    ValueOfDigits(n);
    AmountText(ds, scale);
    WholeNormal(ds, scale);
    AmountFits(n, scale);
    SplitShow(a, b);
    NormalKept(a, b);
  }

  lemma {:induction false} DigitCount(n: nat)
    requires n < Pow10(MAX_SIGNIFICANT)
    ensures |DigitsOf(n)| <= MAX_SIGNIFICANT
  {
    hide Pow10, ValueOf;
    ValueOfDigits(n);
    if DigitsOf(n)[0] != 0 {
      LeadingDigit(DigitsOf(n));
      if |DigitsOf(n)| > MAX_SIGNIFICANT {
        PowMonotone(MAX_SIGNIFICANT, |DigitsOf(n)| - 1);
      }
    }
  }

  /** A negative amount is shown as its magnitude behind the sign, minus zero included. */
  lemma AmountSigned(digits: string, scale: nat)
    requires Numeral(digits)
    ensures Amount(digits, scale).Some? && Amount("-" + digits, scale) == Some("-" + Amount(digits, scale).value)
  {
    hide Unsigned;
    assert ("-" + digits)[1..] == digits;
    assert "" + Unsigned(digits, scale) == Unsigned(digits, scale);
  }

  lemma SignRefused(t: string)
    ensures Decimal("-" + t).None?
  {
    var raw := "-" + t;
    assert raw[0] == '-' && raw != [];
    assert PointAt(raw) >= 1;
    PointIn(raw);
    assert !IsDigit(raw[..PointAt(raw)][0]);
  }

  /** The display is its own decimal normal form exactly when the atoms carry no sign. */
  lemma DisplayNormalExact(atoms: string, scale: nat)
    requires var digits := Magnitude(atoms); Numeral(digits) && ValueOf(FromText(digits)) < Pow10(MAX_SIGNIFICANT)
    requires scale <= MAX_SCALE
    ensures var t := Amount(atoms, scale); t.Some? && (Decimal(t.value) == t <==> atoms[0] != '-')
  {
    hide Pow10, ValueOf, Amount, Decimal, Numeral;
    var digits := Magnitude(atoms);
    NumeralDigits(digits);
    AmountNormal(ValueOf(FromText(digits)), scale);
    NumeralStart(digits);
    if Signed(atoms) {
      assert atoms == "-" + digits;
      AmountSigned(digits, scale);
      SignRefused(Amount(digits, scale).value);
    }
  }

  lemma NumeralStart(digits: string)
    requires Numeral(digits)
    ensures digits != "" && digits[0] != '-'
  {
  }

  lemma ZeroDigits(scale: nat)
    ensures StripTrailing(Part([0], scale)) == [] && Whole([0], scale) == [0]
  {
    assert Filled([0], scale) == Zeros(scale + 1);
    assert Part([0], scale) == [] + Zeros(scale) && Whole([0], scale) == [0];
    StripPadded([], scale);
  }

  /** Minus zero is displayed as minus zero, at every scale, and no decimal text is spelled that way. */
  lemma MinusZero(scale: nat)
    ensures Amount("0", scale) == Some("0") && Amount("-0", scale) == Some("-0") && Decimal("-0").None?
  {
    hide Amount, Whole, Part, StripTrailing;
    assert Text([0]) == "0" && Numeral("0");
    AmountText([0], scale);
    ZeroDigits(scale);
    NothingBehind([0]);
    assert "-0" == "-" + "0";
    AmountSigned("0", scale);
    SignRefused("0");
  }

  lemma NothingBehind(whole: seq<Digit>)
    ensures Show(whole, []) == Text(whole)
  {
  }

  /** Different atoms are never shown alike at one scale. */
  lemma AmountInjective(m: nat, n: nat, scale: nat)
    requires m < Pow10(MAX_SIGNIFICANT) && n < Pow10(MAX_SIGNIFICANT) && scale <= MAX_SCALE
    ensures Amount(Text(DigitsOf(m)), scale) == Amount(Text(DigitsOf(n)), scale) <==> m == n
  {
    hide Pow10, Amount, Number, Decimal;
    AmountNormal(m, scale);
    AmountNormal(n, scale);
    SameTimes(m, n, Pow10(MAX_SCALE - scale));
  }

  lemma SameTimes(m: nat, n: nat, p: nat)
    requires p >= 1
    ensures m * p == n * p ==> m == n
  {
    if m < n {
      TimesMonotone(m + 1, n, p);
    } else if n < m {
      TimesMonotone(n + 1, m, p);
    }
  }
}
