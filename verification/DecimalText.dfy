/** The decimal normal form told on the characters alone: which texts are accepted, and which text each
    becomes. */
module DecimalText {
  import opened Wrappers
  import opened Digits
  import opened Decimals
  import opened Amounts

  predicate Numerals(s: string) {
    forall i | 0 <= i < |s| :: '0' <= s[i] <= '9'
  }

  function Value(s: string): int {
    if s == "" then 0 else 10 * Value(s[..|s| - 1]) + (s[|s| - 1] as int - '0' as int)
  }

  /** Whole digits, and behind a point at most eighteen more. */
  predicate Spelled(raw: string, whole: string, part: string) {
    && whole != "" && Numerals(whole) && Numerals(part) && |part| <= 18
    && raw == if part == "" then whole else whole + "." + part
  }

  function TenTo(n: nat): int { if n == 0 then 1 else 10 * TenTo(n - 1) }

  /** The two spell one number. */
  predicate SameNumber(whole: string, part: string, whole': string, part': string)
    requires |part| <= 18 && |part'| <= 18
  {
    Value(whole + part) * TenTo(18 - |part|) == Value(whole' + part') * TenTo(18 - |part'|)
  }

  /** No zero that could be left out, and at most thirty digits that count. */
  predicate Reduced(whole: string, part: string) {
    && whole != "" && (whole[0] == '0' ==> |whole| == 1)
    && (part != "" ==> part[|part| - 1] != '0') && Value(whole + part) < 1_000_000_000_000_000_000_000_000_000_000
  }

  // ----- characters and digits -----

  lemma {:induction false} ValueIsValue(s: string)
    requires Numerals(s)
    ensures AllDigits(s) && Value(s) == ValueOf(FromText(s))
  {
    if s != "" {
      var n := |s| - 1;
      ValueIsValue(s[..n]);
      assert FromText(s)[..n] == FromText(s[..n]);
    }
  }

  lemma {:induction false} TenIsTen(n: nat)
    ensures TenTo(n) == Pow10(n)
  {
    if n > 0 {
      TenIsTen(n - 1);
    }
  }

  lemma Limit()
    ensures Pow10(30) == 1_000_000_000_000_000_000_000_000_000_000
  {
    assert Pow10(10) == 10_000_000_000;
    PowAdd(10, 10);
    PowAdd(20, 10);
  }

  lemma SpelledDigits(raw: string, whole: string, part: string)
    requires Spelled(raw, whole, part)
    ensures AllDigits(whole) && AllDigits(part) && Split(raw) == Some((FromText(whole), FromText(part)))
    ensures Show(FromText(whole), FromText(part)) == raw
  {
    hide Split;
    SameDigits(whole);
    SameDigits(part);
    FromTextRoundTrip(whole);
    FromTextRoundTrip(part);
    hide Text, FromText;
    var w, p := FromText(whole), FromText(part);
    assert |p| == |part|;
    assert Show(w, p) == whole + if part == "" then "" else "." + part;
    assert whole + "" == whole;
    SplitShow(w, p);
    assert Show(w, p) == raw;
    assert Split(raw) == Some((w, p));
  }

  lemma SameDigits(s: string)
    ensures Numerals(s) <==> AllDigits(s)
  {
  }

  lemma DigitsSpelled(raw: string)
    requires Split(raw).Some?
    ensures var (whole, part) := Split(raw).value; Spelled(raw, Text(whole), Text(part))
  {
    ShowSplit(raw);
    var (whole, part) := Split(raw).value;
    TextRoundTrip(whole);
    TextRoundTrip(part);
  }

  lemma UnitsNumber(whole: string, part: string)
    requires Numerals(whole) && Numerals(part) && |part| <= 18
    ensures AllDigits(whole) && AllDigits(part)
    ensures Units(FromText(whole), FromText(part)) == Value(whole + part) * TenTo(18 - |part|)
    ensures Value(whole + part) == ValueOf(FromText(whole) + FromText(part))
  {
    hide Pow10, ValueOf, Value, TenTo;
    ValueIsValue(whole + part);
    assert AllDigits(whole) && AllDigits(part);
    assert FromText(whole + part) == FromText(whole) + FromText(part);
    TenIsTen(18 - |part|);
  }

  /** The normal form of a text is the reduced spelling of its number, if it has one and is not too long. */
  ghost predicate Becomes(raw: string, t: string, whole: string, part: string, whole': string, part': string) {
    Spelled(raw, whole, part) && Spelled(t, whole', part') && SameNumber(whole, part, whole', part')
        && Reduced(whole', part')
  }

  lemma BecomesDecimal(raw: string, t: string, whole: string, part: string, whole': string, part': string)
    requires |raw| <= 64 && Becomes(raw, t, whole, part, whole', part')
    ensures Decimal(raw) == Some(t)
  {
    hide Pow10, ValueOf, Value, TenTo, Units, Split;
    SpelledDigits(raw, whole, part);
    SpelledDigits(t, whole', part');
    UnitsNumber(whole, part);
    UnitsNumber(whole', part');
    Limit();
    var w, p, w', p' := FromText(whole), FromText(part), FromText(whole'), FromText(part');
    var a, b := OrZero(StripLeading(w)), StripTrailing(p);
    StripKeeps(w, p);
    LeadingKeeps(w, b);
    NormalUnique(a, b, w', p');
    Significant(a + b);
  }

  /** The digits of a normal form make a reduced spelling. */
  lemma NormalReduced(a: seq<Digit>, b: seq<Digit>)
    requires Normal(a, b) && ValueOf(a + b) < Pow10(MAX_SIGNIFICANT)
    ensures Reduced(Text(a), Text(b))
  {
    hide Pow10, ValueOf, Value;
    TextRoundTrip(a);
    TextRoundTrip(b);
    UnitsNumber(Text(a), Text(b));
    Limit();
  }

  lemma DecimalParts(raw: string, t: string)
    requires Decimal(raw) == Some(t)
    ensures |raw| <= 64 && Split(raw).Some? && Split(t).Some?
    ensures var (w, p) := Split(raw).value; var (a, b) := Split(t).value;
            && |p| <= MAX_SCALE && |b| <= MAX_SCALE && Normal(a, b) && Units(w, p) == Units(a, b)
            && ValueOf(a + b) < Pow10(MAX_SIGNIFICANT)
  {
    hide Pow10, ValueOf, Units;
    ShowSplit(raw);
    var (w, p) := Split(raw).value;
    var a, b := OrZero(StripLeading(w)), StripTrailing(p);
    LeadingKeeps(w, b);
    StripKeeps(w, p);
    SplitShow(a, b);
    Significant(a + b);
  }

  lemma DecimalBecomes(raw: string, t: string)
    requires Decimal(raw) == Some(t)
    ensures |raw| <= 64 && exists whole, part, whole', part' :: Becomes(raw, t, whole, part, whole', part')
  {
    hide Pow10, ValueOf, Value, TenTo, Units, Decimal, Split, Reduced, Normal;
    DecimalParts(raw, t);
    DigitsSpelled(raw);
    DigitsSpelled(t);
    var (w, p) := Split(raw).value;
    var (a, b) := Split(t).value;
    TextRoundTrip(w);
    TextRoundTrip(p);
    TextRoundTrip(a);
    TextRoundTrip(b);
    UnitsNumber(Text(w), Text(p));
    UnitsNumber(Text(a), Text(b));
    NormalReduced(a, b);
    assert Becomes(raw, t, Text(w), Text(p), Text(a), Text(b));
  }

  lemma DecimalExact(raw: string, t: string)
    ensures Decimal(raw) == Some(t)
       <==> |raw| <= 64 && exists whole, part, whole', part' :: Becomes(raw, t, whole, part, whole', part')
  {
    hide Decimal, Becomes;
    if Decimal(raw) == Some(t) {
      DecimalBecomes(raw, t);
    }
    if |raw| <= 64 && exists whole, part, whole', part' :: Becomes(raw, t, whole, part, whole', part') {
      var whole, part, whole', part' :| Becomes(raw, t, whole, part, whole', part');
      BecomesDecimal(raw, t, whole, part, whole', part');
    }
  }

  // ----- amounts -----

  /** Digits without a leading zero, behind at most one minus sign. */
  ghost predicate Atoms(atoms: string, digits: string) {
    && (atoms == digits || atoms == "-" + digits)
    && digits != "" && Numerals(digits) && (digits[0] == '0' ==> digits == "0")
  }

  lemma AmountAccepts(atoms: string, scale: nat)
    ensures Amount(atoms, scale).Some? <==> exists digits :: Atoms(atoms, digits)
  {
    if Amount(atoms, scale).Some? {
      assert Atoms(atoms, Magnitude(atoms));
    }
    if digits :| Atoms(atoms, digits) {
      assert atoms == "-" + digits ==> atoms[1..] == digits;
      assert Magnitude(atoms) == digits;
    }
  }
}
