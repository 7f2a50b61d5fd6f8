/** The strict reader accepts exactly the documents of the grammar that denote an admissible value, and
    returns the value that they denote. */
module ReaderExact {
  import opened Wrappers
  import opened Unicode
  import opened Digits
  import opened Json
  import opened Reader
  import opened RoundTrip
  import opened Faithful
  import opened CanonicalForm
  import opened Grammar

  // ----- white space -----

  lemma {:induction false} BlankSkipped(b: Text, s: Text)
    requires Blank(b) && (s != [] ==> !Whitespace(s[0]))
    ensures SkipWhitespace(b + s) == s
  {
    if b == [] {
      assert b + s == s;
    } else {
      assert (b + s)[1..] == b[1..] + s && Whitespace((b + s)[0]);
      BlankSkipped(b[1..], s);
    }
  }

  lemma {:induction false} SkippedIsBlank(s: Text) returns (b: Text)
    ensures s == b + SkipWhitespace(s) && Blank(b)
    ensures SkipWhitespace(s) != [] ==> !Whitespace(SkipWhitespace(s)[0])
  {
    if s != [] && Whitespace(s[0]) {
      var c := SkippedIsBlank(s[1..]);
      b := [s[0]] + c;
      assert s == [s[0]] + s[1..];
    } else {
      b := [];
    }
  }

  // ----- strings -----

  lemma HexIsValue(c: CodePoint)
    ensures HexValue(c) == if Hex(c) < 16 then Some(Hex(c)) else None
    ensures 0 <= Hex(c) <= 16
  {
  }

  lemma UnitRead(t: Text, u: int, rest: Text)
    requires SpellsUnit(t, u)
    ensures ParseUnit(t[2..] + rest) == Some(u) && (t[2..] + rest)[4..] == rest
  {
    HexIsValue(t[2]);
    HexIsValue(t[3]);
    HexIsValue(t[4]);
    HexIsValue(t[5]);
    var s := t[2..] + rest;
    assert s[0] == t[2] && s[1] == t[3] && s[2] == t[4] && s[3] == t[5];
  }

  lemma UnitSound(s: Text)
    requires ParseUnit(s).Some?
    ensures SpellsUnit([0x5C, 0x75] + s[..4], ParseUnit(s).value)
  {
    HexIsValue(s[0]);
    HexIsValue(s[1]);
    HexIsValue(s[2]);
    HexIsValue(s[3]);
  }

  lemma PairReads(t: Text, c: CodePoint, rest: Text)
    requires |t| == 12 && c >= 0x1_0000
    requires SpellsUnit(t[..6], 0xD800 + (c - 0x1_0000) / 0x400) && SpellsUnit(t[6..], 0xDC00 + (c - 0x1_0000) % 0x400)
    ensures ParseUnicodeEscape(t[2..] + rest) == Some((c, rest))
  {
    var high, low := 0xD800 + (c - 0x1_0000) / 0x400, 0xDC00 + (c - 0x1_0000) % 0x400;
    var s, after := t[2..] + rest, t[6..] + rest;
    UnitRead(t[..6], high, after);
    UnitRead(t[6..], low, rest);
    assert s == t[..6][2..] + after;
    assert after[0] == t[6..][0] && after[1] == t[6..][1] && after[2..] == t[6..][2..] + rest;
    hide ParseUnit, SpellsUnit;
    assert after[6..] == rest;
  }

  lemma EscapeReads(t: Text, c: CodePoint, rest: Text)
    requires SpellsChar(t, c) && t != [c] && !Surrogate(c)
    ensures |t| >= 2 && t[0] == BACKSLASH && ParseEscape(t[1..] + rest) == Some((c, rest))
  {
    var s := t[1..] + rest;
    if SpellsShort(t, c) {
      assert s[1..] == rest;
    } else {
      assert s[1..] == t[2..] + rest;
      if c < 0x1_0000 {
        UnitRead(t, c, rest);
      } else {
        assert t[..6][0] == t[0] && t[..6][1] == t[1];
        PairReads(t, c, rest);
      }
      hide ParseUnit, ParseUnicodeEscape;
    }
  }

  lemma CharacterReads(t: Text, c: CodePoint, tail: Text, text: Text, rest: Text)
    requires SpellsChar(t, c) && !Surrogate(c) && ParseString(tail) == Some((text, rest))
    ensures ParseString(t + tail) == Some(([c] + text, rest))
  {
    hide ParseEscape, SpellsShort, SpellsUnit;
    if t == [c] {
      PlainSpelled(t, c);
      assert (t + tail)[1..] == tail;
    } else {
      EscapeReads(t, c, tail);
      assert (t + tail)[1..] == t[1..] + tail;
    }
  }

  lemma PlainSpelled(t: Text, c: CodePoint)
    requires SpellsChar(t, c) && t == [c]
    ensures c >= 0x20 && c != QUOTE && c != BACKSLASH
  {
  }

  lemma {:induction false} SpelledReads(t: Text, s: Text, rest: Text)
    requires Spells(t, s) && Scalars(s)
    ensures ParseString(t + [QUOTE] + rest) == Some((s, rest))
    decreases |s|
  {
    hide SpellsChar;
    if s == [] {
      assert t + [QUOTE] + rest == [QUOTE] + rest && ([QUOTE] + rest)[1..] == rest;
    } else {
      hide ParseString;
      var k :| 0 <= k <= |t| && SpellsChar(t[..k], s[0]) && Spells(t[k..], s[1..]);
      SpelledReads(t[k..], s[1..], rest);
      CharacterReads(t[..k], s[0], t[k..] + [QUOTE] + rest, s[1..], rest);
      assert t + [QUOTE] + rest == t[..k] + (t[k..] + [QUOTE] + rest);
      assert s == [s[0]] + s[1..];
    }
  }

  lemma EscapeSound(s: Text) returns (t: Text)
    requires ParseEscape(s).Some? && !Surrogate(ParseEscape(s).value.0)
    ensures SpellsChar([BACKSLASH] + t, ParseEscape(s).value.0) && s == t + ParseEscape(s).value.1
  {
    var (c, rest) := ParseEscape(s).value;
    if s[0] != UNICODE_ESCAPE {
      t := [s[0]];
      assert s == t + s[1..];
      assert SpellsShort([BACKSLASH] + t, c);
    } else {
      var u := ParseUnit(s[1..]).value;
      UnitSound(s[1..]);
      var after := s[1..][4..];
      if rest == after {
        t := s[..5];
        assert s[1..][..4] == s[1..5] && [BACKSLASH] + t == [0x5C, 0x75] + s[1..5];
        assert s == t + after;
        assert !(0xD800 <= u < 0xDC00);
      } else {
        t := s[..11];
        PairSound(s, u, c, rest);
      }
    }
  }

  lemma PairSound(s: Text, u: nat, c: CodePoint, rest: Text)
    requires s != [] && s[0] == UNICODE_ESCAPE && ParseEscape(s) == Some((c, rest)) && ParseUnit(s[1..]) == Some(u)
    requires rest != s[1..][4..]
    ensures |s| >= 11 && SpellsChar([BACKSLASH] + s[..11], c) && s == s[..11] + rest
  {
    var after := s[1..][4..];
    var low := ParseUnit(after[2..]).value;
    UnitSound(s[1..]);
    UnitSound(after[2..]);
    var t := [BACKSLASH] + s[..11];
    assert after == s[5..] && after[2..] == s[7..] && rest == after[6..] == s[11..];
    assert t[..6] == [0x5C, 0x75] + s[1..][..4];
    assert t[6..] == [0x5C, 0x75] + after[2..][..4];
    assert c == 0x1_0000 + 0x400 * (u - 0xD800) + (low - 0xDC00);
    assert (c - 0x1_0000) / 0x400 == u - 0xD800 && (c - 0x1_0000) % 0x400 == low - 0xDC00;
  }

  lemma CharacterSound(s: Text) returns (t: Text)
    requires ParseString(s).Some? && ParseString(s).value.0 != [] && !Surrogate(ParseString(s).value.0[0])
    ensures |t| <= |s| && s == t + s[|t|..] && 0 < |t| && SpellsChar(t, ParseString(s).value.0[0])
    ensures ParseString(s[|t|..]) == Some((ParseString(s).value.0[1..], ParseString(s).value.1))
  {
    if s[0] == BACKSLASH {
      hide ParseEscape, SpellsChar;
      var e := EscapeSound(s[1..]);
      t := [BACKSLASH] + e;
      assert s == [s[0]] + s[1..];
      assert s[|t|..] == ParseEscape(s[1..]).value.1;
    } else {
      t := [s[0]];
    }
  }

  lemma {:induction false} StringSound(s: Text) returns (t: Text)
    requires ParseString(s).Some? && Scalars(ParseString(s).value.0)
    ensures s == t + [QUOTE] + ParseString(s).value.1 && Spells(t, ParseString(s).value.0)
    decreases |s|
  {
    hide ParseString, SpellsChar, Spells, Scalars;
    var (text, rest) := ParseString(s).value;
    if text == [] {
      t := [];
      EmptyString(s);
      NothingSpelled();
    } else {
      ScalarTail(text);
      var c := CharacterSound(s);
      var tail := StringSound(s[|c|..]);
      t := c + tail;
      SpelledMore(c, tail, text);
      assert s == c + (tail + [QUOTE] + rest);
    }
  }

  lemma NothingSpelled()
    ensures Spells([], [])
  {
  }

  lemma ScalarTail(s: Text)
    requires s != [] && Scalars(s)
    ensures !Surrogate(s[0]) && Scalars(s[1..])
  {
  }

  lemma SpelledMore(c: Text, tail: Text, s: Text)
    requires s != [] && SpellsChar(c, s[0]) && Spells(tail, s[1..])
    ensures Spells(c + tail, s)
  {
    hide SpellsChar;
    var t := c + tail;
    assert t[..|c|] == c && t[|c|..] == tail;
  }

  lemma EmptyString(s: Text)
    requires ParseString(s).Some? && ParseString(s).value.0 == []
    ensures s == [QUOTE] + ParseString(s).value.1
  {
    hide ParseEscape;
  }

  // ----- numbers -----

  /** What may follow a value in a document. */
  predicate Stops(rest: Text) {
    rest == [] || Whitespace(rest[0]) || rest[0] == COMMA || rest[0] == CLOSE_BRACKET || rest[0] == CLOSE_BRACE
  }

  function DigitsIn(t: Text): seq<Digit>
    requires forall i | 0 <= i < |t| :: 0x30 <= t[i] <= 0x39
  {
    seq(|t|, i requires 0 <= i < |t| => DigitOf(t[i]))
  }

  lemma {:induction false} DecimalIsValue(t: Text)
    requires forall i | 0 <= i < |t| :: 0x30 <= t[i] <= 0x39
    ensures Decimal(t) == ValueOf(DigitsIn(t)) && DigitText(DigitsIn(t)) == t
  {
    if t != [] {
      var n := |t| - 1;
      DecimalIsValue(t[..n]);
      assert DigitsIn(t)[..n] == DigitsIn(t[..n]);
    }
  }

  lemma NumeralReads(t: Text, rest: Text)
    requires Numeral(t) && Stops(rest)
    ensures var s := t + rest;
            && TakeDigits(s) == (DigitsIn(t), rest) && !Fractional(rest) && DigitsIn(t) != []
            && (DigitsIn(t)[0] == 0 ==> s[1..] == rest && Decimal(t) == 0) && ValueOf(DigitsIn(t)) == Decimal(t)
  {
    DecimalIsValue(t);
    DigitsRead(DigitsIn(t), rest);
    if DigitsIn(t)[0] == 0 {
      assert t == [0x30] && t[..0] == [];
    }
  }

  lemma IntReadsAll(t: Text, i: int, rest: Text)
    requires SpellsInt(t, i) && Stops(rest)
    ensures t != [] && (t[0] == MINUS || IsDigit(t[0])) && ParseInt(t + rest) == Some((i, rest))
  {
    hide TakeDigits, Fractional, Decimal, Stops;
    if i < 0 {
      NumeralReads(t[1..], rest);
      assert (t + rest)[1..] == t[1..] + rest;
    } else {
      NumeralReads(t, rest);
    }
  }

  lemma {:induction false} DigitsTaken(s: Text)
    ensures var (ds, rest) := TakeDigits(s);
            s == DigitText(ds) + rest && (rest != [] ==> !IsDigit(rest[0]))
  {
    if s != [] && IsDigit(s[0]) {
      DigitsTaken(s[1..]);
      var (ds, rest) := TakeDigits(s[1..]);
      hide TakeDigits;
      DigitAhead(DigitOf(s[0]), ds);
      hide DigitText;
      assert s == [s[0]] + s[1..];
    }
  }

  lemma DigitAhead(d: Digit, ds: seq<Digit>)
    ensures DigitText([d] + ds) == [DigitChar(d)] + DigitText(ds)
  {
  }

  lemma NumeralOf(ds: seq<Digit>)
    requires ds != [] && (ds[0] == 0 ==> |ds| == 1)
    ensures Numeral(DigitText(ds)) && Decimal(DigitText(ds)) == ValueOf(ds)
  {
    DecimalIsValue(DigitText(ds));
    assert DigitsIn(DigitText(ds)) == ds;
  }

  /** The digits that an integer token takes: a single zero, or all there are. */
  lemma NumeralTaken(body: Text) returns (digits: Text)
    requires TakeDigits(body).0 != []
    ensures var (ds, after) := TakeDigits(body);
            && Numeral(digits) && Decimal(digits) == (if ds[0] == 0 then 0 else ValueOf(ds))
            && body == digits + (if ds[0] == 0 then body[1..] else after)
  {
    var (ds, after) := TakeDigits(body);
    DigitsTaken(body);
    hide TakeDigits;
    if ds[0] == 0 {
      digits := [0x30];
      assert digits[..0] == [];
      assert body[0] == DigitText(ds)[0];
      assert body == [body[0]] + body[1..];
    } else {
      digits := DigitText(ds);
      NumeralOf(ds);
    }
  }

  lemma IntSound(s: Text) returns (t: Text)
    requires s != [] && ParseInt(s).Some?
    ensures SpellsInt(t, ParseInt(s).value.0) && s == t + ParseInt(s).value.1
  {
    hide TakeDigits, Numeral, Decimal, Fractional, ValueOf;
    var body := if s[0] == MINUS then s[1..] else s;
    var digits := NumeralTaken(body);
    if s[0] == MINUS {
      t := [MINUS] + digits;
      assert s == [s[0]] + s[1..] && t[1..] == digits;
    } else {
      t := digits;
    }
  }

  // ----- values -----

  /** Every string and key in the value can be encoded. */
  ghost predicate ScalarTexts(v: Json) {
    match v
    case Str(s) => Scalars(s)
    case Arr(items) => forall i :: 0 <= i < |items| ==> ScalarTexts(items[i])
    case Obj(es) => forall i :: 0 <= i < |es| ==> Scalars(es[i].key) && ScalarTexts(es[i].value)
    case _ => true
  }

  lemma {:induction false} AdmissibleTexts(v: Json, depth: nat)
    requires Admissible(v, depth)
    ensures ScalarTexts(v)
  {
    match v
    case Arr(items) =>
      forall i | 0 <= i < |items| ensures ScalarTexts(items[i]) { AdmissibleTexts(items[i], depth + 1); }
    case Obj(es) =>
      forall i | 0 <= i < |es| ensures Scalars(es[i].key) && ScalarTexts(es[i].value) {
        assert AdmissibleEntry(es[i], depth);
        AdmissibleTexts(es[i].value, depth + 1);
      }
    case _ =>
  }

  /** The texts of values start with a character of their own. */
  lemma DenotedStart(t: Text, v: Json)
    requires Denotes(t, v)
    ensures t != [] && !Whitespace(t[0]) && t[0] != CLOSE_BRACKET && t[0] != CLOSE_BRACE
  {
    hide Spells, ItemsDenote, EntriesDenote, Decimal;
  }

  lemma QuotedReads(t: Text, s: Text, rest: Text)
    requires Quoted(t, s) && Scalars(s)
    ensures |t| >= 2 && t[0] == QUOTE && ParseString((t + rest)[1..]) == Some((s, rest))
  {
    hide ParseString, Spells;
    SpelledReads(t[1..|t| - 1], s, rest);
    assert (t + rest)[1..] == t[1..|t| - 1] + [QUOTE] + rest;
  }

  lemma {:induction false} ValueReads(t: Text, v: Json, rest: Text)
    requires Denotes(t, v) && WellFormed(v) && ScalarTexts(v) && Stops(rest)
    ensures ParseValue(t + rest) == Some((v, rest))
    decreases v, 2
  {
    var s := t + rest;
    match v
    case Null => assert NULL_TEXT <= s && s[|NULL_TEXT|..] == rest;
    case Bool(b) => assert (if b then TRUE_TEXT else FALSE_TEXT) <= s && s[|t|..] == rest;
    case Int(i) => IntValueReads(t, i, rest);
    case Str(text) =>
      hide ParseString, Spells;
      QuotedReads(t, text, rest);
    case Arr(items) =>
      var inner := t[1..|t| - 1];
      assert s[1..] == inner + ([CLOSE_BRACKET] + rest);
      if items == [] {
        BlankSkipped(inner, [CLOSE_BRACKET] + rest);
        ParseArray(s, items, rest);
      } else {
        ItemsReadAll(inner, items, rest);
        ParseArray(s, items, rest);
      }
    case Obj(es) =>
      var inner := t[1..|t| - 1];
      assert s[1..] == inner + ([CLOSE_BRACE] + rest);
      if es == [] {
        BlankSkipped(inner, [CLOSE_BRACE] + rest);
        ParseObject(s, es, rest);
      } else {
        EntriesReadAll(inner, es, rest);
        ParseObject(s, es, rest);
      }
  }

  lemma IntValueReads(t: Text, i: int, rest: Text)
    requires SpellsInt(t, i) && Stops(rest)
    ensures ParseValue(t + rest) == Some((Int(i), rest))
  {
    hide ParseInt, SpellsInt;
    IntReadsAll(t, i, rest);
    var s := t + rest;
    assert s[0] == t[0];
    assert !(TRUE_TEXT <= s) && !(FALSE_TEXT <= s) && !(NULL_TEXT <= s);
  }

  lemma LastItem(body: Text, v: Json, behind: Text, rest: Text)
    requires Blank(behind)
    requires ParseValue(body + (behind + ([CLOSE_BRACKET] + rest))) == Some((v, behind + ([CLOSE_BRACKET] + rest)))
    ensures ParseItems(body + (behind + ([CLOSE_BRACKET] + rest))) == Some(([v], rest))
  {
    hide ParseValue, SkipWhitespace, Blank;
    ItemsEnd(behind, [CLOSE_BRACKET] + rest);
    assert ([CLOSE_BRACKET] + rest)[1..] == rest;
  }

  lemma MoreItems(body: Text, v: Json, behind: Text, later: Text, items: seq<Json>, rest: Text)
    requires Blank(behind) && ParseItems(SkipWhitespace(later)) == Some((items, rest))
    requires ParseValue(body + (behind + ([COMMA] + later))) == Some((v, behind + ([COMMA] + later)))
    ensures ParseItems(body + (behind + ([COMMA] + later))) == Some(([v] + items, rest))
  {
    hide ParseValue, SkipWhitespace, Blank;
    ItemsEnd(behind, [COMMA] + later);
    assert ([COMMA] + later)[1..] == later;
  }

  /** Blanks before a value are skipped. */
  lemma Unpadded(before: Text, body: Text, v: Json, end: Text)
    requires Blank(before) && Denotes(body, v)
    ensures SkipWhitespace(before + body + end) == body + end
    ensures body != [] && (body + end)[0] != CLOSE_BRACKET && (body + end)[0] != CLOSE_BRACE
  {
    hide Denotes, SkipWhitespace, Blank;
    DenotedStart(body, v);
    BlankSkipped(before, body + end);
    assert before + body + end == before + (body + end);
  }

  /** What stands behind the text of a list's first value. */
  function Behind(d: Division, last: bool, close: CodePoint, rest: Text): Text {
    d.behind + (if last then [close] + rest else [COMMA] + (d.rest + ([close] + rest)))
  }

  lemma BehindStops(d: Division, last: bool, close: CodePoint, rest: Text)
    requires Blank(d.behind) && (close == CLOSE_BRACKET || close == CLOSE_BRACE)
    ensures Stops(Behind(d, last, close, rest))
  {
    hide Blank, Stops, SkipWhitespace;
    ItemsEnd(d.behind, if last then [close] + rest else [COMMA] + (d.rest + ([close] + rest)));
  }

  lemma ItemsStep(t: Text, items: seq<Json>, d: Division, rest: Text)
    requires items != [] && ItemDivides(t, items, d)
    requires var end := Behind(d, |items| == 1, CLOSE_BRACKET, rest);
             ParseValue(d.body + end) == Some((items[0], end))
    requires |items| > 1 ==> ParseItems(SkipWhitespace(d.rest + ([CLOSE_BRACKET] + rest))) == Some((items[1..], rest))
    ensures var body := SkipWhitespace(t + ([CLOSE_BRACKET] + rest));
            body != [] && body[0] != CLOSE_BRACKET && ParseItems(body) == Some((items, rest))
  {
    hide ParseValue, ParseItems, Denotes, SkipWhitespace, Blank, ItemsDenote;
    var close := [CLOSE_BRACKET] + rest;
    var end := Behind(d, |items| == 1, CLOSE_BRACKET, rest);
    Unpadded(d.before, d.body, items[0], end);
    if |items| == 1 {
      LastItem(d.body, items[0], d.behind, rest);
      assert t + close == d.before + d.body + end;
      assert items == [items[0]];
    } else {
      MoreItems(d.body, items[0], d.behind, d.rest + close, items[1..], rest);
      assert t + close == d.before + d.body + end;
      assert items == [items[0]] + items[1..];
    }
  }

  lemma {:induction false} ItemsReadAll(t: Text, items: seq<Json>, rest: Text)
    requires items != [] && ItemsDenote(t, items)
    requires forall i :: 0 <= i < |items| ==> WellFormed(items[i]) && ScalarTexts(items[i])
    ensures var body := SkipWhitespace(t + ([CLOSE_BRACKET] + rest));
            body != [] && body[0] != CLOSE_BRACKET && ParseItems(body) == Some((items, rest))
    decreases items, 1
  {
    hide ParseValue, ParseItems, WellFormed, ScalarTexts, Denotes, SkipWhitespace, Blank, Stops, Behind;
    var d: Division :| ItemDivides(t, items, d);
    BehindStops(d, |items| == 1, CLOSE_BRACKET, rest);
    ValueReads(d.body, items[0], Behind(d, |items| == 1, CLOSE_BRACKET, rest));
    if |items| > 1 {
      ItemsReadAll(d.rest, items[1..], rest);
    }
    ItemsStep(t, items, d, rest);
  }

  /** Blanks and a closing character or comma stop a value, and are skipped to the latter. */
  lemma ItemsEnd(behind: Text, end: Text)
    requires Blank(behind) && end != [] && (end[0] == COMMA || end[0] == CLOSE_BRACKET || end[0] == CLOSE_BRACE)
    ensures Stops(behind + end) && SkipWhitespace(behind + end) == end
  {
    BlankSkipped(behind, end);
  }

  lemma MemberReadsAll(d: Division, p: Pairing, e: Keyed<Json>, rest: Text)
    requires d.body == p.key + p.before + [COLON] + p.behind + p.value
    requires Quoted(p.key, e.key) && Scalars(e.key) && Blank(p.before) && Blank(p.behind)
    requires Denotes(p.value, e.value) && ParseValue(p.value + rest) == Some((e.value, rest))
    ensures d.body != [] && d.body[0] == QUOTE && ParseMember(d.body + rest) == Some((e, rest))
  {
    hide ParseValue, ParseString, Denotes, Spells, SkipWhitespace, Blank;
    var colon := [COLON] + (p.behind + (p.value + rest));
    var s := d.body + rest;
    QuotedReads(p.key, e.key, p.before + colon);
    assert s == p.key + (p.before + colon);
    BlankSkipped(p.before, colon);
    DenotedStart(p.value, e.value);
    assert (p.value + rest)[0] == p.value[0];
    BlankSkipped(p.behind, p.value + rest);
    assert colon[1..] == p.behind + (p.value + rest);
  }

  lemma LastEntry(body: Text, e: Keyed<Json>, behind: Text, rest: Text)
    requires Blank(behind)
    requires ParseMember(body + (behind + ([CLOSE_BRACE] + rest))) == Some((e, behind + ([CLOSE_BRACE] + rest)))
    ensures ParseEntries(body + (behind + ([CLOSE_BRACE] + rest))) == Some(([e], rest))
  {
    hide ParseMember, SkipWhitespace, Blank;
    ItemsEnd(behind, [CLOSE_BRACE] + rest);
    assert ([CLOSE_BRACE] + rest)[1..] == rest;
  }

  lemma MoreEntries(body: Text, e: Keyed<Json>, behind: Text, later: Text, es: seq<Keyed<Json>>, rest: Text)
    requires Blank(behind) && ParseEntries(SkipWhitespace(later)) == Some((es, rest))
    requires ParseMember(body + (behind + ([COMMA] + later))) == Some((e, behind + ([COMMA] + later)))
    ensures ParseEntries(body + (behind + ([COMMA] + later))) == Some(([e] + es, rest))
  {
    hide ParseMember, SkipWhitespace, Blank;
    ItemsEnd(behind, [COMMA] + later);
    assert ([COMMA] + later)[1..] == later;
  }

  lemma UnpaddedMember(before: Text, body: Text, end: Text)
    requires Blank(before) && body != [] && body[0] == QUOTE
    ensures SkipWhitespace(before + body + end) == body + end
  {
    hide SkipWhitespace, Blank;
    BlankSkipped(before, body + end);
    assert before + body + end == before + (body + end);
  }

  lemma EntriesStep(t: Text, es: seq<Keyed<Json>>, d: Division, p: Pairing, rest: Text)
    requires es != [] && EntryDivides(t, es, d, p) && Scalars(es[0].key)
    requires var end := Behind(d, |es| == 1, CLOSE_BRACE, rest);
             ParseValue(p.value + end) == Some((es[0].value, end))
    requires |es| > 1 ==> ParseEntries(SkipWhitespace(d.rest + ([CLOSE_BRACE] + rest))) == Some((es[1..], rest))
    ensures var body := SkipWhitespace(t + ([CLOSE_BRACE] + rest));
            body != [] && body[0] != CLOSE_BRACE && ParseEntries(body) == Some((es, rest))
  {
    hide ParseMember, ParseValue, ParseEntries, Denotes, SkipWhitespace, Blank, EntriesDenote, Quoted, Scalars;
    var close := [CLOSE_BRACE] + rest;
    var end := Behind(d, |es| == 1, CLOSE_BRACE, rest);
    MemberReadsAll(d, p, es[0], end);
    UnpaddedMember(d.before, d.body, end);
    if |es| == 1 {
      LastEntry(d.body, es[0], d.behind, rest);
      assert t + close == d.before + d.body + end;
      assert es == [es[0]];
    } else {
      MoreEntries(d.body, es[0], d.behind, d.rest + close, es[1..], rest);
      assert t + close == d.before + d.body + end;
      assert es == [es[0]] + es[1..];
    }
  }

  lemma {:induction false} EntriesReadAll(t: Text, es: seq<Keyed<Json>>, rest: Text)
    requires es != [] && EntriesDenote(t, es)
    requires forall i :: 0 <= i < |es| ==>
               WellFormed(es[i].value) && Scalars(es[i].key) && ScalarTexts(es[i].value)
    ensures var body := SkipWhitespace(t + ([CLOSE_BRACE] + rest));
            body != [] && body[0] != CLOSE_BRACE && ParseEntries(body) == Some((es, rest))
    decreases es, 1
  {
    hide ParseMember, ParseEntries, ParseValue, WellFormed, ScalarTexts, Denotes, SkipWhitespace, Blank, Stops, Scalars,
         Quoted, Behind;
    var d: Division, p: Pairing :| EntryDivides(t, es, d, p);
    BehindStops(d, |es| == 1, CLOSE_BRACE, rest);
    ValueReads(p.value, es[0].value, Behind(d, |es| == 1, CLOSE_BRACE, rest));
    if |es| > 1 {
      EntriesReadAll(d.rest, es[1..], rest);
    }
    EntriesStep(t, es, d, p, rest);
  }

  // ----- what is read is denoted -----

  lemma BlanksJoin(a: Text, b: Text)
    requires Blank(a) && Blank(b)
    ensures Blank(a + b)
  {
  }

  lemma ItemsPadded(b: Text, t: Text, items: seq<Json>)
    requires Blank(b) && items != [] && ItemsDenote(t, items)
    ensures ItemsDenote(b + t, items)
  {
    hide Denotes, Blank;
    var d: Division :| ItemDivides(t, items, d);
    BlanksJoin(b, d.before);
    var c := d.(before := b + d.before);
    var first := c.before + c.body + c.behind;
    assert b + t == if |items| == 1 then first else first + [0x2C] + c.rest;
    assert ItemDivides(b + t, items, c);
  }

  lemma EntriesPadded(b: Text, t: Text, es: seq<Keyed<Json>>)
    requires Blank(b) && es != [] && EntriesDenote(t, es)
    ensures EntriesDenote(b + t, es)
  {
    hide Denotes, Blank, Quoted;
    var d: Division, p: Pairing :| EntryDivides(t, es, d, p);
    BlanksJoin(b, d.before);
    var c := d.(before := b + d.before);
    assert b + t == if |es| == 1 then c.before + c.body + c.behind else c.before + c.body + c.behind + [0x2C] + c.rest;
    assert EntryDivides(b + t, es, c, p);
  }

  lemma QuotedSound(s: Text) returns (t: Text)
    requires s != [] && s[0] == QUOTE && ParseString(s[1..]).Some? && Scalars(ParseString(s[1..]).value.0)
    ensures Quoted(t, ParseString(s[1..]).value.0) && s == t + ParseString(s[1..]).value.1
  {
    hide ParseString, Spells;
    var inner := StringSound(s[1..]);
    t := [QUOTE] + inner + [QUOTE];
    assert t[1..|t| - 1] == inner;
    assert s == [s[0]] + s[1..];
  }

  lemma Enclosed(start: CodePoint, inner: Text, end: CodePoint)
    ensures var t := [start] + inner + [end]; |t| >= 2 && t[0] == start && t[|t| - 1] == end && t[1..|t| - 1] == inner
  {
  }

  lemma {:induction false} ArraySound(s: Text) returns (t: Text)
    requires s != [] && s[0] == OPEN_BRACKET && ParseValue(s).Some? && ScalarTexts(ParseValue(s).value.0)
    ensures Denotes(t, ParseValue(s).value.0) && s == t + ParseValue(s).value.1
    decreases |s|, 0
  {
    hide ParseItems, ParseEntries, ItemsDenote, Blank, SkipWhitespace;
    var (v, rest) := ParseValue(s).value;
    var b := SkippedIsBlank(s[1..]);
    var body := SkipWhitespace(s[1..]);
    var inner := b;
    if body != [] && body[0] == CLOSE_BRACKET {
      assert body == [CLOSE_BRACKET] + rest;
    } else {
      var items := ItemsSound(body);
      ItemsPadded(b, items, v.items);
      inner := b + items;
    }
    Enclosed(OPEN_BRACKET, inner, CLOSE_BRACKET);
    t := [OPEN_BRACKET] + inner + [CLOSE_BRACKET];
    assert s == [s[0]] + s[1..] && s[1..] == b + body;
  }

  lemma {:induction false} ObjectSound(s: Text) returns (t: Text)
    requires s != [] && s[0] == OPEN_BRACE && ParseValue(s).Some? && ScalarTexts(ParseValue(s).value.0)
    ensures Denotes(t, ParseValue(s).value.0) && s == t + ParseValue(s).value.1
    decreases |s|, 0
  {
    hide ParseItems, ParseEntries, EntriesDenote, Blank, SkipWhitespace, Scalars;
    var (v, rest) := ParseValue(s).value;
    var b := SkippedIsBlank(s[1..]);
    var body := SkipWhitespace(s[1..]);
    var inner := b;
    if body != [] && body[0] == CLOSE_BRACE {
      assert body == [CLOSE_BRACE] + rest;
    } else {
      var es := EntriesSound(body);
      EntriesPadded(b, es, v.entries);
      inner := b + es;
    }
    Enclosed(OPEN_BRACE, inner, CLOSE_BRACE);
    t := [OPEN_BRACE] + inner + [CLOSE_BRACE];
    assert s == [s[0]] + s[1..] && s[1..] == b + body;
  }

  lemma {:induction false} ValueSound(s: Text) returns (t: Text)
    requires ParseValue(s).Some? && ScalarTexts(ParseValue(s).value.0)
    ensures Denotes(t, ParseValue(s).value.0) && s == t + ParseValue(s).value.1
    decreases |s|, 1
  {
    hide ParseString, ParseItems, ParseEntries, ParseInt, Quoted, ItemsDenote, EntriesDenote, SpellsInt, Blank,
         SkipWhitespace, Scalars;
    var (v, rest) := ParseValue(s).value;
    if s[0] == QUOTE {
      t := QuotedSound(s);
    } else if s[0] == OPEN_BRACKET {
      t := ArraySound(s);
    } else if s[0] == OPEN_BRACE {
      t := ObjectSound(s);
    } else if TRUE_TEXT <= s || FALSE_TEXT <= s || NULL_TEXT <= s {
      t := if TRUE_TEXT <= s then TRUE_TEXT else if FALSE_TEXT <= s then FALSE_TEXT else NULL_TEXT;
      assert s == t + rest;
    } else {
      t := IntSound(s);
    }
  }

  lemma OneItem(body: Text, v: Json, behind: Text)
    requires Denotes(body, v) && Blank(behind)
    ensures ItemsDenote(body + behind, [v])
  {
    hide Denotes, Blank;
    NothingIsBlank();
    var d := Division([], body, behind, []);
    assert body + behind == d.before + d.body + d.behind;
    assert ItemDivides(body + behind, [v], d);
  }

  lemma AnotherItem(body: Text, v: Json, behind: Text, later: Text, items: seq<Json>)
    requires Denotes(body, v) && Blank(behind) && items != [] && ItemsDenote(later, items)
    ensures ItemsDenote(body + behind + [0x2C] + later, [v] + items)
  {
    hide Denotes, Blank;
    NothingIsBlank();
    var d, all, t := Division([], body, behind, later), [v] + items, body + behind + [0x2C] + later;
    assert t == d.before + d.body + d.behind + [0x2C] + d.rest;
    assert all[0] == v && all[1..] == items;
    assert ItemDivides(t, all, d);
  }

  lemma {:induction false} ItemsSound(s: Text) returns (t: Text)
    requires ParseItems(s).Some? && forall v :: v in ParseItems(s).value.0 ==> ScalarTexts(v)
    ensures ParseItems(s).value.0 != [] && ItemsDenote(t, ParseItems(s).value.0)
    ensures s == t + [CLOSE_BRACKET] + ParseItems(s).value.1
    decreases |s|, 2
  {
    hide ParseValue, ScalarTexts, Denotes, SkipWhitespace, Blank, ItemsDenote;
    var (items, rest) := ParseItems(s).value;
    var (v, after) := ParseValue(s).value;
    assert items[0] == v;
    var body := ValueSound(s);
    var behind := SkippedIsBlank(after);
    var end := SkipWhitespace(after);
    if end[0] == CLOSE_BRACKET {
      OneItem(body, v, behind);
      t := body + behind;
      assert end == [CLOSE_BRACKET] + rest;
    } else {
      var later := end[1..];
      var more := ParseItems(SkipWhitespace(later)).value.0;
      assert items == [v] + more && forall w :: w in more ==> w in items;
      var b := SkippedIsBlank(later);
      var inner := ItemsSound(SkipWhitespace(later));
      ItemsPadded(b, inner, more);
      AnotherItem(body, v, behind, b + inner, more);
      t := body + behind + [0x2C] + (b + inner);
      assert end == [COMMA] + later;
    }
  }

  lemma NothingIsBlank()
    ensures Blank([])
  {
  }

  lemma {:induction false} MemberSound(s: Text) returns (p: Pairing)
    requires ParseMember(s).Some?
    requires Scalars(ParseMember(s).value.0.key) && ScalarTexts(ParseMember(s).value.0.value)
    ensures var (e, rest) := ParseMember(s).value;
            && Quoted(p.key, e.key) && Blank(p.before) && Blank(p.behind) && Denotes(p.value, e.value)
            && s == p.key + p.before + [0x3A] + p.behind + p.value + rest
    decreases |s|, 2
  {
    hide ParseValue, ParseString, ScalarTexts, Denotes, SkipWhitespace, Blank, Quoted, Scalars;
    var (key, after) := ParseString(s[1..]).value;
    var quoted := QuotedSound(s);
    var before := SkippedIsBlank(after);
    var colon := SkipWhitespace(after);
    var behind := SkippedIsBlank(colon[1..]);
    var value := ValueSound(SkipWhitespace(colon[1..]));
    p := Pairing(quoted, before, behind, value);
    assert colon == [COLON] + colon[1..];
  }

  lemma OneEntry(body: Text, e: Keyed<Json>, p: Pairing, behind: Text)
    requires body == p.key + p.before + [0x3A] + p.behind + p.value && Blank(behind)
    requires Quoted(p.key, e.key) && Blank(p.before) && Blank(p.behind) && Denotes(p.value, e.value)
    ensures EntriesDenote(body + behind, [e])
  {
    hide Denotes, Blank, Quoted;
    NothingIsBlank();
    var d := Division([], body, behind, []);
    assert body + behind == d.before + d.body + d.behind;
    assert EntryDivides(body + behind, [e], d, p);
  }

  lemma AnotherEntry(body: Text, e: Keyed<Json>, p: Pairing, behind: Text, later: Text, es: seq<Keyed<Json>>)
    requires body == p.key + p.before + [0x3A] + p.behind + p.value && Blank(behind)
    requires Quoted(p.key, e.key) && Blank(p.before) && Blank(p.behind) && Denotes(p.value, e.value)
    requires es != [] && EntriesDenote(later, es)
    ensures EntriesDenote(body + behind + [0x2C] + later, [e] + es)
  {
    hide Denotes, Blank, Quoted;
    NothingIsBlank();
    var d, all, t := Division([], body, behind, later), [e] + es, body + behind + [0x2C] + later;
    assert t == d.before + d.body + d.behind + [0x2C] + d.rest;
    assert all[0] == e && all[1..] == es;
    assert EntryDivides(t, all, d, p);
  }

  lemma {:induction false} EntriesSound(s: Text) returns (t: Text)
    requires ParseEntries(s).Some?
    requires forall e :: e in ParseEntries(s).value.0 ==> Scalars(e.key) && ScalarTexts(e.value)
    ensures ParseEntries(s).value.0 != [] && EntriesDenote(t, ParseEntries(s).value.0)
    ensures s == t + [CLOSE_BRACE] + ParseEntries(s).value.1
    decreases |s|, 3
  {
    hide ParseMember, ScalarTexts, Denotes, SkipWhitespace, Blank, Quoted, Scalars, EntriesDenote;
    var (es, rest) := ParseEntries(s).value;
    var (e, after) := ParseMember(s).value;
    assert es[0] == e;
    var p := MemberSound(s);
    var body := p.key + p.before + [0x3A] + p.behind + p.value;
    var behind := SkippedIsBlank(after);
    var end := SkipWhitespace(after);
    if end[0] == CLOSE_BRACE {
      OneEntry(body, e, p, behind);
      t := body + behind;
      assert end == [CLOSE_BRACE] + rest;
    } else {
      var later := end[1..];
      var more := ParseEntries(SkipWhitespace(later)).value.0;
      assert es == [e] + more && forall w :: w in more ==> w in es;
      var b := SkippedIsBlank(later);
      var inner := EntriesSound(SkipWhitespace(later));
      EntriesPadded(b, inner, more);
      AnotherEntry(body, e, p, behind, b + inner, more);
      t := body + behind + [0x2C] + (b + inner);
      assert end == [COMMA] + later;
    }
  }

  // ----- bytes -----

  lemma EncodedChar(c: CodePoint)
    requires !Surrogate(c)
    ensures Utf8Char(EncodeOne(c), c)
  {
    Split(c);
  }

  lemma CharEncoded(b: seq<Byte>, c: CodePoint)
    requires Utf8Char(b, c)
    ensures !Surrogate(c) && b == EncodeOne(c)
  {
    var e := EncodeOne(c);
    assert |b| == |e|;
    if |b| == 2 {
      Join2Parts(b[0], b[1]);
    } else if |b| == 3 {
      Join3Parts(b[0], b[1], b[2]);
    } else if |b| == 4 {
      Join4Parts(b[0], b[1], b[2], b[3]);
    }
    forall i | 0 <= i < |b| ensures b[i] == e[i] {
    }
  }

  lemma CharExact(b: seq<Byte>, c: CodePoint)
    ensures Utf8Char(b, c) <==> !Surrogate(c) && b == EncodeOne(c)
  {
    hide Utf8Char, EncodeOne, Surrogate;
    if !Surrogate(c) {
      EncodedChar(c);
    }
    if Utf8Char(b, c) {
      CharEncoded(b, c);
    }
  }

  /** The text of the bytes is the one that strict decoding finds. */
  lemma {:induction false} Utf8Exact(raw: seq<Byte>, t: Text)
    ensures Utf8(raw, t) <==> Scalars(t) && EncodeAll(t) == raw
    decreases |t|
  {
    hide Utf8Char, EncodeOne, Surrogate;
    if t != [] {
      var e := EncodeOne(t[0]);
      if k :| 0 <= k <= |raw| && Utf8Char(raw[..k], t[0]) && Utf8(raw[k..], t[1..]) {
        CharExact(raw[..k], t[0]);
        Utf8Exact(raw[k..], t[1..]);
        assert raw == raw[..k] + raw[k..];
        assert t == [t[0]] + t[1..];
      }
      if Scalars(t) && EncodeAll(t) == raw {
        CharExact(e, t[0]);
        Utf8Exact(EncodeAll(t[1..]), t[1..]);
        assert raw[..|e|] == e && raw[|e|..] == EncodeAll(t[1..]);
      }
    }
  }

  // ----- storable values -----

  lemma {:induction false} StorableExact(v: Json, depth: nat)
    ensures Storable(v, depth) <==> WellFormed(v) && Admissible(v, depth)
  {
    match v
    case Arr(items) =>
      forall i | 0 <= i < |items|
        ensures Storable(items[i], depth + 1) <==> WellFormed(items[i]) && Admissible(items[i], depth + 1)
      {
        StorableExact(items[i], depth + 1);
      }
    case Obj(es) =>
      forall i | 0 <= i < |es|
        ensures Storable(es[i].value, depth + 1) <==> WellFormed(es[i].value) && Admissible(es[i].value, depth + 1)
        ensures AdmissibleEntry(es[i], depth) <==> NoSurrogates(es[i].key) && Admissible(es[i].value, depth + 1)
      {
        StorableExact(es[i].value, depth + 1);
        if Admissible(es[i].value, depth + 1) {
          assert depth + 1 <= MAX_DEPTH;
        }
      }
    case _ =>
  }

  // ----- documents -----

  lemma DocumentReads(t: Text, v: Json)
    requires Document(t, v) && WellFormed(v) && ScalarTexts(v)
    ensures ParseDocument(t) == Some(v)
  {
    hide Denotes, ParseValue, SkipWhitespace, Blank, WellFormed, ScalarTexts;
    var d: Division :| DocumentDivides(t, v, d);
    EndStops(d.behind);
    DenotedStart(d.body, v);
    BlankSkipped(d.before, d.body + d.behind);
    assert t == d.before + (d.body + d.behind);
    ValueReads(d.body, v, d.behind);
  }

  lemma EndStops(b: Text)
    requires Blank(b)
    ensures Stops(b) && SkipWhitespace(b) == []
  {
    BlankSkipped(b, []);
    assert b + [] == b;
  }

  lemma DocumentSound(t: Text)
    requires ParseDocument(t).Some? && ScalarTexts(ParseDocument(t).value)
    ensures Document(t, ParseDocument(t).value) && WellFormed(ParseDocument(t).value)
  {
    hide Denotes, ParseValue, SkipWhitespace, Blank, WellFormed, ScalarTexts;
    var v := ParseDocument(t).value;
    var before := SkippedIsBlank(t);
    var body := ValueSound(SkipWhitespace(t));
    var rest := ParseValue(SkipWhitespace(t)).value.1;
    var behind := SkippedIsBlank(rest);
    ValueWellFormed(SkipWhitespace(t));
    assert rest == behind;
    assert DocumentDivides(t, v, Division(before, body, behind, []));
  }

  /** The reader returns a value exactly for a document without a byte order mark that denotes it, if the
      value may be stored. */
  lemma StrictExact(raw: seq<Byte>, v: Json)
    ensures StrictJson(raw) == Some(v)
       <==> && Storable(v, 0) && !([0xEF, 0xBB, 0xBF] <= raw)
            && exists t :: Utf8(raw, t) && Document(t, v)
  {
    hide Storable, WellFormed, Admissible, ScalarTexts, Utf8, Document, ParseDocument, Decode, Canonical, Scalars;
    StorableExact(v, 0);
    CanonicalExact(v, 0);
    if StrictJson(raw) == Some(v) {
      ReaderSound(raw);
      AdmissibleTexts(v, 0);
      var t := Decode(raw).value;
      EncodeDecoded(raw);
      Utf8Exact(raw, t);
      DocumentSound(t);
      assert Utf8(raw, t) && Document(t, v);
    }
    if Storable(v, 0) && !([0xEF, 0xBB, 0xBF] <= raw) && exists t :: Utf8(raw, t) && Document(t, v) {
      var t :| Utf8(raw, t) && Document(t, v);
      Utf8Exact(raw, t);
      DecodeEncoded(t);
      AdmissibleTexts(v, 0);
      DocumentReads(t, v);
      assert CanonicalBytes(v).Some? by {
        CanonicalFaithful(v);
      }
    }
  }
}
