/** The canonical text is a faithful code: the strict reader reads every canonical text back. */
module RoundTrip {
  import opened Wrappers
  import opened Unicode
  import opened Digits
  import opened Json
  import opened Reader
  import opened KeyOrder

  // ----- strings -----

  lemma HexRead(d: int)
    requires 0 <= d < 16
    ensures HexValue(HexDigit(d)) == Some(d)
  {
  }

  lemma EscapeRead(c: CodePoint, rest: Text)
    requires EscapeOne(c) != [c]
    ensures |EscapeOne(c)| >= 2 && EscapeOne(c)[0] == BACKSLASH
    ensures ParseEscape(EscapeOne(c)[1..] + rest) == Some((c, rest))
  {
    var body := EscapeOne(c)[1..] + rest;
    if ShortEscape(c).None? {
      HexRead(c / 16);
      HexRead(c % 16);
      assert body[0] == UNICODE_ESCAPE && body[1..][0] == 0x30 && body[1..][1] == 0x30;
      assert body[1..][2] == HexDigit(c / 16) && body[1..][3] == HexDigit(c % 16);
      assert ParseUnit(body[1..]) == Some(c);
      assert body[1..][4..] == rest;
    } else {
      assert body[1..] == rest;
    }
  }

  lemma CharacterRead(c: CodePoint, tail: Text, text: Text, rest: Text)
    requires ParseString(tail) == Some((text, rest))
    ensures ParseString(EscapeOne(c) + tail) == Some(([c] + text, rest))
  {
    hide ParseEscape, ShortEscape;
    var whole := EscapeOne(c) + tail;
    if EscapeOne(c) == [c] {
      PlainCharacter(c);
      assert whole[0] == c && whole[1..] == tail;
    } else {
      EscapeRead(c, tail);
      assert whole[0] == BACKSLASH && whole[1..] == EscapeOne(c)[1..] + tail;
    }
  }

  lemma QuoteRead(rest: Text)
    ensures ParseString(EscapeAll([]) + [QUOTE] + rest) == Some(([], rest))
  {
    var whole := EscapeAll([]) + [QUOTE] + rest;
    assert whole[0] == QUOTE && whole[1..] == rest;
  }

  lemma EscapeStep(s: Text, end: Text)
    requires s != []
    ensures EscapeAll(s) + end == EscapeOne(s[0]) + (EscapeAll(s[1..]) + end)
  {
    hide EscapeOne;
  }

  lemma {:induction false} StringRead(s: Text, rest: Text)
    ensures ParseString(EscapeAll(s) + [QUOTE] + rest) == Some((s, rest))
  {
    hide ParseString, EscapeOne, EscapeAll;
    var end := [QUOTE] + rest;
    assert EscapeAll(s) + [QUOTE] + rest == EscapeAll(s) + end;
    if s == [] {
      QuoteRead(rest);
    } else {
      var t := s[1..];
      assert EscapeAll(t) + [QUOTE] + rest == EscapeAll(t) + end;
      StringRead(t, rest);
      CharacterRead(s[0], EscapeAll(t) + end, t, rest);
      EscapeStep(s, end);
      assert s == [s[0]] + t;
    }
  }

  lemma PlainCharacter(c: CodePoint)
    requires EscapeOne(c) == [c]
    ensures 0x20 <= c && c != QUOTE && c != BACKSLASH
  {
  }

  // ----- numbers -----

  /** What may follow a value inside canonical text. */
  predicate Delimited(rest: Text) {
    rest == [] || rest[0] == COMMA || rest[0] == CLOSE_BRACKET || rest[0] == CLOSE_BRACE
  }

  lemma {:induction false} DigitsRead(ds: seq<Digit>, rest: Text)
    requires rest == [] || !IsDigit(rest[0])
    ensures TakeDigits(DigitText(ds) + rest) == (ds, rest)
  {
    var s := DigitText(ds) + rest;
    if ds == [] {
      assert s == rest;
    } else {
      DigitsRead(ds[1..], rest);
      assert s[1..] == DigitText(ds[1..]) + rest;
      assert ds == [ds[0]] + ds[1..];
    }
  }

  lemma NumeralRead(ds: seq<Digit>, rest: Text)
    requires ds != [] && (ds[0] == 0 ==> |ds| == 1) && Delimited(rest)
    ensures var s := DigitText(ds) + rest;
            && s != [] && TakeDigits(s) == (ds, rest) && !Fractional(rest) && s[0] == DigitChar(ds[0])
            && (ds[0] == 0 ==> s[1..] == rest)
  {
    DigitsRead(ds, rest);
  }

  lemma IntRead(i: int, rest: Text)
    requires -SAFE_INTEGER <= i <= SAFE_INTEGER && Delimited(rest)
    ensures ParseInt(IntText(i) + rest) == Some((i, rest))
  {
    hide TakeDigits, DigitText, Fractional, DigitsOf, ValueOf, Delimited;
    var magnitude: nat := if i < 0 then -i else i;
    var ds := DigitsOf(magnitude);
    NumeralRead(ds, rest);
    ValueOfDigits(magnitude);
    var s, body := IntText(i) + rest, DigitText(ds) + rest;
    if i < 0 {
      assert s[0] == MINUS && s[1..] == body;
    } else {
      assert s == body;
    }
  }

  lemma IntStarts(i: int)
    ensures IntText(i) != [] && (IntText(i)[0] == MINUS || IsDigit(IntText(i)[0]))
  {
  }

  // ----- values -----

  /** `t` is a text that, before any delimiter, is read as `n`. */
  ghost predicate Reads(t: Text, n: Json) {
    && t != [] && !Whitespace(t[0]) && t[0] != CLOSE_BRACKET
    && forall rest :: Delimited(rest) ==> ParseValue(t + rest) == Some((n, rest))
  }

  ghost predicate MemberReads(t: Text, e: Keyed<Json>) {
    && t != [] && t[0] == QUOTE
    && forall rest :: Delimited(rest) ==> ParseMember(t + rest) == Some((e, rest))
  }

  lemma BoolReads(b: bool)
    ensures Reads(if b then TRUE_TEXT else FALSE_TEXT, Bool(b))
  {
    var t := if b then TRUE_TEXT else FALSE_TEXT;
    forall rest | Delimited(rest)
      ensures ParseValue(t + rest) == Some((Bool(b), rest))
    {
      var s := t + rest;
      assert s[0] == t[0] && t <= s && s[|t|..] == rest;
    }
  }

  lemma IntReads(i: int)
    requires -SAFE_INTEGER <= i <= SAFE_INTEGER
    ensures Reads(IntText(i), Int(i))
  {
    var t := IntText(i);
    IntStarts(i);
    forall rest | Delimited(rest)
      ensures ParseValue(t + rest) == Some((Int(i), rest))
    {
      hide ParseInt;
      IntRead(i, rest);
      var s := t + rest;
      assert s[0] == t[0];
      assert !(TRUE_TEXT <= s) && !(FALSE_TEXT <= s) && !(NULL_TEXT <= s);
    }
  }

  lemma StringReads(text: Text)
    ensures Reads(QuoteText(text), Str(text))
  {
    var t := QuoteText(text);
    forall rest | Delimited(rest)
      ensures ParseValue(t + rest) == Some((Str(text), rest))
    {
      StringValue(text, rest);
    }
  }

  lemma StringValue(text: Text, rest: Text)
    ensures ParseValue(QuoteText(text) + rest) == Some((Str(text), rest))
  {
    hide ParseString, EscapeAll, ParseItems, ParseEntries, ParseInt;
    StringRead(text, rest);
    var s := QuoteText(text) + rest;
    assert s[0] == QUOTE && s[1..] == EscapeAll(text) + [QUOTE] + rest;
  }

  lemma NoSkip(s: Text)
    requires s != [] && !Whitespace(s[0])
    ensures SkipWhitespace(s) == s
  {
  }

  ghost predicate AllRead(ts: seq<Text>, ns: seq<Json>) {
    |ts| == |ns| && forall i :: 0 <= i < |ts| ==> Reads(ts[i], ns[i])
  }

  lemma {:induction false} ItemsRead(ts: seq<Text>, ns: seq<Json>, rest: Text)
    requires ts != [] && AllRead(ts, ns)
    ensures ParseItems(Join(ts) + [CLOSE_BRACKET] + rest) == Some((ns, rest))
    ensures Join(ts) != [] && !Whitespace(Join(ts)[0]) && Join(ts)[0] != CLOSE_BRACKET
  {
    hide ParseValue;
    assert Reads(ts[0], ns[0]);
    var s := Join(ts) + [CLOSE_BRACKET] + rest;
    if |ts| == 1 {
      var after := [CLOSE_BRACKET] + rest;
      assert s == ts[0] + after;
      NoSkip(after);
      assert ns == [ns[0]] && after[1..] == rest;
    } else {
      var later := Join(ts[1..]) + [CLOSE_BRACKET] + rest;
      ItemsRead(ts[1..], ns[1..], rest);
      var after := [COMMA] + later;
      assert s == ts[0] + after;
      NoSkip(after);
      assert after[1..] == later;
      NoSkip(later);
      assert ns == [ns[0]] + ns[1..];
    }
  }

  lemma ParseArray(s: Text, ns: seq<Json>, rest: Text)
    requires s != [] && s[0] == OPEN_BRACKET
    requires var body := SkipWhitespace(s[1..]);
             if body != [] && body[0] == CLOSE_BRACKET then ns == []
                 && rest == body[1..] else ParseItems(body) == Some((ns, rest))
    ensures ParseValue(s) == Some((Arr(ns), rest))
  {
    hide ParseItems, SkipWhitespace;
  }

  lemma ArrayBody(ts: seq<Text>, ns: seq<Json>, rest: Text)
    requires AllRead(ts, ns)
    ensures var body := SkipWhitespace(Join(ts) + [CLOSE_BRACKET] + rest);
            if body != [] && body[0] == CLOSE_BRACKET then ns == []
                && rest == body[1..] else ParseItems(body) == Some((ns, rest))
  {
    hide ParseItems, Reads;
    var body := Join(ts) + [CLOSE_BRACKET] + rest;
    if ts == [] {
      assert body == [CLOSE_BRACKET] + rest;
      NoSkip(body);
      assert body[1..] == rest;
    } else {
      ItemsRead(ts, ns, rest);
      assert body[0] == Join(ts)[0];
      NoSkip(body);
    }
  }

  lemma ArrayReads(ts: seq<Text>, ns: seq<Json>)
    requires AllRead(ts, ns)
    ensures Reads([OPEN_BRACKET] + Join(ts) + [CLOSE_BRACKET], Arr(ns))
  {
    hide ParseItems, ParseValue, AllRead, Join, SkipWhitespace, Delimited;
    var t := [OPEN_BRACKET] + Join(ts) + [CLOSE_BRACKET];
    assert t[0] == OPEN_BRACKET;
    forall rest | Delimited(rest)
      ensures ParseValue(t + rest) == Some((Arr(ns), rest))
    {
      ArrayBody(ts, ns, rest);
      assert (t + rest)[1..] == Join(ts) + [CLOSE_BRACKET] + rest;
      ParseArray(t + rest, ns, rest);
    }
  }

  ghost predicate AllMembersRead(ts: seq<Text>, es: seq<Keyed<Json>>) {
    |ts| == |es| && forall i :: 0 <= i < |ts| ==> MemberReads(ts[i], es[i])
  }

  lemma {:induction false} EntriesRead(ts: seq<Text>, es: seq<Keyed<Json>>, rest: Text)
    requires ts != [] && AllMembersRead(ts, es)
    ensures ParseEntries(Join(ts) + [CLOSE_BRACE] + rest) == Some((es, rest))
    ensures Join(ts) != [] && Join(ts)[0] == QUOTE
  {
    hide ParseMember;
    assert MemberReads(ts[0], es[0]);
    var s := Join(ts) + [CLOSE_BRACE] + rest;
    if |ts| == 1 {
      var after := [CLOSE_BRACE] + rest;
      assert s == ts[0] + after;
      NoSkip(after);
      assert es == [es[0]] && after[1..] == rest;
    } else {
      var later := Join(ts[1..]) + [CLOSE_BRACE] + rest;
      EntriesRead(ts[1..], es[1..], rest);
      var after := [COMMA] + later;
      assert s == ts[0] + after;
      NoSkip(after);
      assert after[1..] == later;
      NoSkip(later);
      assert es == [es[0]] + es[1..];
    }
  }

  lemma ParseObject(s: Text, es: seq<Keyed<Json>>, rest: Text)
    requires s != [] && s[0] == OPEN_BRACE && DistinctKeys(es)
    requires var body := SkipWhitespace(s[1..]);
             if body != [] && body[0] == CLOSE_BRACE then es == []
                 && rest == body[1..] else ParseEntries(body) == Some((es, rest))
    ensures ParseValue(s) == Some((Obj(es), rest))
  {
    hide ParseEntries, SkipWhitespace;
    assert !KeyRepeats(es);
  }

  lemma ObjectBody(ts: seq<Text>, es: seq<Keyed<Json>>, rest: Text)
    requires AllMembersRead(ts, es)
    ensures var body := SkipWhitespace(Join(ts) + [CLOSE_BRACE] + rest);
            if body != [] && body[0] == CLOSE_BRACE then es == []
                && rest == body[1..] else ParseEntries(body) == Some((es, rest))
  {
    hide ParseEntries, MemberReads;
    var body := Join(ts) + [CLOSE_BRACE] + rest;
    if ts == [] {
      assert body == [CLOSE_BRACE] + rest;
      NoSkip(body);
      assert body[1..] == rest;
    } else {
      EntriesRead(ts, es, rest);
      assert body[0] == Join(ts)[0];
      NoSkip(body);
    }
  }

  lemma ObjectReads(ts: seq<Text>, es: seq<Keyed<Json>>)
    requires AllMembersRead(ts, es) && DistinctKeys(es)
    ensures Reads([OPEN_BRACE] + Join(ts) + [CLOSE_BRACE], Obj(es))
  {
    hide ParseEntries, ParseValue, DistinctKeys, AllMembersRead, Join, SkipWhitespace, Delimited;
    var t := [OPEN_BRACE] + Join(ts) + [CLOSE_BRACE];
    assert t[0] == OPEN_BRACE;
    forall rest | Delimited(rest)
      ensures ParseValue(t + rest) == Some((Obj(es), rest))
    {
      ObjectBody(ts, es, rest);
      assert (t + rest)[1..] == Join(ts) + [CLOSE_BRACE] + rest;
      ParseObject(t + rest, es, rest);
    }
  }

  lemma MemberParses(key: Text, t: Text, n: Json, rest: Text)
    requires t != [] && !Whitespace(t[0]) && ParseValue(t + rest) == Some((n, rest))
    ensures ParseMember(QuoteText(key) + [COLON] + t + rest) == Some((Keyed(key, n), rest))
  {
    hide ParseString, ParseValue, EscapeAll;
    var after := [COLON] + (t + rest);
    StringRead(key, after);
    var s := QuoteText(key) + [COLON] + t + rest;
    assert s[0] == QUOTE && s[1..] == EscapeAll(key) + [QUOTE] + after;
    NoSkip(after);
    assert after[1..] == t + rest;
    NoSkip(t + rest);
  }

  lemma MemberRead(key: Text, t: Text, n: Json)
    requires Reads(t, n)
    ensures MemberReads(QuoteText(key) + [COLON] + t, Keyed(key, n))
  {
    hide ParseMember, ParseValue;
    var m := QuoteText(key) + [COLON] + t;
    forall rest | Delimited(rest)
      ensures ParseMember(m + rest) == Some((Keyed(key, n), rest))
    {
      MemberParses(key, t, n, rest);
    }
  }

  // ----- sorting carries members along with their keys -----

  /** Two entry lists with the same keys in the same order, related entry by entry. */
  ghost predicate Aligned(ps: seq<Keyed<Text>>, ns: seq<Keyed<Json>>) {
    |ps| == |ns| && forall i :: 0 <= i < |ps| ==> ps[i].key == ns[i].key && MemberReads(ps[i].value, ns[i])
  }

  lemma SortAligned(ps: seq<Keyed<Text>>, ns: seq<Keyed<Json>>)
    requires Aligned(ps, ns)
    ensures Aligned(SortKeyed(ps), SortKeyed(ns))
  {
    hide MemberReads;
    SortTogether(ps, ns);
  }

  // ----- reading back -----

  lemma {:induction false} ReadsBack(v: Json, depth: nat)
    requires WellFormed(v) && Canonical(v, depth).Some?
    ensures Reads(Canonical(v, depth).value, Normalize(v))
    decreases v, 1
  {
    hide Reads, QuoteText, IntText;
    match v
    case Bool(b) => BoolReads(b);
    case Int(i) => IntReads(i);
    case Str(s) => StringReads(s);
    case Arr(items) =>
      ItemsReadBack(items, depth + 1);
      ArrayReads(CanonicalItems(items, depth + 1).value, NormalizeItems(items));
    case Obj(es) =>
      EntriesReadBack(es, depth + 1);
      var ps, ns := CanonicalEntries(es, depth + 1).value, NormalizeEntries(es);
      SortAligned(ps, ns);
      NormalizedKeys(es);
      SortPermutes(ns);
      PermutedKeys(ns, SortKeyed(ns));
      assert AllMembersRead(Values(SortKeyed(ps)), SortKeyed(ns));
      ObjectReads(Values(SortKeyed(ps)), SortKeyed(ns));
  }

  lemma {:induction false} ItemsReadBack(items: seq<Json>, depth: nat)
    requires CanonicalItems(items, depth).Some? && forall i :: 0 <= i < |items| ==> WellFormed(items[i])
    ensures AllRead(CanonicalItems(items, depth).value, NormalizeItems(items))
    decreases items, 0
  {
    hide Reads;
    if items != [] {
      ReadsBack(items[0], depth);
      ItemsReadBack(items[1..], depth);
    }
  }

  lemma {:induction false} EntriesReadBack(es: seq<Keyed<Json>>, depth: nat)
    requires CanonicalEntries(es, depth).Some? && forall i :: 0 <= i < |es| ==> WellFormed(es[i].value)
    ensures Aligned(CanonicalEntries(es, depth).value, NormalizeEntries(es))
    decreases es, 0
  {
    hide Reads, MemberReads, QuoteText;
    if es != [] {
      ReadsBack(es[0].value, depth);
      MemberRead(es[0].key, Canonical(es[0].value, depth).value, Normalize(es[0].value));
      EntriesReadBack(es[1..], depth);
    }
  }

  lemma {:induction false} NormalizedKeys(es: seq<Keyed<Json>>)
    ensures forall i :: 0 <= i < |es| ==> NormalizeEntries(es)[i].key == es[i].key
    ensures DistinctKeys(es) ==> DistinctKeys(NormalizeEntries(es))
  {
    if es != [] {
      NormalizedKeys(es[1..]);
    }
  }
}
