/** The canonical text is the shortest there is: no document that denotes the value is shorter, and one of the
    same length with its keys in order differs at most in the case of hexadecimal digits, which the canonical
    text has in lower case. */
module Shortest {
  import opened Wrappers
  import opened Unicode
  import opened Digits
  import opened Json
  import opened Reader
  import opened KeyOrder
  import opened Multisets
  import opened RoundTrip
  import opened Faithful
  import opened CanonicalForm
  import opened Grammar
  import opened ReaderExact

  // ----- one character -----

  /** The same text, but for hexadecimal digits in upper case. */
  ghost predicate CaseOnly(a: Text, b: Text) {
    && |a| == |b|
    && forall i :: 0 <= i < |a| ==> a[i] == b[i] || (0x41 <= a[i] <= 0x46 && b[i] == a[i] + 0x20)
  }

  /** The printer spells the character, no spelling of it is shorter, and any as short has the same digits. */
  lemma CharShortest(t: Text, c: CodePoint)
    requires SpellsChar(t, c)
    ensures |EscapeOne(c)| <= |t| && (|t| == |EscapeOne(c)| ==> CaseOnly(t, EscapeOne(c)))
  {
    if SpellsUnit(t, c) && c < 0x20 {
      assert Hex(t[2]) == 0 && Hex(t[3]) == 0 && Hex(t[4]) == c / 16 && Hex(t[5]) == c % 16;
    }
  }

  lemma EscapeSpells(c: CodePoint)
    ensures SpellsChar(EscapeOne(c), c)
    ensures |EscapeOne(c)| == 6 ==> forall i :: 0 <= i < 6 ==> !(0x41 <= EscapeOne(c)[i] <= 0x46)
  {
    if c < 0x20 && ShortEscape(c).None? {
      assert Hex(HexDigit(c / 16)) == c / 16 && Hex(HexDigit(c % 16)) == c % 16;
    }
  }

  // ----- strings -----

  lemma CaseJoins(a: Text, b: Text, c: Text, d: Text)
    requires CaseOnly(a, b) && CaseOnly(c, d)
    ensures CaseOnly(a + c, b + d)
  {
  }

  lemma SameCase(a: Text)
    ensures CaseOnly(a, a)
  {
  }

  lemma {:induction false} StringShortest(t: Text, s: Text)
    requires Spells(t, s)
    ensures |EscapeAll(s)| <= |t| && (|t| == |EscapeAll(s)| ==> CaseOnly(t, EscapeAll(s)))
    decreases |s|
  {
    hide SpellsChar, EscapeOne, CaseOnly;
    if s == [] {
      SameCase([]);
    } else {
      var k :| 0 <= k <= |t| && SpellsChar(t[..k], s[0]) && Spells(t[k..], s[1..]);
      CharShortest(t[..k], s[0]);
      StringShortest(t[k..], s[1..]);
      assert t == t[..k] + t[k..];
      if |t| == |EscapeAll(s)| {
        CaseJoins(t[..k], EscapeOne(s[0]), t[k..], EscapeAll(s[1..]));
      }
    }
  }

  lemma {:induction false} EscapesSpell(s: Text)
    ensures Spells(EscapeAll(s), s)
  {
    hide SpellsChar, EscapeOne;
    if s != [] {
      EscapeSpells(s[0]);
      EscapesSpell(s[1..]);
      var t, k := EscapeAll(s), |EscapeOne(s[0])|;
      assert t[..k] == EscapeOne(s[0]) && t[k..] == EscapeAll(s[1..]);
    }
  }

  lemma EscapeLength(s: Text)
    requires ParseEscape(s).Some?
    ensures |EscapeOne(ParseEscape(s).value.0)| + |ParseEscape(s).value.1| <= 1 + |s|
  {
  }

  /** Whatever the reader reads, surrogates and all, the printer spells at least as shortly. */
  lemma {:induction false} ReadNoShorter(s: Text)
    requires ParseString(s).Some?
    ensures |EscapeAll(ParseString(s).value.0)| + 1 + |ParseString(s).value.1| <= |s|
    decreases |s|
  {
    hide ParseEscape, EscapeOne;
    if s[0] == BACKSLASH {
      EscapeLength(s[1..]);
      var (c, rest) := ParseEscape(s[1..]).value;
      ReadNoShorter(rest);
      var text := ParseString(rest).value.0;
      assert ([c] + text)[1..] == text;
    } else if s[0] != QUOTE {
      ReadNoShorter(s[1..]);
      var text := ParseString(s[1..]).value.0;
      assert ([s[0]] + text)[1..] == text;
      PlainLength(s[0]);
    }
  }

  lemma PlainLength(c: CodePoint)
    requires c >= 0x20 && c != QUOTE && c != BACKSLASH
    ensures |EscapeOne(c)| == 1
  {
  }

  lemma QuotedShortest(t: Text, s: Text)
    requires Quoted(t, s)
    ensures |QuoteText(s)| <= |t| && (|t| == |QuoteText(s)| ==> CaseOnly(t, QuoteText(s)))
  {
    hide Spells, EscapeAll;
    var inner := t[1..|t| - 1];
    StringShortest(inner, s);
    assert t == [QUOTE] + inner + [QUOTE];
  }

  // ----- numbers have one spelling -----

  lemma DigitsStart(t: Text)
    requires Numeral(t)
    ensures DigitsIn(t) != [] && (DigitsIn(t)[0] == 0 ==> |DigitsIn(t)| == 1)
  {
  }

  lemma IntOnlySpelling(t: Text, i: int)
    requires SpellsInt(t, i)
    ensures t == IntText(i)
  {
    hide Decimal, DigitsOf, ValueOf, DigitText, DigitsIn;
    var digits := if i < 0 then t[1..] else t;
    DecimalIsValue(digits);
    DigitsStart(digits);
    DigitsOfValue(DigitsIn(digits));
    assert t == if i < 0 then [MINUS] + digits else digits;
  }

  // ----- sorting keeps lengths -----

  function Lengths(ts: seq<Text>): nat { if ts == [] then 0 else |ts[0]| + Lengths(ts[1..]) }

  lemma {:induction false} JoinLength(ts: seq<Text>)
    ensures |Join(ts)| == Lengths(ts) + (if ts == [] then 0 else |ts| - 1)
  {
    if |ts| == 1 {
      assert Lengths(ts[1..]) == 0;
    } else if ts != [] {
      JoinLength(ts[1..]);
    }
  }

  lemma ValuesStep(ps: seq<Keyed<Text>>)
    requires ps != []
    ensures Values(ps)[0] == ps[0].value && Values(ps)[1..] == Values(ps[1..])
  {
  }

  lemma {:induction false} InsertLengths(p: Keyed<Text>, ps: seq<Keyed<Text>>)
    ensures Lengths(Values(InsertKeyed(p, ps))) == |p.value| + Lengths(Values(ps))
    ensures |InsertKeyed(p, ps)| == |ps| + 1
  {
    var after := InsertKeyed(p, ps);
    ValuesStep(after);
    if ps == [] || !KeyBelow(ps[0].key, p.key) {
      assert after[1..] == ps;
    } else {
      InsertLengths(p, ps[1..]);
      ValuesStep(ps);
      assert after[1..] == InsertKeyed(p, ps[1..]);
    }
  }

  lemma {:induction false} SortLengths(ps: seq<Keyed<Text>>)
    ensures Lengths(Values(SortKeyed(ps))) == Lengths(Values(ps)) && |SortKeyed(ps)| == |ps|
  {
    if ps != [] {
      SortLengths(ps[1..]);
      InsertLengths(ps[0], SortKeyed(ps[1..]));
      ValuesStep(ps);
    }
  }

  lemma SortedLength(ps: seq<Keyed<Text>>)
    ensures |Join(Values(SortKeyed(ps)))| == |Join(Values(ps))|
  {
    SortLengths(ps);
    JoinLength(Values(ps));
    JoinLength(Values(SortKeyed(ps)));
  }

  /** Every object's keys are in order. */
  ghost predicate Ordered(v: Json) {
    match v
    case Arr(items) => forall i :: 0 <= i < |items| ==> Ordered(items[i])
    case Obj(es) => Sorted(es) && forall i :: 0 <= i < |es| ==> Ordered(es[i].value)
    case _ => true
  }

  lemma {:induction false} AscendingSorted<V>(es: seq<Keyed<V>>)
    requires Sorted(es)
    ensures SortKeyed(es) == es
  {
    hide KeyBelow;
    if es != [] {
      AscendingSorted(es[1..]);
      if |es| > 1 {
        BelowOnce(es[0].key, es[1].key);
      }
      assert es == [es[0]] + es[1..];
    }
  }

  lemma BelowOnce(a: Text, b: Text)
    requires KeyBelow(a, b)
    ensures !KeyBelow(b, a)
  {
    BytesTotal(Utf16(a), Utf16(b));
  }

  lemma {:induction false} EntryKeys(es: seq<Keyed<Json>>, depth: nat)
    requires CanonicalEntries(es, depth).Some?
    ensures forall i :: 0 <= i < |es| ==> CanonicalEntries(es, depth).value[i].key == es[i].key
  {
    hide Canonical, CanonicalString;
    if es != [] {
      EntryKeys(es[1..], depth);
    }
  }

  // ----- values -----

  /** At least as long, and as long only with the same digits. */
  ghost predicate AtLeast(t: Text, c: Text, ordered: bool) {
    |c| <= |t| && (|t| == |c| && ordered ==> CaseOnly(t, c))
  }

  lemma AtLeastJoins(a: Text, b: Text, c: Text, d: Text, p: bool, q: bool)
    requires AtLeast(a, b, p) && AtLeast(c, d, q)
    ensures AtLeast(a + c, b + d, p && q)
  {
    if CaseOnly(a, b) && CaseOnly(c, d) {
      CaseJoins(a, b, c, d);
    }
  }

  lemma AtLeastSame(a: Text)
    ensures forall p :: AtLeast(a, a, p)
  {
  }

  /** Blanks only lengthen. */
  lemma PaddedAtLeast(before: Text, t: Text, behind: Text, c: Text, p: bool)
    requires AtLeast(t, c, p)
    ensures AtLeast(before + t + behind, c, p)
  {
    if |before + t + behind| == |c| {
      assert before + t + behind == t;
    }
  }

  lemma {:induction false} ValueShortest(t: Text, v: Json, depth: nat)
    requires Denotes(t, v) && Canonical(v, depth).Some?
    ensures AtLeast(t, Canonical(v, depth).value, Ordered(v))
    decreases v, 2
  {
    hide AtLeast, Quoted, SpellsInt, QuoteText, IntText, Ordered;
    match v
    case Bool(b) => AtLeastSame(t);
    case Int(i) =>
      IntOnlySpelling(t, i);
      AtLeastSame(t);
    case Str(s) => QuotedAtLeast(t, s, Ordered(v));
    case Arr(items) => ArrayShortest(t, items, depth);
    case Obj(es) => ObjectShortest(t, es, depth);
  }

  lemma QuotedAtLeast(t: Text, s: Text, p: bool)
    requires Quoted(t, s)
    ensures AtLeast(t, QuoteText(s), p)
  {
    hide Quoted, QuoteText, CaseOnly;
    QuotedShortest(t, s);
  }

  lemma BracketsAtLeast(t: Text, inner: Text, start: CodePoint, end: CodePoint, p: bool)
    requires |t| >= 2 && t[0] == start && t[|t| - 1] == end && AtLeast(t[1..|t| - 1], inner, p)
    ensures AtLeast(t, [start] + inner + [end], p)
  {
    hide AtLeast;
    AtLeastSame([start]);
    AtLeastSame([end]);
    AtLeastJoins([start], [start], t[1..|t| - 1], inner, true, p);
    AtLeastJoins([start] + t[1..|t| - 1], [start] + inner, [end], [end], p, true);
    assert t == [start] + t[1..|t| - 1] + [end];
  }

  lemma {:induction false} ArrayShortest(t: Text, items: seq<Json>, depth: nat)
    requires Denotes(t, Arr(items)) && Canonical(Arr(items), depth).Some?
    ensures AtLeast(t, Canonical(Arr(items), depth).value, Ordered(Arr(items)))
    decreases Arr(items), 1
  {
    hide AtLeast, CanonicalItems, ItemsDenote;
    var inner := t[1..|t| - 1];
    var ts := CanonicalItems(items, depth + 1).value;
    if items == [] {
      AtLeastEmpty(inner);
      assert ts == [];
    } else {
      ItemsShortest(inner, items, depth + 1);
    }
    BracketsAtLeast(t, Join(ts), OPEN_BRACKET, CLOSE_BRACKET, Ordered(Arr(items)));
  }

  lemma AtLeastEmpty(t: Text)
    ensures forall p :: AtLeast(t, [], p)
  {
  }

  lemma {:induction false} ItemsShortest(t: Text, items: seq<Json>, depth: nat)
    requires items != [] && ItemsDenote(t, items) && CanonicalItems(items, depth).Some?
    ensures AtLeast(t, Join(CanonicalItems(items, depth).value), Ordered(Arr(items)))
    decreases items, 1
  {
    hide AtLeast, Denotes, Canonical, Blank;
    var d: Division :| ItemDivides(t, items, d);
    var ts := CanonicalItems(items, depth).value;
    ValueShortest(d.body, items[0], depth);
    PaddedAtLeast(d.before, d.body, d.behind, ts[0], Ordered(items[0]));
    if |items| == 1 {
      assert Ordered(Arr(items)) <==> Ordered(items[0]);
    } else {
      ItemsShortest(d.rest, items[1..], depth);
      AtLeastSame([COMMA]);
      AtLeastJoins(d.before + d.body + d.behind, ts[0], [COMMA], [COMMA], Ordered(items[0]), true);
      AtLeastJoins(d.before + d.body + d.behind + [COMMA], ts[0] + [COMMA], d.rest, Join(ts[1..]), Ordered(items[0]),
                   Ordered(Arr(items[1..])));
      assert ts[1..] == CanonicalItems(items[1..], depth).value;
      ItemsOrdered(items);
    }
  }

  lemma ItemsOrdered(items: seq<Json>)
    requires items != []
    ensures Ordered(Arr(items)) <==> Ordered(items[0]) && Ordered(Arr(items[1..]))
  {
    assert items == [items[0]] + items[1..];
  }

  lemma {:induction false} ObjectShortest(t: Text, es: seq<Keyed<Json>>, depth: nat)
    requires Denotes(t, Obj(es)) && Canonical(Obj(es), depth).Some?
    ensures AtLeast(t, Canonical(Obj(es), depth).value, Ordered(Obj(es)))
    decreases Obj(es), 1
  {
    hide AtLeast, CanonicalEntries, EntriesDenote, Join, SortKeyed, Ordered;
    var inner := t[1..|t| - 1];
    var ps := CanonicalEntries(es, depth + 1).value;
    var c := Join(Values(SortKeyed(ps)));
    if es == [] {
      AtLeastEmpty(inner);
      NothingSorted(ps);
    } else {
      EntriesShortest(inner, es, depth + 1);
      SortedAtLeast(inner, ps, es, depth + 1);
    }
    BracketsAtLeast(t, c, OPEN_BRACE, CLOSE_BRACE, Ordered(Obj(es)));
  }

  lemma NothingSorted(ps: seq<Keyed<Text>>)
    requires ps == []
    ensures Join(Values(SortKeyed(ps))) == []
  {
  }

  ghost predicate ValuesOrdered(es: seq<Keyed<Json>>) {
    forall i :: 0 <= i < |es| ==> Ordered(es[i].value)
  }

  lemma SortedAtLeast(t: Text, ps: seq<Keyed<Text>>, es: seq<Keyed<Json>>, depth: nat)
    requires CanonicalEntries(es, depth) == Some(ps) && AtLeast(t, Join(Values(ps)), ValuesOrdered(es))
    ensures AtLeast(t, Join(Values(SortKeyed(ps))), Ordered(Obj(es)))
  {
    SortedLength(ps);
    if Ordered(Obj(es)) {
      hide Canonical, Join, CaseOnly;
      EntryKeys(es, depth);
      AscendingSorted(ps);
    }
  }

  lemma MemberShortest(d: Division, p: Pairing, e: Keyed<Json>, depth: nat)
    requires d.body == p.key + p.before + [0x3A] + p.behind + p.value && Quoted(p.key, e.key)
    requires Canonical(e.value, depth).Some?
    requires AtLeast(p.value, Canonical(e.value, depth).value, Ordered(e.value))
    ensures AtLeast(d.body, QuoteText(e.key) + [COLON] + Canonical(e.value, depth).value, Ordered(e.value))
  {
    hide AtLeast, Quoted, QuoteText, Canonical, Ordered;
    var c := Canonical(e.value, depth).value;
    QuotedAtLeast(p.key, e.key, true);
    PaddedAtLeast([], p.key, p.before, QuoteText(e.key), true);
    AtLeastSame([COLON]);
    PaddedAtLeast([], [COLON], p.behind, [COLON], true);
    AtLeastJoins([] + p.key + p.before, QuoteText(e.key), [] + [COLON] + p.behind, [COLON], true, true);
    var front := ([] + p.key + p.before) + ([] + [COLON] + p.behind);
    AtLeastJoins(front, QuoteText(e.key) + [COLON], p.value, c, true, Ordered(e.value));
    assert d.body == front + p.value;
  }

  lemma {:induction false} EntriesShortest(t: Text, es: seq<Keyed<Json>>, depth: nat)
    requires es != [] && EntriesDenote(t, es) && CanonicalEntries(es, depth).Some?
    ensures AtLeast(t, Join(Values(CanonicalEntries(es, depth).value)), ValuesOrdered(es))
    decreases es, 1
  {
    hide AtLeast, Denotes, Canonical, Blank, Quoted, QuoteText;
    var d: Division, p: Pairing :| EntryDivides(t, es, d, p);
    var ps := CanonicalEntries(es, depth).value;
    ValuesStep(ps);
    ValueShortest(p.value, es[0].value, depth);
    MemberShortest(d, p, es[0], depth);
    PaddedAtLeast(d.before, d.body, d.behind, ps[0].value, Ordered(es[0].value));
    if |es| > 1 {
      EntriesShortest(d.rest, es[1..], depth);
      AtLeastSame([COMMA]);
      AtLeastJoins(d.before + d.body + d.behind, ps[0].value, [COMMA], [COMMA], Ordered(es[0].value), true);
      AtLeastJoins(d.before + d.body + d.behind + [COMMA], ps[0].value + [COMMA], d.rest, Join(Values(ps[1..])),
                   Ordered(es[0].value), ValuesOrdered(es[1..]));
      assert ps[1..] == CanonicalEntries(es[1..], depth).value;
    }
    EntriesOrdered(es);
  }

  lemma EntriesOrdered(es: seq<Keyed<Json>>)
    requires es != []
    ensures ValuesOrdered(es) <==> Ordered(es[0].value) && ValuesOrdered(es[1..])
  {
    hide Ordered;
    assert es == [es[0]] + es[1..];
  }

  // ----- keys in order -----

  lemma {:induction false} NormalOrdered(v: Json, depth: nat)
    requires WellFormed(v) && Admissible(v, depth)
    ensures Ordered(Normalize(v))
    decreases v
  {
    match v
    case Arr(items) =>
      forall i | 0 <= i < |items| ensures Ordered(NormalizeItems(items)[i]) {
        NormalOrdered(items[i], depth + 1);
        ItemAt(items, i);
      }
    case Obj(es) =>
      var ns := NormalizeEntries(es);
      forall i | 0 <= i < |es| ensures Ordered(ns[i].value) && Scalars(ns[i].key) {
        assert AdmissibleEntry(es[i], depth);
        NormalOrdered(es[i].value, depth + 1);
        EntryAt(es, i);
      }
      NormalizedKeys(es);
      SortedOrdered(ns);
    case _ =>
  }

  lemma SortedOrdered(ns: seq<Keyed<Json>>)
    requires DistinctKeys(ns) && ScalarKeys(ns) && ValuesOrdered(ns)
    ensures Ordered(Obj(SortKeyed(ns)))
  {
    hide KeyBelow, Scalars;
    SortSorts(ns);
    SortPermutes(ns);
    forall i | 0 <= i < |SortKeyed(ns)| ensures Ordered(SortKeyed(ns)[i].value) {
      SameMembers(SortKeyed(ns), ns, SortKeyed(ns)[i]);
    }
  }

  // ----- documents -----

  /** No document that means the same is shorter than the canonical text. */
  lemma CanonicalShortest(v: Json, t: Text, w: Json)
    requires Storable(v, 0) && Storable(w, 0) && Same(w, v) && Document(t, w)
    ensures Canonical(v, 0).Some?
    ensures |Canonical(v, 0).value| <= |t|
    ensures |Canonical(v, 0).value| == |t| && Ordered(w) ==> CaseOnly(t, Canonical(v, 0).value)
  {
    hide Storable, WellFormed, Admissible, Same, Denotes, Canonical, Ordered, Blank, CaseOnly;
    StorableExact(v, 0);
    StorableExact(w, 0);
    SameCanonical(v, w);
    var d: Division :| DocumentDivides(t, w, d);
    ValueShortest(d.body, w, 0);
    PaddedAtLeast(d.before, d.body, d.behind, Canonical(w, 0).value, Ordered(w));
  }

  lemma SameCanonical(v: Json, w: Json)
    requires WellFormed(v) && WellFormed(w) && Admissible(v, 0) && Admissible(w, 0) && Same(w, v)
    ensures Canonical(v, 0).Some? && Canonical(w, 0) == Canonical(v, 0)
  {
    hide WellFormed, Admissible, Same, Canonical, Normalize;
    CanonicalExact(v, 0);
    CanonicalExact(w, 0);
    AdmissibleKeys(v, 0);
    AdmissibleKeys(w, 0);
    NormalFormsDecide(w, v);
    NormalText(v, 0);
    NormalText(w, 0);
  }

  /** The canonical text is itself such a document: it denotes the value with its keys in order. */
  lemma CanonicalDenotes(v: Json)
    requires Storable(v, 0)
    ensures Canonical(v, 0).Some? && Document(Canonical(v, 0).value, Normalize(v))
    ensures Same(Normalize(v), v) && Ordered(Normalize(v))
  {
    hide Storable, WellFormed, Admissible, Same, Canonical, Normalize, Document, StrictJson, Ordered;
    StorableExact(v, 0);
    NormalOrdered(v, 0);
    CanonicalFaithful(v);
    var raw := CanonicalBytes(v).value;
    StrictExact(raw, Normalize(v));
    var t :| Utf8(raw, t) && Document(t, Normalize(v));
    Utf8Exact(raw, t);
    DecodeEncoded(t);
    DecodeEncoded(Canonical(v, 0).value);
  }
}
