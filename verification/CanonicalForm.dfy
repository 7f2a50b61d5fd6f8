/** The theorems about the canonical form that identities and delivery keys rest on. */
module CanonicalForm {
  import opened Wrappers
  import opened Unicode
  import opened Digits
  import opened Json
  import opened Reader
  import opened KeyOrder
  import opened Multisets
  import opened RoundTrip
  import opened Faithful

  // ----- canonical text is encodable and starts with an ASCII character -----

  lemma {:induction false} EscapedScalars(s: Text)
    requires Scalars(s)
    ensures Scalars(EscapeAll(s))
  {
    if s != [] {
      EscapedScalars(s[1..]);
      assert Scalars(EscapeOne(s[0]));
    }
  }

  lemma {:induction false} JoinedScalars(ts: seq<Text>)
    requires forall i :: 0 <= i < |ts| ==> Scalars(ts[i])
    ensures Scalars(Join(ts))
  {
    if |ts| > 1 {
      JoinedScalars(ts[1..]);
    }
  }

  ghost predicate Plain(t: Text) {
    t != [] && t[0] < 0x80 && Scalars(t)
  }

  lemma IntPlain(i: int)
    ensures Plain(IntText(i))
  {
  }

  lemma {:induction false} TextPlain(v: Json, depth: nat)
    requires Canonical(v, depth).Some?
    ensures Plain(Canonical(v, depth).value)
    decreases v, 1
  {
    hide IntText;
    match v
    case Bool(_) =>
    case Int(i) => IntPlain(i);
    case Str(s) => EscapedScalars(s);
    case Arr(items) =>
      ItemsPlain(items, depth + 1);
      JoinedScalars(CanonicalItems(items, depth + 1).value);
    case Obj(es) =>
      EntriesPlain(es, depth + 1);
      var ps := CanonicalEntries(es, depth + 1).value;
      SortedScalars(ps);
      JoinedScalars(Values(SortKeyed(ps)));
  }

  lemma {:induction false} ItemsPlain(items: seq<Json>, depth: nat)
    requires CanonicalItems(items, depth).Some?
    ensures forall t :: t in CanonicalItems(items, depth).value ==> Scalars(t)
    decreases items, 0
  {
    hide Canonical;
    if items != [] {
      TextPlain(items[0], depth);
      ItemsPlain(items[1..], depth);
    }
  }

  lemma MemberPlain(key: Text, t: Text)
    requires Scalars(key) && Scalars(t)
    ensures Scalars(QuoteText(key) + [COLON] + t)
  {
    EscapedScalars(key);
  }

  lemma {:induction false} EntriesPlain(es: seq<Keyed<Json>>, depth: nat)
    requires CanonicalEntries(es, depth).Some?
    ensures forall p :: p in CanonicalEntries(es, depth).value ==> Scalars(p.value)
    decreases es, 0
  {
    hide Canonical, QuoteText, Scalars;
    if es != [] {
      TextPlain(es[0].value, depth);
      EntriesPlain(es[1..], depth);
      MemberPlain(es[0].key, Canonical(es[0].value, depth).value);
    }
  }

  lemma SortedScalars(ps: seq<Keyed<Text>>)
    requires forall p :: p in ps ==> Scalars(p.value)
    ensures forall p :: p in SortKeyed(ps) ==> Scalars(p.value)
  {
    hide Scalars;
    SortPermutes(ps);
    forall p | p in SortKeyed(ps) ensures p in ps {
      assert p in multiset(SortKeyed(ps));
    }
  }

  // ----- normal forms are values of the same kind -----

  lemma {:induction false} NormalWellFormed(v: Json)
    requires WellFormed(v) && Keys(v)
    ensures WellFormed(Normalize(v)) && Keys(Normalize(v)) && Normalize(Normalize(v)) == Normalize(v)
    decreases v, 1
  {
    match v
    case Arr(items) => NormalArray(items);
    case Obj(es) => NormalObjectForm(es);
    case _ =>
  }

  lemma {:induction false} NormalArray(items: seq<Json>)
    requires WellFormed(Arr(items)) && Keys(Arr(items))
    ensures var n := Normalize(Arr(items)); WellFormed(n) && Keys(n) && Normalize(n) == n
    decreases items, 0
  {
    var ns := NormalizeItems(items);
    forall i | 0 <= i < |items| ensures ns[i] == Normalize(items[i]) && WellFormed(ns[i]) && Keys(ns[i])
        && Normalize(ns[i]) == ns[i] {
      ItemAt(items, i);
      NormalWellFormed(items[i]);
    }
    SameItems(ns, items);
  }

  ghost predicate NormalEntry(e: Keyed<Json>) {
    Scalars(e.key) && WellFormed(e.value) && Keys(e.value) && Normalize(e.value) == e.value
  }

  lemma {:induction false} FixedEntries(ns: seq<Keyed<Json>>)
    requires forall i :: 0 <= i < |ns| ==> NormalEntry(ns[i])
    ensures NormalizeEntries(ns) == ns
  {
    hide Normalize, WellFormed, Keys, Scalars;
    forall i | 0 <= i < |ns| ensures NormalizeEntries(ns)[i] == ns[i] {
      EntryAt(ns, i);
    }
  }

  lemma {:induction false} NormalObjectForm(es: seq<Keyed<Json>>)
    requires WellFormed(Obj(es)) && Keys(Obj(es))
    ensures var n := Normalize(Obj(es)); WellFormed(n) && Keys(n) && Normalize(n) == n
    decreases es, 0
  {
    var ns := NormalizeEntries(es);
    forall i | 0 <= i < |es| ensures NormalEntry(ns[i]) {
      EntryAt(es, i);
      NormalWellFormed(es[i].value);
    }
    NormalizedKeys(es);
    assert ScalarKeys(ns);
    SortSorts(ns);
    SortPermutes(ns);
    forall i | 0 <= i < |ns| ensures NormalEntry(SortKeyed(ns)[i]) {
      SameMembers(SortKeyed(ns), ns, SortKeyed(ns)[i]);
    }
    FixedEntries(SortKeyed(ns));
    SortIdempotent(ns);
  }

  // ----- the theorems -----

  lemma EncodedStart(t: Text)
    requires Plain(t)
    ensures !(BOM <= EncodeAll(t)) && EncodeAll(t)[0] == t[0]
  {
    assert EncodeOne(t[0]) == [t[0]];
    assert EncodeAll(t) == [t[0]] + EncodeAll(t[1..]);
    assert EncodeAll(t)[0] < BOM[0];
  }

  lemma DocumentReads(t: Text, n: Json)
    requires Reads(t, n)
    ensures ParseDocument(t) == Some(n)
  {
    hide ParseValue;
    assert t + [] == t;
    NoSkip(t);
    assert Delimited([]);
    assert ParseValue(t + []) == Some((n, []));
  }

  /** Every admissible value has canonical bytes, and the strict reader returns the value from them,
      with its objects in key order. */
  lemma CanonicalFaithful(v: Json)
    requires WellFormed(v) && Admissible(v, 0)
    ensures CanonicalBytes(v).Some?
    ensures StrictJson(CanonicalBytes(v).value) == Some(Normalize(v)) && Same(Normalize(v), v)
  {
    hide Canonical, ParseDocument, Normalize, Reads, WellFormed, Admissible, Keys, Same;
    CanonicalExact(v, 0);
    var t := Canonical(v, 0).value;
    TextPlain(v, 0);
    ReadsBack(v, 0);
    DocumentReads(t, Normalize(v));
    EncodedStart(t);
    DecodeEncoded(t);
    NormalText(v, 0);
    AdmissibleKeys(v, 0);
    NormalWellFormed(v);
    NormalFormsDecide(Normalize(v), v);
  }

  /** Two admissible values share their canonical bytes exactly when they are equal: distinct values
      never collide, and the order in which an object's keys were inserted never shows. */
  lemma CanonicalInjective(v: Json, w: Json)
    requires WellFormed(v) && WellFormed(w) && Admissible(v, 0) && Admissible(w, 0)
    ensures CanonicalBytes(v) == CanonicalBytes(w) <==> Same(v, w)
  {
    hide Canonical, StrictJson, Normalize, WellFormed, Admissible, Keys, Same;
    CanonicalFaithful(v);
    CanonicalFaithful(w);
    NormalText(v, 0);
    NormalText(w, 0);
    AdmissibleKeys(v, 0);
    AdmissibleKeys(w, 0);
    NormalFormsDecide(v, w);
  }

  /** The two checks of a pinned canonical text: it parses to the value, and it is the value's text. */
  ghost predicate AssertCanonical(v: Json, raw: seq<Byte>) {
    && StrictJson(raw).Some? && Same(StrictJson(raw).value, v)
    && CanonicalBytes(v) == Some(raw)
  }

  /** The second check already implies the first. */
  lemma AssertCanonicalExact(v: Json, raw: seq<Byte>)
    requires WellFormed(v)
    ensures AssertCanonical(v, raw) <==> CanonicalBytes(v) == Some(raw)
  {
    hide Canonical, StrictJson, Same, Admissible;
    if CanonicalBytes(v) == Some(raw) {
      CanonicalExact(v, 0);
      CanonicalFaithful(v);
    }
  }

  // ----- what the strict reader returns -----

  lemma {:induction false} ValueWellFormed(s: Text)
    requires ParseValue(s).Some?
    ensures WellFormed(ParseValue(s).value.0)
    decreases |s|, 0
  {
    if s[0] == QUOTE {
    } else if s[0] == OPEN_BRACKET {
      var body := SkipWhitespace(s[1..]);
      if !(body != [] && body[0] == CLOSE_BRACKET) {
        ItemsWellFormed(body);
      }
    } else if s[0] == OPEN_BRACE {
      var body := SkipWhitespace(s[1..]);
      if !(body != [] && body[0] == CLOSE_BRACE) {
        EntriesWellFormed(body);
      }
    }
  }

  lemma {:induction false} ItemsWellFormed(s: Text)
    requires ParseItems(s).Some?
    ensures forall v :: v in ParseItems(s).value.0 ==> WellFormed(v)
    decreases |s|, 1
  {
    hide ParseValue, WellFormed;
    ValueWellFormed(s);
    var rest := SkipWhitespace(ParseValue(s).value.1);
    if rest[0] == COMMA {
      ItemsWellFormed(SkipWhitespace(rest[1..]));
    }
  }

  lemma {:induction false} MemberWellFormed(s: Text)
    requires ParseMember(s).Some?
    ensures WellFormed(ParseMember(s).value.0.value)
    decreases |s|, 1
  {
    hide ParseValue, WellFormed;
    var colon := SkipWhitespace(ParseString(s[1..]).value.1);
    ValueWellFormed(SkipWhitespace(colon[1..]));
  }

  lemma {:induction false} EntriesWellFormed(s: Text)
    requires ParseEntries(s).Some?
    ensures forall e :: e in ParseEntries(s).value.0 ==> WellFormed(e.value)
    decreases |s|, 2
  {
    hide ParseMember, WellFormed;
    MemberWellFormed(s);
    var rest := SkipWhitespace(ParseMember(s).value.1);
    if rest[0] == COMMA {
      EntriesWellFormed(SkipWhitespace(rest[1..]));
    }
  }

  /** Whatever the strict reader accepts is a value it would read again: it has no repeated key, it
      is admissible, and printing and reading it once more only puts its keys in order. */
  lemma ReaderSound(raw: seq<Byte>)
    requires StrictJson(raw).Some?
    ensures var v := StrictJson(raw).value;
            && WellFormed(v) && Admissible(v, 0) && CanonicalBytes(v).Some?
            && StrictJson(CanonicalBytes(v).value) == Some(Normalize(v)) && Same(Normalize(v), v)
  {
    hide Canonical, ParseValue, WellFormed, Admissible, Same, Normalize;
    var v := StrictJson(raw).value;
    ValueWellFormed(SkipWhitespace(Decode(raw).value));
    CanonicalExact(v, 0);
    CanonicalFaithful(v);
  }

  /** Two documents the reader accepts mean the same value exactly when their values print alike. */
  lemma DocumentsAgree(raw: seq<Byte>, other: seq<Byte>)
    requires StrictJson(raw).Some? && StrictJson(other).Some?
    ensures Same(StrictJson(raw).value, StrictJson(other).value)
       <==> CanonicalBytes(StrictJson(raw).value) == CanonicalBytes(StrictJson(other).value)
  {
    hide StrictJson, CanonicalBytes, WellFormed, Admissible, Same;
    ReaderSound(raw);
    ReaderSound(other);
    CanonicalInjective(StrictJson(raw).value, StrictJson(other).value);
  }
}
