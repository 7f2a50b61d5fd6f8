/** What the canonical form promises: it is total on the admissible values, it is read back by the
    strict reader, and two values share their bytes exactly when they are equal as dictionaries. */
module Faithful {
  import opened Wrappers
  import opened Unicode
  import opened Digits
  import opened Json
  import opened Reader
  import opened KeyOrder
  import opened Multisets
  import opened RoundTrip

  // ----- which values have a canonical form -----

  /** No null, safe integers, encodable strings and keys, at most 32 levels. */
  ghost predicate Admissible(v: Json, depth: nat) {
    && depth <= MAX_DEPTH
    && match v
       case Null => false
       case Bool(_) => true
       case Int(i) => -SAFE_INTEGER <= i <= SAFE_INTEGER
       case Str(s) => Scalars(s)
       case Arr(items) => forall i :: 0 <= i < |items| ==> Admissible(items[i], depth + 1)
       case Obj(es) => forall i :: 0 <= i < |es| ==> AdmissibleEntry(es[i], depth)
  }

  ghost predicate AdmissibleEntry(e: Keyed<Json>, depth: nat) {
    Scalars(e.key) && depth < MAX_DEPTH && Admissible(e.value, depth + 1)
  }

  lemma {:induction false} ItemsExact(items: seq<Json>, depth: nat)
    ensures CanonicalItems(items, depth).Some? <==> forall i :: 0 <= i < |items| ==> Admissible(items[i], depth)
    decreases items, 0
  {
    hide Admissible, Canonical;
    if items != [] {
      CanonicalExact(items[0], depth);
      ItemsExact(items[1..], depth);
      assert forall i :: 1 <= i < |items| ==> items[i] == items[1..][i - 1];
    }
  }

  lemma {:induction false} EntriesExact(es: seq<Keyed<Json>>, depth: nat)
    ensures CanonicalEntries(es, depth + 1).Some? <==> forall i :: 0 <= i < |es| ==> AdmissibleEntry(es[i], depth)
    decreases es, 0
  {
    hide Admissible, Canonical, Scalars;
    if es != [] {
      CanonicalExact(es[0].value, depth + 1);
      EntriesExact(es[1..], depth);
      assert forall i :: 1 <= i < |es| ==> es[i] == es[1..][i - 1];
    }
  }

  /** A value is refused exactly for its depth, a null, an unsafe integer or a surrogate. */
  lemma {:induction false} CanonicalExact(v: Json, depth: nat)
    ensures Canonical(v, depth).Some? <==> Admissible(v, depth)
    decreases v, 1
  {
    match v
    case Arr(items) => ItemsExact(items, depth + 1);
    case Obj(es) => EntriesExact(es, depth);
    case _ =>
  }

  // ----- equality of values -----

  /** Python's equality of dictionaries: the same keys with equal values, in any order. */
  ghost predicate Same(v: Json, w: Json) {
    match (v, w)
    case (Arr(xs), Arr(ys)) => |xs| == |ys| && forall i :: 0 <= i < |xs| ==> Same(xs[i], ys[i])
    case (Obj(es), Obj(fs)) => |es| == |fs| && forall i :: 0 <= i < |es| ==> HasSame(es[i], fs)
    case _ => v == w
  }

  ghost predicate HasSame(e: Keyed<Json>, fs: seq<Keyed<Json>>) {
    exists j :: 0 <= j < |fs| && fs[j].key == e.key && Same(e.value, fs[j].value)
  }

  ghost predicate Keys(v: Json) {
    match v
    case Arr(items) => forall i :: 0 <= i < |items| ==> Keys(items[i])
    case Obj(es) => ScalarKeys(es) && forall i :: 0 <= i < |es| ==> Keys(es[i].value)
    case _ => true
  }

  lemma {:induction false} AdmissibleKeys(v: Json, depth: nat)
    requires Admissible(v, depth)
    ensures Keys(v)
  {
    match v
    case Arr(items) =>
      forall i | 0 <= i < |items| ensures Keys(items[i]) { AdmissibleKeys(items[i], depth + 1); }
    case Obj(es) =>
      forall i | 0 <= i < |es| ensures Scalars(es[i].key) && Keys(es[i].value) {
        assert AdmissibleEntry(es[i], depth);
        AdmissibleKeys(es[i].value, depth + 1);
      }
    case _ =>
  }

  lemma {:induction false} ItemAt(items: seq<Json>, i: nat)
    requires i < |items|
    ensures NormalizeItems(items)[i] == Normalize(items[i])
  {
    hide Normalize;
    if i > 0 {
      ItemAt(items[1..], i - 1);
    }
  }

  lemma {:induction false} EntryAt(es: seq<Keyed<Json>>, i: nat)
    requires i < |es|
    ensures NormalizeEntries(es)[i] == Keyed(es[i].key, Normalize(es[i].value))
  {
    hide Normalize;
    if i > 0 {
      EntryAt(es[1..], i - 1);
    }
  }

  lemma SameItems(xs: seq<Json>, ys: seq<Json>)
    requires |xs| == |ys| && forall i :: 0 <= i < |xs| ==> Normalize(xs[i]) == Normalize(ys[i])
    ensures NormalizeItems(xs) == NormalizeItems(ys)
  {
    hide Normalize;
    forall i | 0 <= i < |xs| ensures NormalizeItems(xs)[i] == NormalizeItems(ys)[i] {
      ItemAt(xs, i);
      ItemAt(ys, i);
    }
  }

  /** Some entry of `fs` has the key of `e` and a value with the same normal form. */
  ghost predicate HasNormal(e: Keyed<Json>, fs: seq<Keyed<Json>>) {
    exists j :: 0 <= j < |fs| && fs[j].key == e.key && Normalize(e.value) == Normalize(fs[j].value)
  }

  lemma SameEntries(es: seq<Keyed<Json>>, fs: seq<Keyed<Json>>)
    requires DistinctKeys(es) && ScalarKeys(es) && ScalarKeys(fs) && |es| == |fs|
    requires forall i :: 0 <= i < |es| ==> HasNormal(es[i], fs)
    ensures SortKeyed(NormalizeEntries(es)) == SortKeyed(NormalizeEntries(fs))
  {
    hide Normalize, Scalars;
    var xs, ys := NormalizeEntries(es), NormalizeEntries(fs);
    NormalizedKeys(es);
    NormalizedKeys(fs);
    forall i | 0 <= i < |xs| ensures xs[i] in ys {
      var j :| 0 <= j < |fs| && fs[j].key == es[i].key && Normalize(es[i].value) == Normalize(fs[j].value);
      EntryAt(es, i);
      EntryAt(fs, j);
      assert xs[i] == ys[j];
    }
    SortCanonical(xs, ys);
  }

  lemma SameMultiset<V>(xs: seq<Keyed<V>>, ys: seq<Keyed<V>>)
    requires SortKeyed(xs) == SortKeyed(ys)
    ensures multiset(xs) == multiset(ys) && |xs| == |ys|
  {
    SortPermutes(xs);
    SortPermutes(ys);
  }

  lemma EntryFound(e: Keyed<Json>, fs: seq<Keyed<Json>>)
    requires Keyed(e.key, Normalize(e.value)) in NormalizeEntries(fs)
    ensures HasNormal(e, fs)
  {
    hide Normalize;
    var ys := NormalizeEntries(fs);
    var j :| 0 <= j < |ys| && ys[j] == Keyed(e.key, Normalize(e.value));
    EntryAt(fs, j);
  }

  lemma EntrySame(es: seq<Keyed<Json>>, fs: seq<Keyed<Json>>, i: nat)
    requires SortKeyed(NormalizeEntries(es)) == SortKeyed(NormalizeEntries(fs)) && i < |es|
    ensures HasNormal(es[i], fs) && |es| == |fs|
  {
    hide *;
    SameMultiset(NormalizeEntries(es), NormalizeEntries(fs));
    EntryAt(es, i);
    SameMembers(NormalizeEntries(es), NormalizeEntries(fs), NormalizeEntries(es)[i]);
    EntryFound(es[i], fs);
  }

  /** Normal forms decide equality. */
  lemma {:induction false} NormalFormsDecide(v: Json, w: Json)
    requires WellFormed(v) && WellFormed(w) && Keys(v) && Keys(w)
    ensures Same(v, w) <==> Normalize(v) == Normalize(w)
    decreases v, 1
  {
    match (v, w)
    case (Arr(xs), Arr(ys)) => ArraysDecide(xs, ys);
    case (Obj(es), Obj(fs)) => ObjectsDecide(es, fs);
    case _ =>
  }

  lemma {:induction false} ArraysDecide(xs: seq<Json>, ys: seq<Json>)
    requires WellFormed(Arr(xs)) && WellFormed(Arr(ys)) && Keys(Arr(xs)) && Keys(Arr(ys))
    ensures Same(Arr(xs), Arr(ys)) <==> NormalizeItems(xs) == NormalizeItems(ys)
    decreases Arr(xs), 0
  {
    if |xs| == |ys| {
      forall i | 0 <= i < |xs| ensures Same(xs[i], ys[i]) <==> Normalize(xs[i]) == Normalize(ys[i]) {
        NormalFormsDecide(xs[i], ys[i]);
      }
      if NormalizeItems(xs) == NormalizeItems(ys) {
        forall i | 0 <= i < |xs| ensures Normalize(xs[i]) == Normalize(ys[i]) {
          ItemAt(xs, i);
          ItemAt(ys, i);
        }
      }
      if Same(Arr(xs), Arr(ys)) {
        SameItems(xs, ys);
      }
    }
  }

  lemma {:induction false} ObjectsDecide(es: seq<Keyed<Json>>, fs: seq<Keyed<Json>>)
    requires WellFormed(Obj(es)) && WellFormed(Obj(fs)) && Keys(Obj(es)) && Keys(Obj(fs))
    ensures Same(Obj(es), Obj(fs)) <==> SortKeyed(NormalizeEntries(es)) == SortKeyed(NormalizeEntries(fs))
    decreases Obj(es), 0
  {
    forall i | 0 <= i < |es| ensures HasSame(es[i], fs) <==> HasNormal(es[i], fs) {
      forall j | 0 <= j < |fs|
        ensures Same(es[i].value, fs[j].value) <==> Normalize(es[i].value) == Normalize(fs[j].value)
      {
        NormalFormsDecide(es[i].value, fs[j].value);
      }
    }
    if Same(Obj(es), Obj(fs)) {
      SameEntries(es, fs);
    }
    if SortKeyed(NormalizeEntries(es)) == SortKeyed(NormalizeEntries(fs)) {
      SameMultiset(NormalizeEntries(es), NormalizeEntries(fs));
      forall i | 0 <= i < |es| ensures HasNormal(es[i], fs) {
        EntrySame(es, fs, i);
      }
    }
  }

  // ----- the normal form has the same canonical text -----

  ghost predicate Prints(p: Keyed<Text>, e: Keyed<Json>, depth: nat) {
    && p.key == e.key && depth <= MAX_DEPTH && Scalars(e.key)
    && var t := Canonical(e.value, depth);
       t.Some? && p.value == QuoteText(e.key) + [COLON] + t.value
  }

  ghost predicate AllPrint(ps: seq<Keyed<Text>>, es: seq<Keyed<Json>>, depth: nat) {
    |ps| == |es| && forall i :: 0 <= i < |ps| ==> Prints(ps[i], es[i], depth)
  }

  lemma {:induction false} EntriesPrint(es: seq<Keyed<Json>>, ps: seq<Keyed<Text>>, depth: nat)
    ensures CanonicalEntries(es, depth) == Some(ps) <==> AllPrint(ps, es, depth)
  {
    hide Canonical, QuoteText, Scalars;
    if es == [] {
    } else if |ps| == |es| {
      EntriesPrint(es[1..], ps[1..], depth);
      assert ps == [ps[0]] + ps[1..];
    }
  }

  lemma PairedPrints(p: Keyed<Text>, e: Keyed<Json>, ps: seq<Keyed<Text>>, es: seq<Keyed<Json>>, depth: nat)
    requires AllPrint(ps, es, depth) && Paired(p, e, ps, es)
    ensures Prints(p, e, depth)
  {
  }

  lemma SortedPrint(ps: seq<Keyed<Text>>, es: seq<Keyed<Json>>, depth: nat)
    requires AllPrint(ps, es, depth)
    ensures AllPrint(SortKeyed(ps), SortKeyed(es), depth)
  {
    hide Canonical, QuoteText, SortKeyed, Paired;
    SortTogether(ps, es);
    forall i | 0 <= i < |SortKeyed(ps)| ensures Prints(SortKeyed(ps)[i], SortKeyed(es)[i], depth) {
      PairedPrints(SortKeyed(ps)[i], SortKeyed(es)[i], ps, es, depth);
    }
  }

  lemma {:induction false} NormalText(v: Json, depth: nat)
    requires WellFormed(v) && Admissible(v, depth)
    ensures Canonical(Normalize(v), depth) == Canonical(v, depth)
    decreases v, 1
  {
    match v
    case Arr(items) => NormalItems(items, depth + 1);
    case Obj(es) => NormalObject(es, depth);
    case _ =>
  }

  lemma {:induction false} NormalItems(items: seq<Json>, depth: nat)
    requires forall i :: 0 <= i < |items| ==> WellFormed(items[i]) && Admissible(items[i], depth)
    ensures CanonicalItems(NormalizeItems(items), depth) == CanonicalItems(items, depth)
    decreases items, 0
  {
    hide Canonical, Normalize, WellFormed, Admissible;
    if items != [] {
      NormalText(items[0], depth);
      NormalItems(items[1..], depth);
      var ns := NormalizeItems(items);
      assert ns[0] == Normalize(items[0]) && ns[1..] == NormalizeItems(items[1..]);
    }
  }

  lemma {:induction false} NormalEntries(es: seq<Keyed<Json>>, depth: nat)
    requires forall i :: 0 <= i < |es| ==> WellFormed(es[i].value) && AdmissibleEntry(es[i], depth)
    ensures CanonicalEntries(NormalizeEntries(es), depth + 1) == CanonicalEntries(es, depth + 1)
    decreases es, 0
  {
    hide Canonical, Normalize, WellFormed, Admissible;
    if es != [] {
      assert AdmissibleEntry(es[0], depth);
      NormalText(es[0].value, depth + 1);
      NormalEntries(es[1..], depth);
      var ns := NormalizeEntries(es);
      assert ns[0] == Keyed(es[0].key, Normalize(es[0].value)) && ns[1..] == NormalizeEntries(es[1..]);
    }
  }

  lemma {:induction false} NormalObject(es: seq<Keyed<Json>>, depth: nat)
    requires WellFormed(Obj(es)) && Admissible(Obj(es), depth)
    ensures Canonical(Normalize(Obj(es)), depth) == Canonical(Obj(es), depth)
    decreases es, 1
  {
    NormalEntries(es, depth);
    EntriesExact(es, depth);
    var ns, ps := NormalizeEntries(es), CanonicalEntries(es, depth + 1).value;
    EntriesPrint(ns, ps, depth + 1);
    SortedPrint(ps, ns, depth + 1);
    EntriesPrint(SortKeyed(ns), SortKeyed(ps), depth + 1);
    NormalizedKeys(es);
    ScalarEntries(es, depth);
    SortTwice(ns, ps);
  }

  lemma ScalarEntries(es: seq<Keyed<Json>>, depth: nat)
    requires forall i :: 0 <= i < |es| ==> AdmissibleEntry(es[i], depth)
    ensures ScalarKeys(es)
  {
  }

  /** Sorting a sorted list changes nothing. */
  lemma SortTwice<V, W>(ns: seq<Keyed<V>>, ps: seq<Keyed<W>>)
    requires DistinctKeys(ns) && ScalarKeys(ns) && SameKeys(ps, ns)
    ensures SortKeyed(SortKeyed(ps)) == SortKeyed(ps) && SortKeyed(SortKeyed(ns)) == SortKeyed(ns)
  {
    hide KeyBelow, Scalars;
    SortIdempotent(ns);
    assert DistinctKeys(ps) && ScalarKeys(ps);
    SortIdempotent(ps);
  }

  lemma SortIdempotent<V>(es: seq<Keyed<V>>)
    requires DistinctKeys(es) && ScalarKeys(es)
    ensures SortKeyed(SortKeyed(es)) == SortKeyed(es)
  {
    hide KeyBelow, Scalars;
    SortPermutes(es);
    SortSorts(es);
    forall i | 0 <= i < |es| ensures SortKeyed(es)[i] in es {
      assert SortKeyed(es)[i] in multiset(es);
    }
    SortCanonical(SortKeyed(es), es);
  }
}
