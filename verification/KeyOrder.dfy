/** Sorting entries by key: a reordering that depends on the keys alone, and the only strictly
    ordered arrangement of its entries. */
module KeyOrder {
  import opened Unicode
  import opened Json
  import opened Multisets

  // ----- only the keys decide -----

  ghost predicate SameKeys<A, B>(xs: seq<Keyed<A>>, ys: seq<Keyed<B>>) {
    |xs| == |ys| && forall i :: 0 <= i < |xs| ==> xs[i].key == ys[i].key
  }

  ghost predicate Paired<A, B>(x: Keyed<A>, y: Keyed<B>, xs: seq<Keyed<A>>, ys: seq<Keyed<B>>)
    requires |xs| == |ys|
  {
    exists j :: 0 <= j < |xs| && xs[j] == x && ys[j] == y
  }

  /** Entry for entry, `us` and `vs` take the same places of `xs` and `ys`. */
  ghost predicate Drawn<A, B>(us: seq<Keyed<A>>, vs: seq<Keyed<B>>, xs: seq<Keyed<A>>, ys: seq<Keyed<B>>)
    requires |xs| == |ys|
  {
    |us| == |vs| && forall i :: 0 <= i < |us| ==> Paired(us[i], vs[i], xs, ys)
  }

  lemma PairedBehind<A, B>(x: Keyed<A>, y: Keyed<B>, u: Keyed<A>, v: Keyed<B>, xs: seq<Keyed<A>>, ys: seq<Keyed<B>>)
    requires |xs| == |ys| && Paired(u, v, xs, ys)
    ensures Paired(u, v, [x] + xs, [y] + ys)
  {
    var j :| 0 <= j < |xs| && xs[j] == u && ys[j] == v;
    assert ([x] + xs)[j + 1] == u && ([y] + ys)[j + 1] == v;
  }

  lemma PairedInsert<A, B>(x: Keyed<A>, y: Keyed<B>, u: Keyed<A>, v: Keyed<B>, xs: seq<Keyed<A>>, ys: seq<Keyed<B>>)
    requires |xs| == |ys| > 0 && Paired(u, v, [x] + xs[1..], [y] + ys[1..])
    ensures Paired(u, v, [x] + xs, [y] + ys)
  {
    var j :| 0 <= j < |xs| && ([x] + xs[1..])[j] == u && ([y] + ys[1..])[j] == v;
    var k := if j == 0 then 0 else j + 1;
    assert ([x] + xs)[k] == u && ([y] + ys)[k] == v;
  }

  lemma {:induction false} InsertTogether<A, B>(x: Keyed<A>, y: Keyed<B>, xs: seq<Keyed<A>>, ys: seq<Keyed<B>>)
    requires x.key == y.key && SameKeys(xs, ys)
    ensures Drawn(InsertKeyed(x, xs), InsertKeyed(y, ys), [x] + xs, [y] + ys)
    ensures SameKeys(InsertKeyed(x, xs), InsertKeyed(y, ys))
  {
    var us, vs := InsertKeyed(x, xs), InsertKeyed(y, ys);
    if xs != [] && KeyBelow(xs[0].key, x.key) {
      hide KeyBelow, Paired;
      InsertTogether(x, y, xs[1..], ys[1..]);
      forall i | 0 <= i < |us|
        ensures Paired(us[i], vs[i], [x] + xs, [y] + ys)
      {
        if i == 0 {
          FirstPaired(xs, ys);
          PairedBehind(x, y, us[0], vs[0], xs, ys);
        } else {
          PairedInsert(x, y, us[i], vs[i], xs, ys);
        }
      }
    } else {
      forall i | 0 <= i < |us|
        ensures Paired(us[i], vs[i], [x] + xs, [y] + ys)
      {
        assert ([x] + xs)[i] == us[i] && ([y] + ys)[i] == vs[i];
      }
    }
  }

  lemma FirstPaired<A, B>(xs: seq<Keyed<A>>, ys: seq<Keyed<B>>)
    requires |xs| == |ys| > 0
    ensures Paired(xs[0], ys[0], xs, ys)
  {
  }

  lemma PairedThrough<A, B>(u: Keyed<A>, v: Keyed<B>, us: seq<Keyed<A>>, vs: seq<Keyed<B>>, xs: seq<Keyed<A>>,
          ys: seq<Keyed<B>>)
    requires |xs| == |ys| > 0 && |us| == |vs| && Drawn(us, vs, xs[1..], ys[1..])
    requires Paired(u, v, [xs[0]] + us, [ys[0]] + vs)
    ensures Paired(u, v, xs, ys)
  {
    FirstPaired(xs, ys);
    var j :| 0 <= j < |us| + 1 && ([xs[0]] + us)[j] == u && ([ys[0]] + vs)[j] == v;
    if j > 0 {
      assert Paired(us[j - 1], vs[j - 1], xs[1..], ys[1..]);
      PairedBehind(xs[0], ys[0], u, v, xs[1..], ys[1..]);
      assert xs == [xs[0]] + xs[1..] && ys == [ys[0]] + ys[1..];
    }
  }

  /** Entry lists with the same keys are rearranged alike. */
  lemma {:induction false} SortTogether<A, B>(xs: seq<Keyed<A>>, ys: seq<Keyed<B>>)
    requires SameKeys(xs, ys)
    ensures Drawn(SortKeyed(xs), SortKeyed(ys), xs, ys) && |SortKeyed(xs)| == |xs|
        && SameKeys(SortKeyed(xs), SortKeyed(ys))
  {
    hide Paired, InsertKeyed;
    SortPermutes(xs);
    if xs != [] {
      var us, vs := SortKeyed(xs[1..]), SortKeyed(ys[1..]);
      SortTogether(xs[1..], ys[1..]);
      InsertTogether(xs[0], ys[0], us, vs);
      forall i | 0 <= i < |xs|
        ensures Paired(SortKeyed(xs)[i], SortKeyed(ys)[i], xs, ys)
      {
        PairedThrough(SortKeyed(xs)[i], SortKeyed(ys)[i], us, vs, xs, ys);
      }
    }
  }

  // ----- a reordering -----

  lemma {:induction false} InsertPermutes<V>(e: Keyed<V>, es: seq<Keyed<V>>)
    ensures multiset(InsertKeyed(e, es)) == multiset{e} + multiset(es)
  {
    if es != [] && KeyBelow(es[0].key, e.key) {
      InsertPermutes(e, es[1..]);
      assert es == [es[0]] + es[1..];
    }
  }

  lemma {:induction false} SortPermutes<V>(es: seq<Keyed<V>>)
    ensures multiset(SortKeyed(es)) == multiset(es) && |SortKeyed(es)| == |es|
  {
    if es != [] {
      SortPermutes(es[1..]);
      InsertPermutes(es[0], SortKeyed(es[1..]));
      assert es == [es[0]] + es[1..];
    }
    assert |multiset(SortKeyed(es))| == |SortKeyed(es)| && |multiset(es)| == |es|;
  }

  lemma PermutedKeys<V>(es: seq<Keyed<V>>, other: seq<Keyed<V>>)
    requires DistinctKeys(es) && multiset(es) == multiset(other)
    ensures DistinctKeys(other)
  {
    NoRepeatsPermuted(es, other);
    forall i, j | 0 <= i < j < |other| ensures other[i].key != other[j].key {
      SameMembers(other, es, other[i]);
      SameMembers(other, es, other[j]);
    }
  }

  // ----- the order -----

  ghost predicate ScalarKeys<V>(es: seq<Keyed<V>>) {
    forall i :: 0 <= i < |es| ==> Scalars(es[i].key)
  }

  ghost predicate Sorted<V>(es: seq<Keyed<V>>) {
    forall i, j :: 0 <= i < j < |es| ==> KeyBelow(es[i].key, es[j].key)
  }

  lemma KeyTransitive(a: Text, b: Text, c: Text)
    requires KeyBelow(a, b) && KeyBelow(b, c)
    ensures KeyBelow(a, c)
  {
    BytesTransitive(Utf16(a), Utf16(b), Utf16(c));
  }

  lemma {:induction false} InsertSorts<V>(e: Keyed<V>, es: seq<Keyed<V>>)
    requires Sorted(es) && ScalarKeys(es) && Scalars(e.key) && forall i :: 0 <= i < |es| ==> es[i].key != e.key
    ensures Sorted(InsertKeyed(e, es))
  {
    hide KeyBelow, Scalars;
    if es != [] {
      KeyTotal(es[0].key, e.key);
      if KeyBelow(es[0].key, e.key) {
        InsertSorts(e, es[1..]);
        var tail := InsertKeyed(e, es[1..]);
        InsertPermutes(e, es[1..]);
        forall j | 0 <= j < |tail|
          ensures KeyBelow(es[0].key, tail[j].key)
        {
          assert tail[j] in multiset(tail);
          assert tail[j] == e || tail[j] in es[1..];
        }
      } else {
        forall j | 0 <= j < |es|
          ensures KeyBelow(e.key, es[j].key)
        {
          if j > 0 {
            KeyTransitive(e.key, es[0].key, es[j].key);
          }
        }
      }
    }
  }

  lemma {:induction false} SortSorts<V>(es: seq<Keyed<V>>)
    requires DistinctKeys(es) && ScalarKeys(es)
    ensures Sorted(SortKeyed(es)) && ScalarKeys(SortKeyed(es)) && DistinctKeys(SortKeyed(es))
  {
    hide KeyBelow, Scalars;
    SortPermutes(es);
    PermutedKeys(es, SortKeyed(es));
    forall i | 0 <= i < |es|
      ensures Scalars(SortKeyed(es)[i].key)
    {
      assert SortKeyed(es)[i] in multiset(es);
    }
    if es != [] {
      SortSorts(es[1..]);
      SortPermutes(es[1..]);
      var tail := SortKeyed(es[1..]);
      forall i | 0 <= i < |tail|
        ensures tail[i].key != es[0].key
      {
        assert tail[i] in multiset(tail);
        assert tail[i] in es[1..];
      }
      InsertSorts(es[0], tail);
    }
  }

  lemma SortedHead<V>(xs: seq<Keyed<V>>, ys: seq<Keyed<V>>)
    requires Sorted(xs) && Sorted(ys) && ScalarKeys(xs) && ScalarKeys(ys) && xs != [] && ys != []
    requires xs[0] in ys && ys[0] in xs
    ensures xs[0] == ys[0]
  {
    KeyTotal(xs[0].key, ys[0].key);
    var i :| 0 <= i < |ys| && ys[i] == xs[0];
    var j :| 0 <= j < |xs| && xs[j] == ys[0];
  }

  lemma MultisetTail<V>(xs: seq<V>)
    requires xs != []
    ensures multiset(xs) == multiset{xs[0]} + multiset(xs[1..]) && multiset(xs[1..]) == multiset(xs) - multiset{xs[0]}
  {
    assert xs == [xs[0]] + xs[1..];
  }

  /** One multiset of entries has one strictly ordered arrangement. */
  lemma {:induction false} SortedUnique<V>(xs: seq<Keyed<V>>, ys: seq<Keyed<V>>)
    requires Sorted(xs) && Sorted(ys) && ScalarKeys(xs) && ScalarKeys(ys)
    requires multiset(xs) == multiset(ys)
    ensures xs == ys
  {
    assert |multiset(xs)| == |xs| && |multiset(ys)| == |ys|;
    if xs != [] {
      SortedStep(xs, ys);
      SortedUnique(xs[1..], ys[1..]);
      assert xs == [xs[0]] + xs[1..] && ys == [ys[0]] + ys[1..];
    }
  }

  lemma SortedStep<V>(xs: seq<Keyed<V>>, ys: seq<Keyed<V>>)
    requires Sorted(xs) && Sorted(ys) && ScalarKeys(xs) && ScalarKeys(ys) && xs != [] && ys != []
    requires multiset(xs) == multiset(ys)
    ensures xs[0] == ys[0] && multiset(xs[1..]) == multiset(ys[1..])
    ensures Sorted(xs[1..]) && Sorted(ys[1..])
  {
    hide KeyBelow, Scalars;
    assert xs[0] in multiset(xs) && ys[0] in multiset(ys);
    SortedHead(xs, ys);
    MultisetTail(xs);
    MultisetTail(ys);
  }

  lemma {:induction false} InsertAll<V>(xs: seq<Keyed<V>>, ys: seq<Keyed<V>>)
    requires DistinctKeys(xs) && |xs| == |ys| && forall i :: 0 <= i < |xs| ==> xs[i] in ys
    ensures multiset(xs) == multiset(ys)
  {
    var a, b := multiset(xs), multiset(ys);
    forall e
      ensures a[e] <= b[e]
    {
      OnceOnly(xs, e);
      if e in a {
        assert e in xs && e in b;
      }
    }
    assert a <= b && |a| == |b|;
    assert b == a + (b - a) && |b - a| == 0;
  }

  /** Entry lists holding the same entries under distinct keys sort to one list. */
  lemma SortCanonical<V>(xs: seq<Keyed<V>>, ys: seq<Keyed<V>>)
    requires DistinctKeys(xs) && ScalarKeys(xs) && ScalarKeys(ys)
    requires |xs| == |ys| && forall i :: 0 <= i < |xs| ==> xs[i] in ys
    ensures SortKeyed(xs) == SortKeyed(ys)
  {
    hide KeyBelow, Scalars;
    InsertAll(xs, ys);
    PermutedKeys(xs, ys);
    SortSorts(xs);
    SortSorts(ys);
    SortPermutes(xs);
    SortPermutes(ys);
    SortedUnique(SortKeyed(xs), SortKeyed(ys));
  }
}
