/** Sums over the values of a finite map, with the three facts the settlement proofs use:
    how a sum changes when one entry changes, that it is monotone, and how a net sum splits
    into its positive and negative parts. */
module Sums {

  function Gain(x: int): int { if x > 0 then x else 0 }

  function Loss(x: int): int { if x < 0 then -x else 0 }

  ghost function Total<K>(m: map<K, int>): int {
    if m == map[] then 0
    else
      var k :| k in m;
      m[k] + Total(m - {k})
  }

  ghost function Gains<K>(m: map<K, int>): map<K, int> { map k | k in m :: Gain(m[k]) }

  ghost function Losses<K>(m: map<K, int>): map<K, int> { map k | k in m :: Loss(m[k]) }

  /** Any key may be taken out first, so the sum does not depend on the order of the entries. */
  lemma {:induction false} TotalRemove<K>(m: map<K, int>, k: K)
    requires k in m
    ensures Total(m) == m[k] + Total(m - {k})
    decreases |m|
  {
    var j :| j in m && Total(m) == m[j] + Total(m - {j});
    if j != k {
      TotalRemove(m - {j}, k);
      TotalRemove(m - {k}, j);
      assert m - {j} - {k} == m - {k} - {j};
    }
  }

  lemma TotalInsert<K>(m: map<K, int>, k: K, v: int)
    ensures Total(m[k := v]) == Total(m) + v - (if k in m then m[k] else 0)
  {
    TotalRemove(m[k := v], k);
    if k in m {
      TotalRemove(m, k);
      assert m[k := v] - {k} == m - {k};
    } else {
      assert m[k := v] - {k} == m;
    }
  }

  lemma {:induction false} TotalMonotone<K>(m: map<K, int>, n: map<K, int>)
    requires m.Keys == n.Keys
    requires forall k :: k in m ==> m[k] <= n[k]
    ensures Total(m) <= Total(n)
    decreases |m|
  {
    if m == map[] {
      assert n == map[];
    } else {
      var k :| k in m;
      TotalRemove(m, k);
      TotalRemove(n, k);
      TotalMonotone(m - {k}, n - {k});
    }
  }

  lemma {:induction false} TotalNonNegative<K>(m: map<K, int>)
    requires forall k :: k in m ==> 0 <= m[k]
    ensures 0 <= Total(m)
    ensures forall k :: k in m ==> m[k] <= Total(m)
    decreases |m|
  {
    forall k | k in m
      ensures 0 <= m[k] <= Total(m)
    {
      TotalRemove(m, k);
      TotalNonNegative(m - {k});
    }
  }

  lemma GainsInsert<K>(m: map<K, int>, k: K, v: int)
    ensures Total(Gains(m[k := v])) == Total(Gains(m)) + Gain(v) - (if k in m then Gain(m[k]) else 0)
    ensures Total(Losses(m[k := v])) == Total(Losses(m)) + Loss(v) - (if k in m then Loss(m[k]) else 0)
  {
    assert Gains(m[k := v]) == Gains(m)[k := Gain(v)];
    assert Losses(m[k := v]) == Losses(m)[k := Loss(v)];
    TotalInsert(Gains(m), k, Gain(v));
    TotalInsert(Losses(m), k, Loss(v));
  }

  lemma PartsNonNegative<K>(m: map<K, int>)
    ensures 0 <= Total(Gains(m)) && 0 <= Total(Losses(m))
    ensures forall k :: k in m ==> Gain(m[k]) <= Total(Gains(m)) && Loss(m[k]) <= Total(Losses(m))
  {
    TotalNonNegative(Gains(m));
    TotalNonNegative(Losses(m));
    assert forall k :: k in m ==> Gains(m)[k] == Gain(m[k]) && Losses(m)[k] == Loss(m[k]);
  }

  /** A net sum is its positive part less its negative part. */
  lemma {:induction false} TotalSplits<K>(m: map<K, int>)
    ensures Total(m) == Total(Gains(m)) - Total(Losses(m))
    decreases |m|
  {
    if m != map[] {
      var k :| k in m;
      TotalRemove(m, k);
      TotalRemove(Gains(m), k);
      TotalRemove(Losses(m), k);
      assert Gains(m) - {k} == Gains(m - {k});
      assert Losses(m) - {k} == Losses(m - {k});
      TotalSplits(m - {k});
    }
  }

  lemma PutBack<K>(m: map<K, int>, n: map<K, int>, k: K)
    requires k in n && k !in m
    ensures (n - {k})[k := n[k]] == n && (m + (n - {k}))[k := n[k]] == m + n
    ensures |n - {k}| < |n|
  {
    assert (n - {k}).Keys == n.Keys - {k};
  }

  lemma {:induction false} TotalJoin<K>(m: map<K, int>, n: map<K, int>)
    requires m.Keys !! n.Keys
    ensures Total(m + n) == Total(m) + Total(n)
    decreases |n|
  {
    if n == map[] {
      assert m + n == m;
    } else {
      var k :| k in n;
      PutBack(m, n, k);
      TotalJoin(m, n - {k});
      TotalInsert(n - {k}, k, n[k]);
      TotalInsert(m + (n - {k}), k, n[k]);
    }
  }

  lemma PartsJoin<K>(m: map<K, int>, n: map<K, int>)
    requires m.Keys !! n.Keys
    ensures Total(Gains(m + n)) == Total(Gains(m)) + Total(Gains(n))
    ensures Total(Losses(m + n)) == Total(Losses(m)) + Total(Losses(n))
  {
    assert Gains(m + n) == Gains(m) + Gains(n);
    assert Losses(m + n) == Losses(m) + Losses(n);
    TotalJoin(Gains(m), Gains(n));
    TotalJoin(Losses(m), Losses(n));
  }
}
