/** The allocation part by part: what one part gets, told from the shares alone. */
module AllocationParts {
  import opened Wrappers
  import opened Rounding
  import opened Allocation

  /** The parts whose remainder is larger, or as large and earlier in the list, whatever their weights. */
  function Ahead(qs: seq<real>, i: nat): set<nat>
    requires i < |qs|
  {
    set j: nat | j < |qs|
      && (qs[j] - qs[j].Floor as real > qs[i] - qs[i].Floor as real
          || (qs[j] - qs[j].Floor as real == qs[i] - qs[i].Floor as real && j < i))
  }

  function Members(order: seq<nat>): set<nat> { set x | x in order }

  lemma {:induction false} DistinctCount(order: seq<nat>)
    requires Distinct(order)
    ensures |Members(order)| == |order|
  {
    if order != [] {
      var last := |order| - 1;
      DistinctCount(order[..last]);
      MembersStep(order);
    }
  }

  lemma MembersStep(order: seq<nat>)
    requires order != [] && Distinct(order)
    ensures var last := |order| - 1;
            Members(order) == Members(order[..last]) + {order[last]} && order[last] !in Members(order[..last])
  {
    assert order == order[..|order| - 1] + [order[|order| - 1]];
  }

  lemma RankedDistinct(qs: seq<real>, order: seq<nat>)
    requires Indices(order, |qs|) && Ranked(qs, order)
    ensures Distinct(order)
  {
    forall s, t | 0 <= s < t < |order| ensures order[s] != order[t] {
      assert Before(qs, order[s], order[t]);
    }
  }

  /** In a ranking of all parts those ahead of one are those before it. */
  lemma AheadIsBefore(qs: seq<real>, order: seq<nat>, s: nat)
    requires Indices(order, |qs|) && Ranked(qs, order) && (forall x :: 0 <= x < |qs| ==> x in order) && s < |order|
    ensures Ahead(qs, order[s]) == Members(order[..s])
  {
    var i := order[s];
    forall j | j in Ahead(qs, i) ensures j in order[..s] {
      assert j in order && forall t :: s < t < |order| ==> Before(qs, order[s], order[t]);
      var t :| 0 <= t < |order| && order[t] == j;
      assert t < s;
    }
    forall j | j in order[..s] ensures j in Ahead(qs, i) {
      var t :| 0 <= t < s && order[t] == j;
      assert Before(qs, order[t], order[s]);
    }
  }

  /** A part's place in the ranking is the number of parts ahead of it. */
  lemma AheadCount(qs: seq<real>, s: nat)
    requires s < |qs|
    ensures |Ahead(qs, Order(qs, |qs|)[s])| == s
  {
    hide Ahead, Ranked, Members;
    OrderRanks(qs, |qs|);
    var order := Order(qs, |qs|);
    RankedDistinct(qs, order);
    DistinctCount(order[..s]);
    AheadIsBefore(qs, order, s);
  }

  /** A part is its share's floor, and one more exactly when fewer parts are ahead of it than the floors
      leave over; a negative total negates it. */
  lemma AllocateSpelled(total: int, weights: seq<real>, i: nat)
    requires i < |weights| && SumReal(weights) != 0.0
    ensures var magnitude: nat := if total < 0 then -total else total;
            var qs := seq(|weights|,
                          k requires 0 <= k < |weights| => magnitude as real * weights[k] / SumReal(weights));
            var part := qs[i].Floor + if |Ahead(qs, i)| < magnitude - SumInt(Floors(qs)) then 1 else 0;
            Allocate(total, weights).Some? && |Allocate(total, weights).value| == |weights|
            && Allocate(total, weights).value[i] == if total < 0 then -part else part
  {
    var magnitude := AbsInt(total);
    var qs := Quotas(magnitude, weights);
    assert qs == seq(|weights|, k requires 0 <= k < |weights| => magnitude as real * weights[k] / SumReal(weights));
    QuotasSum(magnitude, weights);
    PartsShape(magnitude, qs);
    LeftBounds(magnitude, qs);
    OrderRanks(qs, |qs|);
    var order, k := Order(qs, |qs|), Left(magnitude, qs);
    assert i in order;
    var s :| 0 <= s < |order| && order[s] == i;
    AheadCount(qs, s);
    assert forall t :: 0 <= t < |order| && t != s ==> order[t] != i;
    assert i in order[..k] <==> s < k;
  }
}
