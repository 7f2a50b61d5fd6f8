/** Largest-remainder allocation of a whole total over exact weights. */
module Allocation {
  import opened Wrappers
  import opened Rounding

  // ----- sums -----

  function SumReal(xs: seq<real>): real {
    if xs == [] then 0.0 else xs[0] + SumReal(xs[1..])
  }

  function SumInt(xs: seq<int>): int {
    if xs == [] then 0 else xs[0] + SumInt(xs[1..])
  }

  // ----- the allocation -----

  /** The exact share of the magnitude that one weight earns. */
  function Quota(magnitude: nat, w: real, sum: real): real
    requires sum != 0.0
  {
    magnitude as real * w / sum
  }

  function Quotas(magnitude: nat, weights: seq<real>): (qs: seq<real>)
    requires SumReal(weights) != 0.0
    ensures |qs| == |weights|
  {
    var sum := SumReal(weights);
    seq(|weights|, i requires 0 <= i < |weights| => Quota(magnitude, weights[i], sum))
  }

  function Floors(qs: seq<real>): (ps: seq<int>)
    ensures |ps| == |qs|
  {
    seq(|qs|, i requires 0 <= i < |qs| => qs[i].Floor)
  }

  function Fraction(q: real): real { q - q.Floor as real }

  /** Larger remainder first, the earlier part on a tie. */
  predicate Before(qs: seq<real>, i: nat, j: nat)
    requires i < |qs| && j < |qs|
  {
    Fraction(qs[i]) > Fraction(qs[j]) || (Fraction(qs[i]) == Fraction(qs[j]) && i < j)
  }

  predicate Indices(order: seq<nat>, n: nat) {
    forall t | 0 <= t < |order| :: order[t] < n
  }

  function Place(qs: seq<real>, i: nat, order: seq<nat>): (r: seq<nat>)
    requires i < |qs| && Indices(order, |qs|)
    ensures Indices(r, |qs|) && |r| == |order| + 1
  {
    if order == [] || Before(qs, i, order[0]) then [i] + order
    else [order[0]] + Place(qs, i, order[1..])
  }

  /** The first `n` part indices, ranked. */
  function Order(qs: seq<real>, n: nat): (r: seq<nat>)
    requires n <= |qs|
    ensures Indices(r, |qs|) && |r| == n
  {
    if n == 0 then [] else Place(qs, n - 1, Order(qs, n - 1))
  }

  /** One more for each listed part. */
  function Bump(parts: seq<int>, order: seq<nat>): (r: seq<int>)
    requires Indices(order, |parts|)
    ensures |r| == |parts|
  {
    if order == [] then parts
    else
      var last := |order| - 1;
      var before := Bump(parts, order[..last]);
      before[order[last] := before[order[last]] + 1]
  }

  function Left(magnitude: nat, qs: seq<real>): int { magnitude - SumInt(Floors(qs)) }

  /** What a slice `order[:k]` takes: all of it past the end, and from the end for a negative `k`. */
  function Slice(order: seq<nat>, k: int): seq<nat> {
    if k >= |order| then order
    else if k >= 0 then order[..k]
    else if -k <= |order| then order[..|order| + k]
    else []
  }

  function Parts(magnitude: nat, qs: seq<real>): (r: seq<int>)
    ensures |r| == |qs|
  {
    Bump(Floors(qs), Slice(Order(qs, |qs|), Left(magnitude, qs)))
  }

  function Negate(ps: seq<int>): (r: seq<int>)
    ensures |r| == |ps|
  {
    seq(|ps|, i requires 0 <= i < |ps| => -ps[i])
  }

  /** No quota can be formed from weights that sum to zero; without weights there is nothing to form. */
  function Allocate(total: int, weights: seq<real>): Option<seq<int>> {
    if weights == [] then Some([])
    else if SumReal(weights) == 0.0 then None
    else
      var parts := Parts(AbsInt(total), Quotas(AbsInt(total), weights));
      Some(if total < 0 then Negate(parts) else parts)
  }

  // ----- the ranking -----

  ghost predicate Ranked(qs: seq<real>, order: seq<nat>)
    requires Indices(order, |qs|)
  {
    forall s, t :: 0 <= s < t < |order| ==> Before(qs, order[s], order[t])
  }

  lemma {:induction false} PlaceHolds(qs: seq<real>, i: nat, order: seq<nat>)
    requires i < |qs| && Indices(order, |qs|)
    ensures forall x :: x in Place(qs, i, order) <==> x == i || x in order
  {
    if order != [] && !Before(qs, i, order[0]) {
      PlaceHolds(qs, i, order[1..]);
      assert order == [order[0]] + order[1..];
    }
  }

  lemma {:induction false} PlaceRanks(qs: seq<real>, i: nat, order: seq<nat>)
    requires i < |qs| && Indices(order, |qs|) && Ranked(qs, order) && i !in order
    ensures Ranked(qs, Place(qs, i, order))
  {
    if order != [] && !Before(qs, i, order[0]) {
      PlaceRanks(qs, i, order[1..]);
      PlaceHolds(qs, i, order[1..]);
      var tail := Place(qs, i, order[1..]);
      forall t | 0 <= t < |tail| ensures Before(qs, order[0], tail[t]) {
        assert tail[t] in tail;
      }
    } else if order != [] {
      forall t | 0 <= t < |order| ensures Before(qs, i, order[t]) {
      }
    }
  }

  /** The ranking lists every index once, in order. */
  lemma {:induction false} OrderRanks(qs: seq<real>, n: nat)
    requires n <= |qs|
    ensures Ranked(qs, Order(qs, n))
    ensures forall x :: x in Order(qs, n) <==> 0 <= x < n
  {
    if n > 0 {
      OrderRanks(qs, n - 1);
      PlaceRanks(qs, n - 1, Order(qs, n - 1));
      PlaceHolds(qs, n - 1, Order(qs, n - 1));
    }
  }

  // ----- what bumping does -----

  lemma {:induction false} SumUpdate(xs: seq<int>, i: nat, x: int)
    requires i < |xs|
    ensures SumInt(xs[i := x]) == SumInt(xs) - xs[i] + x
  {
    if i > 0 {
      SumUpdate(xs[1..], i - 1, x);
      assert xs[i := x][1..] == xs[1..][i - 1 := x];
    }
  }

  lemma {:induction false} BumpSum(parts: seq<int>, order: seq<nat>)
    requires Indices(order, |parts|)
    ensures SumInt(Bump(parts, order)) == SumInt(parts) + |order|
  {
    if order != [] {
      var last := |order| - 1;
      BumpSum(parts, order[..last]);
      var before := Bump(parts, order[..last]);
      SumUpdate(before, order[last], before[order[last]] + 1);
    }
  }

  ghost predicate Distinct(order: seq<nat>) {
    forall s, t :: 0 <= s < t < |order| ==> order[s] != order[t]
  }

  lemma {:induction false} BumpAt(parts: seq<int>, order: seq<nat>, i: nat)
    requires Indices(order, |parts|) && Distinct(order) && i < |parts|
    ensures Bump(parts, order)[i] == parts[i] + if i in order then 1 else 0
  {
    if order != [] {
      var last := |order| - 1;
      BumpAt(parts, order[..last], i);
      assert order == order[..last] + [order[last]];
    }
  }

  // ----- how many parts are bumped -----

  lemma {:induction false} SumFloors(qs: seq<real>)
    ensures SumInt(Floors(qs)) as real <= SumReal(qs)
    ensures qs != [] ==> SumReal(qs) < SumInt(Floors(qs)) as real + |qs| as real
  {
    if qs != [] {
      SumFloors(qs[1..]);
      assert Floors(qs)[1..] == Floors(qs[1..]);
    }
  }

  lemma {:induction false} SumScaled(magnitude: nat, weights: seq<real>, sum: real, qs: seq<real>)
    requires sum != 0.0 && |qs| == |weights|
    requires forall i :: 0 <= i < |qs| ==> qs[i] == Quota(magnitude, weights[i], sum)
    ensures SumReal(qs) == Quota(magnitude, SumReal(weights), sum)
  {
    if weights != [] {
      SumScaled(magnitude, weights[1..], sum, qs[1..]);
      QuotaAdds(magnitude, weights[0], SumReal(weights[1..]), sum);
    } else {
      assert magnitude as real * 0.0 == 0.0;
    }
  }

  lemma QuotaAdds(magnitude: nat, v: real, w: real, sum: real)
    requires sum != 0.0
    ensures Quota(magnitude, v, sum) + Quota(magnitude, w, sum) == Quota(magnitude, v + w, sum)
  {
    assert magnitude as real * v + magnitude as real * w == magnitude as real * (v + w);
  }

  lemma QuotasSum(magnitude: nat, weights: seq<real>)
    requires SumReal(weights) != 0.0
    ensures SumReal(Quotas(magnitude, weights)) == magnitude as real
  {
    var sum := SumReal(weights);
    SumScaled(magnitude, weights, sum, Quotas(magnitude, weights));
    Cancel(magnitude as real, sum);
  }

  lemma Cancel(x: real, y: real)
    requires y != 0.0
    ensures x * y / y == x
  {
  }

  /** The quotas of `magnitude` sum to it. */
  ghost predicate Shares(magnitude: nat, qs: seq<real>) { SumReal(qs) == magnitude as real }

  /** What is left after the floors is less than one per part, so the slice takes exactly that many. */
  lemma LeftBounds(magnitude: nat, qs: seq<real>)
    requires Shares(magnitude, qs) && qs != []
    ensures 0 <= Left(magnitude, qs) < |qs|
  {
    SumFloors(qs);
  }

  ghost function Bumped(magnitude: nat, qs: seq<real>): (r: seq<nat>)
    requires Shares(magnitude, qs) && qs != []
    ensures Indices(r, |qs|)
  {
    LeftBounds(magnitude, qs);
    Order(qs, |qs|)[..Left(magnitude, qs)]
  }

  /** The bumped parts are the highest ranked, exactly as many as the floors leave over. */
  lemma PartsShape(magnitude: nat, qs: seq<real>)
    requires Shares(magnitude, qs) && qs != []
    ensures var b := Bumped(magnitude, qs);
            && |b| == Left(magnitude, qs) && Distinct(b)
            && Parts(magnitude, qs) == Bump(Floors(qs), b)
            && (forall i :: 0 <= i < |qs| ==> Parts(magnitude, qs)[i] == qs[i].Floor + if i in b then 1 else 0)
            && (forall i, j :: 0 <= i < |qs| && 0 <= j < |qs| && i in b && j !in b ==> Before(qs, i, j))
  {
    LeftBounds(magnitude, qs);
    OrderRanks(qs, |qs|);
    var order, k := Order(qs, |qs|), Left(magnitude, qs);
    var b := order[..k];
    assert Distinct(b);
    assert forall t :: 0 <= t < k ==> order[t] == b[t] && order[t] in b;
    forall i | 0 <= i < |qs| ensures Parts(magnitude, qs)[i] == qs[i].Floor + if i in b then 1 else 0 {
      BumpAt(Floors(qs), b, i);
    }
    forall i: nat, j: nat | i < |qs| && j < |qs| && i in b && j !in b ensures Before(qs, i, j) {
      var s :| 0 <= s < k && order[s] == i;
      assert j in order;
      var t :| 0 <= t < |order| && order[t] == j;
      assert k <= t;
    }
  }

  // ----- what each part gets -----

  lemma PartsSum(magnitude: nat, qs: seq<real>)
    requires Shares(magnitude, qs) && qs != []
    ensures SumInt(Parts(magnitude, qs)) == magnitude
  {
    PartsShape(magnitude, qs);
    BumpSum(Floors(qs), Bumped(magnitude, qs));
  }

  lemma {:induction false} SumBelow(qs: seq<real>, ps: seq<int>, at: nat)
    requires |qs| == |ps| && at < |qs|
    requires forall i :: 0 <= i < |qs| ==> qs[i] <= ps[i] as real
    requires qs[at] < ps[at] as real
    ensures SumReal(qs) < SumInt(ps) as real
  {
    if at > 0 {
      SumBelow(qs[1..], ps[1..], at - 1);
    } else {
      SumAtMost(qs[1..], ps[1..]);
    }
  }

  lemma {:induction false} SumAtMost(qs: seq<real>, ps: seq<int>)
    requires |qs| == |ps| && forall i :: 0 <= i < |qs| ==> qs[i] <= ps[i] as real
    ensures SumReal(qs) <= SumInt(ps) as real
  {
    if qs != [] {
      SumAtMost(qs[1..], ps[1..]);
    }
  }

  /** Within less than one of the quota; a whole quota is met exactly. */
  lemma PartsNear(magnitude: nat, qs: seq<real>, i: nat)
    requires Shares(magnitude, qs) && i < |qs|
    ensures AbsReal(Parts(magnitude, qs)[i] as real - qs[i]) < 1.0
    ensures Fraction(qs[i]) == 0.0 ==> Parts(magnitude, qs)[i] as real == qs[i]
  {
    PartsShape(magnitude, qs);
    var b, ps := Bumped(magnitude, qs), Parts(magnitude, qs);
    if Fraction(qs[i]) == 0.0 && i in b {
      forall j: nat | j < |qs| ensures qs[j] <= ps[j] as real {
        if j !in b {
          assert Before(qs, i, j);
        }
      }
      SumBelow(qs, ps, i);
      PartsSum(magnitude, qs);
      assert false;
    }
  }

  /** The larger quota gets at least as much; of two equal quotas the earlier one, and at most one more. */
  lemma PartsMonotone(magnitude: nat, qs: seq<real>, i: nat, j: nat)
    requires Shares(magnitude, qs) && i < |qs| && j < |qs|
    requires qs[i] > qs[j] || (qs[i] == qs[j] && i < j)
    ensures Parts(magnitude, qs)[i] >= Parts(magnitude, qs)[j]
    ensures qs[i] == qs[j] ==> Parts(magnitude, qs)[i] <= Parts(magnitude, qs)[j] + 1
  {
    PartsShape(magnitude, qs);
    var b := Bumped(magnitude, qs);
    assert j in b && i !in b ==> Before(qs, j, i);
  }

  // ----- no split is closer -----

  function Deviation(ps: seq<int>, qs: seq<real>): real
    requires |ps| == |qs|
  {
    if ps == [] then 0.0 else AbsReal(ps[0] as real - qs[0]) + Deviation(ps[1..], qs[1..])
  }

  lemma TimesAtLeast(m: real, c: real)
    requires m >= 1.0 && c >= 0.0
    ensures m * c >= c
  {
  }

  lemma StepUp(f: real, bumped: bool, m: real, t: real)
    requires m >= 1.0 && 0.0 <= t && (bumped || f <= t)
    ensures (if bumped then m + 1.0 - f else m - f) >= (if bumped then 1.0 - f else f) + (1.0 - 2.0 * t) * m
  {
    TimesAtLeast(m, 2.0 * t);
    assert (1.0 - 2.0 * t) * m == m - m * (2.0 * t);
  }

  lemma StepDown(f: real, bumped: bool, m: real, t: real)
    requires m >= 1.0 && t <= 1.0 && (!bumped || f >= t)
    ensures (if bumped then m - 1.0 + f else m + f) >= (if bumped then 1.0 - f else f) + (1.0 - 2.0 * t) * -m
  {
    TimesAtLeast(m, 2.0 - 2.0 * t);
    assert (1.0 - 2.0 * t) * -m == m - m * (2.0 - 2.0 * t);
  }

  /** Moving one part away from the allocation costs at least what the threshold `t` charges. */
  lemma PartCost(q: real, bumped: bool, x: int, t: real)
    requires 0.0 <= t <= 1.0 && if bumped then Fraction(q) >= t else Fraction(q) <= t
    ensures var p := q.Floor + if bumped then 1 else 0;
            AbsReal(x as real - q) >= AbsReal(p as real - q) + (1.0 - 2.0 * t) * (x - p) as real
  {
    var p := q.Floor + if bumped then 1 else 0;
    var m := x as real - p as real;
    assert m == (x - p) as real;
    if x > p {
      StepUp(Fraction(q), bumped, m, t);
    } else if x < p {
      StepDown(Fraction(q), bumped, -m, t);
    }
  }

  lemma CostAdds(c: real, d: int, rest: int)
    ensures c * d as real + c * rest as real == c * (d + rest) as real
  {
  }

  ghost predicate Costs(p: int, x: int, q: real, c: real) {
    AbsReal(x as real - q) >= AbsReal(p as real - q) + c * (x - p) as real
  }

  lemma {:induction false} SplitCost(ps: seq<int>, xs: seq<int>, qs: seq<real>, c: real)
    requires |ps| == |xs| == |qs|
    requires forall i :: 0 <= i < |qs| ==> Costs(ps[i], xs[i], qs[i], c)
    ensures Deviation(xs, qs) >= Deviation(ps, qs) + c * (SumInt(xs) - SumInt(ps)) as real
  {
    hide AbsReal;
    if ps != [] {
      SplitCost(ps[1..], xs[1..], qs[1..], c);
      assert Costs(ps[0], xs[0], qs[0], c);
      CostAdds(c, xs[0] - ps[0], SumInt(xs[1..]) - SumInt(ps[1..]));
    }
  }

  ghost function Threshold(magnitude: nat, qs: seq<real>): real
    requires Shares(magnitude, qs) && qs != []
  {
    var b := Bumped(magnitude, qs);
    if b == [] then 1.0 else Fraction(qs[b[|b| - 1]])
  }

  ghost predicate Splits(q: real, bumped: bool, t: real) {
    0.0 <= t <= 1.0 && if bumped then Fraction(q) >= t else Fraction(q) <= t
  }

  lemma ThresholdSplits(magnitude: nat, qs: seq<real>, i: nat)
    requires Shares(magnitude, qs) && i < |qs|
    ensures Splits(qs[i], i in Bumped(magnitude, qs), Threshold(magnitude, qs))
  {
    hide Order, Parts, Shares, SumReal, Floors, SumInt, Fraction;
    PartsShape(magnitude, qs);
    OrderRanks(qs, |qs|);
    var b := Bumped(magnitude, qs);
    if b == [] {
      FractionBounds(qs[i]);
    } else {
      var last := b[|b| - 1];
      FractionBounds(qs[last]);
      LastBumped(magnitude, qs, i);
    }
  }

  lemma FractionBounds(q: real)
    ensures 0.0 <= Fraction(q) < 1.0
  {
  }

  lemma LastBumped(magnitude: nat, qs: seq<real>, i: nat)
    requires Shares(magnitude, qs) && i < |qs| && Bumped(magnitude, qs) != []
    ensures var b := Bumped(magnitude, qs);
            var t := Fraction(qs[b[|b| - 1]]);
            if i in b then Fraction(qs[i]) >= t else Fraction(qs[i]) <= t
  {
    hide Order, Parts, Shares, SumReal, Floors, SumInt, Fraction;
    PartsShape(magnitude, qs);
    OrderRanks(qs, |qs|);
    LeftBounds(magnitude, qs);
    var b := Bumped(magnitude, qs);
    var n := |b| - 1;
    assert n < |Order(qs, |qs|)|;
    if i in b {
      var s :| 0 <= s < |b| && b[s] == i;
      assert s < n ==> Before(qs, Order(qs, |qs|)[s], Order(qs, |qs|)[n]);
    } else {
      assert b[n] in b;
      assert Before(qs, b[n], i);
    }
  }

  lemma ThresholdCosts(magnitude: nat, qs: seq<real>, x: int, i: nat)
    requires Shares(magnitude, qs) && i < |qs|
    ensures Costs(Parts(magnitude, qs)[i], x, qs[i], 1.0 - 2.0 * Threshold(magnitude, qs))
  {
    hide Parts, Bumped, Threshold, Fraction, Shares;
    PartsShape(magnitude, qs);
    ThresholdSplits(magnitude, qs, i);
    PartCost(qs[i], i in Bumped(magnitude, qs), x, Threshold(magnitude, qs));
  }

  /** No split of the same total deviates less from the quotas. */
  lemma PartsOptimal(magnitude: nat, qs: seq<real>, xs: seq<int>)
    requires Shares(magnitude, qs) && |xs| == |qs| && SumInt(xs) == magnitude
    ensures Deviation(Parts(magnitude, qs), qs) <= Deviation(xs, qs)
  {
    hide Parts, Threshold, Shares, Costs;
    if qs != [] {
      var c := 1.0 - 2.0 * Threshold(magnitude, qs);
      PartsSum(magnitude, qs);
      forall i | 0 <= i < |qs| ensures Costs(Parts(magnitude, qs)[i], xs[i], qs[i], c) {
        ThresholdCosts(magnitude, qs, xs[i], i);
      }
      SplitCost(Parts(magnitude, qs), xs, qs, c);
      assert c * 0.0 == 0.0;
    }
  }

  // ----- nothing else has this shape -----

  lemma {:induction false} SumIntBelow(xs: seq<int>, ys: seq<int>, at: nat)
    requires |xs| == |ys| && at < |xs| && xs[at] < ys[at]
    requires forall i :: 0 <= i < |xs| ==> xs[i] <= ys[i]
    ensures SumInt(xs) < SumInt(ys)
  {
    if at > 0 {
      SumIntBelow(xs[1..], ys[1..], at - 1);
    } else if |xs| > 1 {
      SumIntAtMost(xs[1..], ys[1..]);
    }
  }

  lemma {:induction false} SumIntAtMost(xs: seq<int>, ys: seq<int>)
    requires |xs| == |ys| && forall i :: 0 <= i < |xs| ==> xs[i] <= ys[i]
    ensures SumInt(xs) <= SumInt(ys)
  {
    if xs != [] {
      SumIntAtMost(xs[1..], ys[1..]);
    }
  }

  /** A split into floors and floors plus one whose bumped parts outrank the others. */
  ghost predicate LargestRemainders(qs: seq<real>, xs: seq<int>) {
    && |xs| == |qs|
    && (forall i :: 0 <= i < |qs| ==> xs[i] == qs[i].Floor || xs[i] == qs[i].Floor + 1)
    && forall i, j ::
         0 <= i < |qs| && 0 <= j < |qs| && xs[i] == qs[i].Floor + 1 && xs[j] == qs[j].Floor ==> Before(qs, i, j)
  }

  lemma AboveOnce(qs: seq<real>, xs: seq<int>, ps: seq<int>, at: nat)
    requires LargestRemainders(qs, xs) && LargestRemainders(qs, ps) && at < |qs| && xs[at] > ps[at]
    ensures SumInt(ps) < SumInt(xs)
  {
    forall j | 0 <= j < |qs| ensures ps[j] <= xs[j] {
    }
    SumIntBelow(ps, xs, at);
  }

  lemma NotAbove(qs: seq<real>, xs: seq<int>, ps: seq<int>)
    requires LargestRemainders(qs, xs) && LargestRemainders(qs, ps) && SumInt(xs) == SumInt(ps)
    ensures forall i :: 0 <= i < |qs| ==> xs[i] <= ps[i]
  {
    forall i | 0 <= i < |qs| ensures xs[i] <= ps[i] {
      if xs[i] > ps[i] {
        AboveOnce(qs, xs, ps, i);
        assert false;
      }
    }
  }

  /** The allocation is the only such split of the total. */
  lemma PartsUnique(magnitude: nat, qs: seq<real>, xs: seq<int>)
    requires Shares(magnitude, qs) && qs != []
    ensures xs == Parts(magnitude, qs) <==> LargestRemainders(qs, xs) && SumInt(xs) == magnitude
  {
    var ps := Parts(magnitude, qs);
    PartsShape(magnitude, qs);
    PartsSum(magnitude, qs);
    assert LargestRemainders(qs, ps);
    if LargestRemainders(qs, xs) && SumInt(xs) == magnitude {
      NotAbove(qs, xs, ps);
      NotAbove(qs, ps, xs);
    }
  }

  // ----- the signed result -----

  /** The exact signed share of a weight. */
  function Share(total: int, w: real, sum: real): real
    requires sum != 0.0
  {
    total as real * w / sum
  }

  lemma ShareSign(total: int, w: real, sum: real)
    requires sum != 0.0
    ensures Share(total, w, sum) == if total < 0 then -Quota(AbsInt(total), w, sum) else Quota(AbsInt(total), w, sum)
  {
    if total < 0 {
      var m := AbsInt(total) as real;
      assert total as real == -m;
      assert -m * w == -(m * w);
    }
  }

  lemma {:induction false} NegateSum(ps: seq<int>)
    ensures SumInt(Negate(ps)) == -SumInt(ps)
  {
    if ps != [] {
      NegateSum(ps[1..]);
      assert Negate(ps)[1..] == Negate(ps[1..]);
    }
  }

  function SignedDeviation(total: int, ps: seq<int>, weights: seq<real>, sum: real): real
    requires sum != 0.0 && |ps| == |weights|
  {
    if ps == [] then 0.0
    else AbsReal(ps[0] as real - Share(total, weights[0], sum)) + SignedDeviation(total, ps[1..], weights[1..], sum)
  }

  lemma {:induction false} DeviationSign(total: int, ps: seq<int>, weights: seq<real>, sum: real, qs: seq<real>)
    requires sum != 0.0 && |ps| == |weights| == |qs|
    requires forall i :: 0 <= i < |qs| ==> qs[i] == Quota(AbsInt(total), weights[i], sum)
    ensures SignedDeviation(total, ps, weights, sum) == Deviation(if total < 0 then Negate(ps) else ps, qs)
  {
    hide Quota, Share;
    if ps != [] {
      ShareSign(total, weights[0], sum);
      DeviationSign(total, ps[1..], weights[1..], sum, qs[1..]);
      assert Negate(ps)[1..] == Negate(ps[1..]);
    }
  }

  lemma QuotasShare(total: int, weights: seq<real>)
    requires SumReal(weights) != 0.0
    ensures weights != [] && Shares(AbsInt(total), Quotas(AbsInt(total), weights))
  {
    QuotasSum(AbsInt(total), weights);
  }

  /** The parts sum to the total, each is within less than one of its exact share, and a whole share
      is met exactly. */
  lemma AllocateExact(total: int, weights: seq<real>)
    requires SumReal(weights) != 0.0
    ensures Allocate(total, weights).Some?
    ensures var r := Allocate(total, weights).value;
            && |r| == |weights| && SumInt(r) == total
            && forall i :: 0 <= i < |r| ==>
                 var share := Share(total, weights[i], SumReal(weights));
                 && AbsReal(r[i] as real - share) < 1.0
                 && (share == share.Floor as real ==> r[i] as real == share)
  {
    var sum, qs := SumReal(weights), Quotas(AbsInt(total), weights);
    var ps := Parts(AbsInt(total), qs);
    QuotasShare(total, weights);
    PartsSum(AbsInt(total), qs);
    NegateSum(ps);
    var r := Allocate(total, weights).value;
    assert forall i :: 0 <= i < |r| ==> r[i] == if total < 0 then -ps[i] else ps[i];
    forall i | 0 <= i < |r|
      ensures var share := Share(total, weights[i], sum);
              && AbsReal(r[i] as real - share) < 1.0
              && (share == share.Floor as real ==> r[i] as real == share)
    {
      hide Quota, Share, Parts, Allocate;
      ShareSign(total, weights[i], sum);
      PartsNear(AbsInt(total), qs, i);
      WholeSign(Quota(AbsInt(total), weights[i], sum));
    }
  }

  lemma WholeSign(q: real)
    ensures -q == (-q).Floor as real ==> Fraction(q) == 0.0
    ensures q == q.Floor as real ==> Fraction(q) == 0.0
  {
    var n := (-q).Floor;
    assert -q == n as real ==> q == (-n) as real;
  }

  ghost predicate NonNegative(weights: seq<real>) {
    forall i :: 0 <= i < |weights| ==> weights[i] >= 0.0
  }

  lemma {:induction false} SumNonNegative(weights: seq<real>)
    requires NonNegative(weights)
    ensures SumReal(weights) >= 0.0
  {
    if weights != [] {
      SumNonNegative(weights[1..]);
    }
  }

  lemma QuotaMonotone(magnitude: nat, v: real, w: real, sum: real)
    requires sum > 0.0 && v <= w
    ensures Quota(magnitude, v, sum) <= Quota(magnitude, w, sum)
  {
    var m := magnitude as real;
    assert m * v <= m * w;
    DivideMonotone(m * v, m * w, sum);
  }

  lemma DivideMonotone(x: real, y: real, d: real)
    requires x <= y && d > 0.0
    ensures x / d <= y / d
  {
    var p, q := x / d, y / d;
    assert x == p * d && y == q * d;
    assert p > q ==> p * d > q * d;
  }

  lemma QuotaNonNegative(magnitude: nat, w: real, sum: real)
    requires sum > 0.0 && w >= 0.0
    ensures Quota(magnitude, w, sum) >= 0.0
  {
    QuotaMonotone(magnitude, 0.0, w, sum);
    assert magnitude as real * 0.0 == 0.0;
  }

  /** A part never changes the sign of the total. */
  lemma PartSign(magnitude: nat, qs: seq<real>, i: nat)
    requires Shares(magnitude, qs) && i < |qs| && qs[i] >= 0.0
    ensures Parts(magnitude, qs)[i] >= 0
  {
    PartsShape(magnitude, qs);
  }

  /** Of non-negative weights the larger one gets at least as much; of two equal weights the earlier
      one does, and at most one more. */
  lemma AllocateMonotone(total: int, weights: seq<real>, i: nat, j: nat)
    requires NonNegative(weights) && SumReal(weights) != 0.0
    requires i < |weights| && j < |weights| && (weights[i] > weights[j] || (weights[i] == weights[j] && i < j))
    ensures Allocate(total, weights).Some? && |Allocate(total, weights).value| == |weights|
    ensures var r := Allocate(total, weights).value;
            && AbsInt(r[i]) >= AbsInt(r[j])
            && (weights[i] == weights[j] ==> AbsInt(r[i]) <= AbsInt(r[j]) + 1)
            && (if total < 0 then r[i] <= 0 else r[i] >= 0)
  {
    hide Parts, Quota;
    var sum, magnitude := SumReal(weights), AbsInt(total);
    var qs := Quotas(magnitude, weights);
    SumNonNegative(weights);
    QuotasShare(total, weights);
    QuotaMonotone(magnitude, weights[j], weights[i], sum);
    QuotaNonNegative(magnitude, weights[i], sum);
    QuotaNonNegative(magnitude, weights[j], sum);
    PartSign(magnitude, qs, i);
    PartSign(magnitude, qs, j);
    if qs[i] == qs[j] && j < i {
      QuotaInjective(magnitude, weights[j], weights[i], sum);
      ZeroQuota(weights[i], sum);
      ZeroParts(qs, i);
      ZeroParts(qs, j);
    } else {
      PartsMonotone(magnitude, qs, i, j);
    }
  }

  /** Different weights earn the same quota only when nothing is allocated. */
  lemma QuotaInjective(magnitude: nat, v: real, w: real, sum: real)
    requires sum > 0.0 && Quota(magnitude, v, sum) == Quota(magnitude, w, sum) && v != w
    ensures magnitude == 0
  {
    var m := magnitude as real;
    var p := m * v / sum;
    assert m * v == p * sum == m * w;
    assert m * (v - w) == 0.0;
  }

  lemma ZeroQuota(w: real, sum: real)
    requires sum != 0.0
    ensures Quota(0, w, sum) == 0.0
  {
    assert 0.0 * w == 0.0;
  }

  lemma ZeroParts(qs: seq<real>, i: nat)
    requires Shares(0, qs) && i < |qs| && qs[i] == 0.0
    ensures Parts(0, qs)[i] == 0
  {
    PartsNear(0, qs, i);
  }

  /** Allocating the negated total negates every part. */
  lemma AllocateNegates(total: int, weights: seq<real>)
    requires Allocate(total, weights).Some?
    ensures Allocate(-total, weights) == Some(Negate(Allocate(total, weights).value))
  {
    if weights == [] {
      assert Negate([]) == [];
    } else {
      var ps := Parts(AbsInt(total), Quotas(AbsInt(total), weights));
      assert AbsInt(-total) == AbsInt(total);
      assert Negate(Negate(ps)) == ps;
      if total == 0 {
        ZeroAllocation(weights);
        assert Negate(ps) == ps;
      }
    }
  }

  lemma ZeroAllocation(weights: seq<real>)
    requires SumReal(weights) != 0.0
    ensures forall i :: 0 <= i < |weights| ==> Parts(0, Quotas(0, weights))[i] == 0
  {
    hide Parts, Quota;
    QuotasShare(0, weights);
    forall i | 0 <= i < |weights| ensures Parts(0, Quotas(0, weights))[i] == 0 {
      ZeroQuota(weights[i], SumReal(weights));
      ZeroParts(Quotas(0, weights), i);
    }
  }

  /** No whole-number split of the total deviates less from the exact shares. */
  lemma AllocateOptimal(total: int, weights: seq<real>, split: seq<int>)
    requires SumReal(weights) != 0.0 && |split| == |weights| && SumInt(split) == total
    ensures Allocate(total, weights).Some? && |Allocate(total, weights).value| == |weights|
    ensures SignedDeviation(total, Allocate(total, weights).value, weights, SumReal(weights))
         <= SignedDeviation(total, split, weights, SumReal(weights))
  {
    hide Parts, Quota;
    var magnitude, sum := AbsInt(total), SumReal(weights);
    var qs, r := Quotas(magnitude, weights), Allocate(total, weights).value;
    QuotasShare(total, weights);
    var xs := if total < 0 then Negate(split) else split;
    NegateSum(split);
    PartsOptimal(magnitude, qs, xs);
    DeviationSign(total, split, weights, sum, qs);
    DeviationSign(total, r, weights, sum, qs);
    assert Negate(Negate(Parts(magnitude, qs))) == Parts(magnitude, qs);
  }

  // ----- the loop -----

  /** The floors as a list that the loop increments part by part. */
  method AllocateInPlace(total: int, weights: seq<real>) returns (r: Option<seq<int>>)
    ensures r == Allocate(total, weights)
  {
    hide Order, SumReal, SumInt, Fraction, Quota;
    if weights == [] {
      return Some([]);
    }
    if SumReal(weights) == 0.0 {
      return None;
    }
    var quotas := Quotas(AbsInt(total), weights);
    var parts := new int[|quotas|](i requires 0 <= i < |quotas| => quotas[i].Floor);
    assert parts[..] == Floors(quotas);
    var order := Slice(Order(quotas, |quotas|), AbsInt(total) - SumInt(parts[..]));
    for t := 0 to |order|
      invariant parts[..] == Bump(Floors(quotas), order[..t])
    {
      assert order[..t + 1][..t] == order[..t];
      parts[order[t]] := parts[order[t]] + 1;
    }
    assert order[..|order|] == order;
    r := Some(if total < 0 then Negate(parts[..]) else parts[..]);
  }
}
