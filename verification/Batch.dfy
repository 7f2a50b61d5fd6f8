/** A batch of ordinary claims on distinct open families, all within their deadlines, is a question
    about totals only: neither the order of the claims nor their times change acceptance or, but for the
    clock, the final book. */
module Batch {
  import opened Wrappers
  import opened Records
  import opened Sums
  import opened Multisets
  import opened Capacity
  import opened Accounting

  datatype Item = Item(family: string, amount: int, receipt: Reference)

  /** The items claimed one after the other at the given times. */
  ghost function ClaimAll(t: Terms, b: Book, items: seq<Item>, times: seq<int>): Result<Book, Code>
    requires |items| == |times|
  {
    if items == [] then Ok(b)
    else
      var n := |items| - 1;
      var before :- ClaimAll(t, b, items[..n], times[..n]);
      var e :- Advance(t, before, Timed(Claim(items[n].family, items[n].amount, items[n].receipt), times[n]));
      Ok(e.book)
  }

  /** Where the clock stands after these times. */
  function End(clock: int, times: seq<int>): int { if times == [] then clock else times[|times| - 1] }

  /** Time never runs backwards from the clock. */
  predicate Ascending(clock: int, times: seq<int>) {
    (forall i | 0 <= i < |times| :: clock <= times[i])
    && forall i, j | 0 <= i < j < |times| :: times[i] <= times[j]
  }

  ghost predicate Distinct(items: seq<Item>) {
    forall i, j :: 0 <= i < j < |items| ==> items[i].family != items[j].family
  }

  ghost predicate Claimable(t: Terms, b: Book, item: Item, now: int) {
    && item.family in t.families && -MAX_ATOMS <= item.amount <= MAX_ATOMS
    && Key(t, item.family) in b.current.families
    && b.current.families[Key(t, item.family)].status.Open?
    && now <= b.current.families[Key(t, item.family)].acceptedBy
  }

  /** Distinct open families, and every time within every deadline. */
  ghost predicate Eligible(t: Terms, b: Book, items: seq<Item>, times: seq<int>) {
    && |items| == |times| && Ascending(b.clock, times) && Distinct(items)
    && forall i, k :: 0 <= i < |items| && 0 <= k < |times| ==> Claimable(t, b, items[i], times[k])
  }

  ghost function Entries(items: seq<Item>): map<string, Item> {
    if items == [] then map[]
    else Entries(items[..|items| - 1])[items[|items| - 1].family := items[|items| - 1]]
  }

  ghost function Amounts(entries: map<string, Item>): map<string, int> {
    map f | f in entries :: entries[f].amount
  }

  ghost function Receipts(entries: map<string, Item>): map<string, Reference> {
    map f | f in entries :: entries[f].receipt
  }

  ghost function ClaimFamily(entries: map<string, Item>, k: FamilyKey, family: Family): Family {
    if k.familyId in entries then family.(status := Claimed, ordinaryReceipt := Some(entries[k.familyId].receipt))
    else family
  }

  /** The whole batch fits the premium ceiling, the base limit and the held balance. */
  ghost predicate Fits(t: Terms, b: Book, entries: map<string, Item>) {
    var amounts := Amounts(entries);
    && Total(Gains(b.live)) + Total(Gains(amounts)) <= t.premiumCeiling
    && Total(Losses(b.live)) + Total(Losses(amounts)) <= t.baseConsumed
    && Total(Gains(amounts)) <= b.current.held
  }

  ghost function SettledState(s: State, entries: map<string, Item>): State {
    var gain := Total(Gains(Amounts(entries)));
    State(s.revision + |entries|, s.maximum, s.consumed + gain, s.held - gain, s.released,
          map k | k in s.families :: ClaimFamily(entries, k, s.families[k]))
  }

  /** The book after the whole batch, with no reference to any order. */
  ghost function Settled(b: Book, entries: map<string, Item>, clock: int): Book {
    Book(SettledState(b.current, entries), b.live + Amounts(entries), b.original + Receipts(entries), clock)
  }

  lemma {:induction false} EntriesOf(items: seq<Item>)
    requires Distinct(items)
    ensures forall i ::
              0 <= i < |items| ==> items[i].family in Entries(items) && Entries(items)[items[i].family] == items[i]
    ensures forall f :: f in Entries(items) ==> Entries(items)[f] in items && Entries(items)[f].family == f
    ensures |Entries(items)| == |items|
  {
    if items != [] {
      var n := |items| - 1;
      EntriesOf(items[..n]);
      assert items == items[..n] + [items[n]];
      assert Entries(items).Keys == Entries(items[..n]).Keys + {items[n].family};
      assert |Entries(items)| == |Entries(items).Keys|;
    }
  }

  lemma DistinctOrderFree(items: seq<Item>, other: seq<Item>)
    requires Distinct(items) && multiset(items) == multiset(other)
    ensures Distinct(other)
  {
    NoRepeatsPermuted(items, other);
    forall i, j | 0 <= i < j < |other| ensures other[i].family != other[j].family {
      SameMembers(other, items, other[i]);
      SameMembers(other, items, other[j]);
    }
  }

  /** Two orders of the same items have the same entries. */
  lemma EntriesOrderFree(items: seq<Item>, other: seq<Item>)
    requires Distinct(items) && multiset(items) == multiset(other)
    ensures Distinct(other) && Entries(items) == Entries(other)
  {
    DistinctOrderFree(items, other);
    EntriesOf(items);
    EntriesOf(other);
    var e, e' := Entries(items), Entries(other);
    forall f | f in e
      ensures f in e' && e'[f] == e[f]
    {
      assert e[f] in multiset(other);
      var i :| 0 <= i < |other| && other[i] == e[f];
    }
    forall f | f in e'
      ensures f in e
    {
      assert e'[f] in multiset(items);
      var i :| 0 <= i < |items| && items[i] == e'[f];
    }
  }

  lemma EligibleItem(t: Terms, b: Book, items: seq<Item>, times: seq<int>)
    requires items != [] && Eligible(t, b, items, times)
    ensures var n := |items| - 1;
            && Eligible(t, b, items[..n], times[..n]) && Claimable(t, b, items[n], times[n])
            && items[n].family !in Entries(items[..n]) && b.clock <= End(b.clock, times[..n]) <= times[n]
  {
    EntriesOf(items[..|items| - 1]);
  }

  /** Adding one more entry adds its parts to the batch totals. */
  lemma AddEntry(entries: map<string, Item>, item: Item)
    requires item.family !in entries
    ensures Amounts(entries[item.family := item]) == Amounts(entries)[item.family := item.amount]
    ensures Total(Gains(Amounts(entries[item.family := item]))) == Total(Gains(Amounts(entries))) + Gain(item.amount)
    ensures Total(Losses(Amounts(entries[item.family := item]))) == Total(Losses(Amounts(entries))) + Loss(item.amount)
  {
    GainsInsert(Amounts(entries), item.family, item.amount);
    assert Amounts(entries[item.family := item]) == Amounts(entries)[item.family := item.amount];
  }

  ghost predicate OpenEntries(t: Terms, b: Book, entries: map<string, Item>) {
    forall f :: f in entries ==> f in t.families && f !in b.live
  }

  /** The next item passes the ceilings and the held check exactly when the extended batch fits. */
  lemma NextFits(t: Terms, b: Book, entries: map<string, Item>, item: Item)
    requires OpenEntries(t, b, entries) && item.family !in b.live && item.family !in entries
    ensures Fits(t, b, entries[item.family := item])
            <==> WithinCeilings(t, (b.live + Amounts(entries))[item.family := item.amount])
                 && Gain(item.amount) <= b.current.held - Total(Gains(Amounts(entries)))
  {
    var more := entries[item.family := item];
    AddEntry(entries, item);
    JoinedAmounts(t, b, entries, item);
    hide Amounts, OpenEntries, Gain, Loss;
    PartsJoin(b.live, Amounts(more));
    hide Total, Gains, Losses;
  }

  lemma JoinedAmounts(t: Terms, b: Book, entries: map<string, Item>, item: Item)
    requires OpenEntries(t, b, entries) && item.family !in b.live
    ensures b.live.Keys !! Amounts(entries[item.family := item]).Keys
    ensures (b.live + Amounts(entries))[item.family := item.amount] == b.live + Amounts(entries[item.family := item])
  {
    MoreAmounts(b, entries, item);
  }

  /** One more claim on top of an already settled batch. */
  lemma SettleOneMore(t: Terms, b: Book, entries: map<string, Item>, item: Item, before: int,
          now: int)
    requires Sound(t, b) && Sound(t, Settled(b, entries, before)) && OpenEntries(t, b, entries)
    requires item.family !in entries && Claimable(t, b, item, now) && before <= now
    requires |t.families| <= MAX_REVISION
    ensures var r := Advance(t, Settled(b, entries, before), Timed(Claim(item.family, item.amount, item.receipt), now));
            && (r.Ok? <==> Fits(t, b, entries[item.family := item]))
            && (r.Ok? ==> r.value.book == Settled(b, entries[item.family := item], now))
  {
    hide Sound, ApplyClaim, WithinCeilings, Fits, OpenEntries, ClaimedState, Settled, SettledState,
         FamiliesOk, CapacityOk;
    hide Total, Gain, Amounts, Receipts;
    var c := Settled(b, entries, before);
    OpenMeansUnclosed(t, b, item.family);
    SoundParts(t, b);
    NextFits(t, b, entries, item);
    SettledAgrees(t, b, entries, item);
    SettledNumbers(b.current, entries, item);
    SettledBooks(b, entries, item, before, now);
    ClaimExact(t, c, item.family, item.amount, item.receipt, now);
  }

  lemma SettledFamilies(t: Terms, s: State, entries: map<string, Item>, item: Item)
    requires item.family !in entries && Key(t, item.family) in s.families
    requires forall k :: k in s.families ==> k == Key(t, k.familyId)
    ensures SettledState(s, entries).families[Key(t, item.family)] == s.families[Key(t, item.family)]
    ensures ClaimedState(t, SettledState(s, entries), item.family, Gain(item.amount), item.receipt).families
            == SettledState(s, entries[item.family := item]).families
  {
    hide Total;
    var more := entries[item.family := item];
    var f1 := ClaimedState(t, SettledState(s, entries), item.family, Gain(item.amount), item.receipt).families;
    var f2 := SettledState(s, more).families;
    forall k | k in s.families
      ensures f1[k] == f2[k]
    {
      assert k == Key(t, k.familyId);
    }
    assert f1 == f2;
  }

  lemma SettledNumbers(s: State, entries: map<string, Item>, item: Item)
    requires item.family !in entries
    ensures var c, d := SettledState(s, entries), SettledState(s, entries[item.family := item]);
            && d.revision == c.revision + 1 && d.maximum == c.maximum && d.released == c.released
            && d.consumed == c.consumed + Gain(item.amount) && d.held == c.held - Gain(item.amount)
            && c.held == s.held - Total(Gains(Amounts(entries)))
  {
    hide ClaimFamily, Total;
    var more := entries[item.family := item];
    AddEntry(entries, item);
    assert more.Keys == entries.Keys + {item.family} && |more| == |more.Keys|;
  }

  lemma SettledAgrees(t: Terms, b: Book, entries: map<string, Item>, item: Item)
    requires FamiliesOk(t, b) && item.family !in entries && Key(t, item.family) in b.current.families
    ensures var c := SettledState(b.current, entries);
            && Key(t, item.family) in c.families
            && c.families[Key(t, item.family)] == b.current.families[Key(t, item.family)]
            && ClaimedState(t, c, item.family, Gain(item.amount), item.receipt)
               == SettledState(b.current, entries[item.family := item])
  {
    SettledFamilies(t, b.current, entries, item);
    SettledNumbers(b.current, entries, item);
    hide ClaimFamily, FamiliesOk, Total, Amounts, Gain;
  }

  lemma MoreAmounts(b: Book, entries: map<string, Item>, item: Item)
    ensures (b.live + Amounts(entries))[item.family := item.amount] == b.live + Amounts(entries[item.family := item])
  {
  }

  lemma MoreReceipts(b: Book, entries: map<string, Item>, item: Item)
    ensures (b.original + Receipts(entries))[item.family := item.receipt]
        == b.original + Receipts(entries[item.family := item])
  {
  }

  lemma SettledBooks(b: Book, entries: map<string, Item>, item: Item, before: int, now: int)
    requires item.family !in entries
    ensures var more := entries[item.family := item]; var c := Settled(b, entries, before);
            && c.current == SettledState(b.current, entries) && c.clock == before
            && c.live == b.live + Amounts(entries)
            && Settled(b, more, now) == Book(SettledState(b.current, more), c.live[item.family := item.amount],
                                             c.original[item.family := item.receipt], now)
  {
    hide SettledState, Total, Amounts, Receipts;
    assert item.family in entries[item.family := item];
    MoreAmounts(b, entries, item);
    MoreReceipts(b, entries, item);
  }

  lemma FitsShrinks(t: Terms, b: Book, entries: map<string, Item>, item: Item)
    requires item.family !in entries && Fits(t, b, entries[item.family := item])
    ensures Fits(t, b, entries)
  {
    AddEntry(entries, item);
  }

  /** A batch is accepted exactly when its totals fit, and then leaves the settled book. */
  lemma {:induction false} BatchExact(t: Terms, b: Book, items: seq<Item>, times: seq<int>)
    requires Sound(t, b) && Eligible(t, b, items, times) && |t.families| <= MAX_REVISION
    ensures ClaimAll(t, b, items, times).Ok? <==> Fits(t, b, Entries(items))
    ensures var settled := Settled(b, Entries(items), End(b.clock, times));
            ClaimAll(t, b, items, times).Ok? ==> ClaimAll(t, b, items, times) == Ok(settled) && Sound(t, settled)
  {
    hide Advance, Sound, Fits, Settled, Total;
    if items == [] {
      SoundParts(t, b);
      EmptyBatch(t, b);
    } else {
      hide Eligible, Entries, Ascending;
      var n := |items| - 1;
      EligibleItem(t, b, items, times);
      BatchExact(t, b, items[..n], times[..n]);
      BatchStep(t, b, items, times);
    }
  }

  lemma BatchStep(t: Terms, b: Book, items: seq<Item>, times: seq<int>)
    requires items != [] && Sound(t, b) && Eligible(t, b, items, times) && |t.families| <= MAX_REVISION
    requires var n := |items| - 1; var settled := Settled(b, Entries(items[..n]), End(b.clock, times[..n]));
             var before := ClaimAll(t, b, items[..n], times[..n]);
             && (before.Ok? <==> Fits(t, b, Entries(items[..n])))
             && (before.Ok? ==> before == Ok(settled) && Sound(t, settled))
    ensures ClaimAll(t, b, items, times).Ok? <==> Fits(t, b, Entries(items))
    ensures var settled := Settled(b, Entries(items), End(b.clock, times));
            ClaimAll(t, b, items, times).Ok? ==> ClaimAll(t, b, items, times) == Ok(settled) && Sound(t, settled)
  {
    hide Advance, Sound, Fits, Settled, Eligible, Ascending, End;
    EligibleDistinct(t, b, items, times);
    var n := |items| - 1;
    var entries, item, clock := Entries(items[..n]), items[n], End(b.clock, times[..n]);
    EligibleItem(t, b, items, times);
    EndIsLast(b.clock, times);
    if Fits(t, b, Entries(items)) {
      FitsShrinks(t, b, entries, item);
    }
    if ClaimAll(t, b, items[..n], times[..n]).Ok? {
      OpenBatch(t, b, items[..n], times[..n]);
      SettleOneMore(t, b, entries, item, clock, times[n]);
      var step := Timed(Claim(item.family, item.amount, item.receipt), times[n]);
      if Advance(t, Settled(b, entries, clock), step).Ok? {
        AdvanceSound(t, Settled(b, entries, clock), step);
      }
    }
  }

  lemma EndIsLast(clock: int, times: seq<int>)
    requires times != []
    ensures End(clock, times) == times[|times| - 1]
  {
  }

  lemma NoEntries()
    ensures Amounts(map[]) == map[] && Receipts(map[]) == map[]
    ensures Total(Gains(Amounts(map[]))) == 0 == Total(Losses(Amounts(map[])))
  {
    assert Gains(Amounts(map[])) == map[] && Losses(Amounts(map[])) == map[];
  }

  lemma EmptyBatch(t: Terms, b: Book)
    requires CapacityOk(t, b.current, b.live)
    ensures Fits(t, b, map[]) && Settled(b, map[], b.clock) == b
  {
    hide Total, Gains, Losses, Amounts, Receipts, CloseTookEffect, Shut;
    NoEntries();
    assert b.live + map[] == b.live && b.original + map[] == b.original;
    assert SettledState(b.current, map[]).families == b.current.families;
  }

  lemma OpenBatch(t: Terms, b: Book, items: seq<Item>, times: seq<int>)
    requires Sound(t, b) && Eligible(t, b, items, times)
    ensures OpenEntries(t, b, Entries(items))
  {
    EntriesOf(items);
    forall f | f in Entries(items)
      ensures f in t.families && f !in b.live
    {
      var i :| 0 <= i < |items| && items[i] == Entries(items)[f];
      assert Claimable(t, b, items[i], times[i]);
      assert FamilyOk(t, b, f);
    }
  }

  lemma EligibleOrderFree(t: Terms, b: Book, items: seq<Item>, other: seq<Item>, times: seq<int>)
    requires Eligible(t, b, items, times) && multiset(items) == multiset(other)
    ensures |items| == |other| && Eligible(t, b, other, times)
  {
    assert |items| == |multiset(items)| == |multiset(other)| == |other|;
    DistinctOrderFree(items, other);
    forall i, k | 0 <= i < |other| && 0 <= k < |times| ensures Claimable(t, b, other[i], times[k]) {
      SameMembers(other, items, other[i]);
    }
  }

  /** Any two orders of a batch, at any times within the deadlines, are accepted alike and end in the same
      book, revision included; only the clock is that of the last claim. */
  lemma BatchOrderFree(t: Terms, start: int, steps: seq<Timed>, items: seq<Item>, times: seq<int>, other: seq<Item>,
          otherTimes: seq<int>)
    requires Run(t, start, steps).Ok? && |t.families| <= MAX_REVISION && multiset(items) == multiset(other)
    requires var b := Run(t, start, steps).value; Eligible(t, b, items, times) && Eligible(t, b, items, otherTimes)
    ensures |other| == |otherTimes|
    ensures var b := Run(t, start, steps).value;
            var r, r' := ClaimAll(t, b, items, times), ClaimAll(t, b, other, otherTimes);
            && (r.Ok? <==> Fits(t, b, Entries(items))) && (r.Ok? <==> r'.Ok?)
            && (r.Ok? ==> r' == Ok(r.value.(clock := End(b.clock, otherTimes))) && r.value.clock == End(b.clock, times))
  {
    var b := Run(t, start, steps).value;
    RunSound(t, start, steps);
    hide Sound, Fits, SettledState, Eligible, Run, ClaimAll;
    EntriesOrderFree(items, other) by {
      EligibleDistinct(t, b, items, times);
    }
    EligibleOrderFree(t, b, items, other, otherTimes);
    BatchExact(t, b, items, times);
    BatchExact(t, b, other, otherTimes);
  }

  lemma EligibleDistinct(t: Terms, b: Book, items: seq<Item>, times: seq<int>)
    requires Eligible(t, b, items, times)
    ensures Distinct(items) && |items| == |times|
  {
  }
}
