/** Exactly when held capacity refuses a claim, and why nothing moves after a close. */
module Finality {
  import opened Wrappers
  import opened Records
  import opened Sums
  import opened Capacity
  import opened Accounting

  // ----- the held-capacity refusal -----

  /** A correction that takes back part of a claimed family's positive amount. */
  ghost predicate Lowers(b: Book, a: Action) {
    a.Correct? && a.family in b.live && Gain(a.amount) < Gain(b.live[a.family])
  }

  /** Some correction of the run lowered a claimed positive amount. */
  ghost predicate EverLowered(t: Terms, start: int, steps: seq<Timed>)
    requires Run(t, start, steps).Ok?
    decreases |steps|
  {
    steps != []
    && var n := |steps| - 1;
    EverLowered(t, start, steps[..n]) || Lowers(Run(t, start, steps[..n]).value, steps[n].action)
  }

  ghost predicate FirstWithinLive(first: map<string, int>, live: map<string, int>) {
    first.Keys == live.Keys && forall f :: f in live ==> Gain(first[f]) <= Gain(live[f])
  }

  lemma FirstWithinLiveStep(t: Terms, b: Book, a: Action, now: int, first: map<string, int>)
    requires Sound(t, b) && Apply(t, b, a, now).Ok? && FirstWithinLive(first, b.live) && !Lowers(b, a)
    ensures FirstWithinLive(FirstAfter(first, a), Apply(t, b, a, now).value.book.live)
  {
    hide ApplyClaim, ApplyCorrection, ApplyClose, Sound;
    match a
    case Claim(f, amount, receipt) => ClaimSound(t, b, f, amount, receipt, now);
    case Correct(f, amount) => CorrectionSound(t, b, f, amount, now);
    case CloseWindow(reason, revision, early) => CloseSound(t, b, reason, revision, early, now);
  }

  lemma EmptyWithinLive(t: Terms, start: int)
    requires Run(t, start, []).Ok?
    ensures FirstWithinLive(FirstAmounts([]), Run(t, start, []).value.live)
  {
  }

  lemma {:induction false} UnloweredRun(t: Terms, start: int, steps: seq<Timed>)
    requires Run(t, start, steps).Ok? && !EverLowered(t, start, steps)
    ensures FirstWithinLive(FirstAmounts(steps), Run(t, start, steps).value.live)
  {
    hide Apply, Advance, Sound, FirstWithinLive, Lowers;
    if steps == [] {
      assert FirstWithinLive(FirstAmounts(steps), Run(t, start, steps).value.live) by { EmptyWithinLive(t, start); }
    } else {
      var n := |steps| - 1;
      LastStep(t, start, steps);
      UnloweredRun(t, start, steps[..n]);
      FirstWithinLiveStep(t, Run(t, start, steps[..n]).value, steps[n].action, steps[n].at, FirstAmounts(steps[..n]));
    }
  }

  /** A claim that passes every other check is refused exactly when it exceeds what the first amounts
      left of the opening balance. */
  lemma HeldRefusalExact(t: Terms, start: int, steps: seq<Timed>, f: string, amount: int, receipt: Reference,
          now: int)
    requires Run(t, start, steps).Ok?
    requires ReachesHeldCheck(t, Run(t, start, steps).value, f, amount, now)
    ensures var b := Run(t, start, steps).value;
            ApplyClaim(t, b, f, amount, receipt, now) == Err(HeldCapacity)
            <==> t.maximum - t.baseConsumed - t.baseReleased - Total(Gains(FirstAmounts(steps))) < Gain(amount)
  {
    hide Run, ApplyClaim, Sound, FirstAmounts, WithinCeilings;
    var b := Run(t, start, steps).value;
    RunSound(t, start, steps);
    WholeRunAccounting(t, start, steps);
    OpenMeansUnclosed(t, b, f);
    ClaimOutcome(t, b, f, amount, receipt, now);
  }

  /** The held-capacity check refuses only after a correction lowered a claimed positive amount:
      otherwise the frozen and economic ceilings already imply it. */
  lemma HeldRefusalNeedsLowering(t: Terms, start: int, steps: seq<Timed>, f: string, amount: int, receipt: Reference,
          now: int)
    requires Run(t, start, steps).Ok?
    requires ApplyClaim(t, Run(t, start, steps).value, f, amount, receipt, now) == Err(HeldCapacity)
    ensures EverLowered(t, start, steps)
  {
    hide Run, ApplyClaim, FirstAmounts, EverLowered, Total;
    var b := Run(t, start, steps).value;
    ClaimOutcome(t, b, f, amount, receipt, now);
    if !EverLowered(t, start, steps) {
      RunSound(t, start, steps);
      HeldRefusalExact(t, start, steps, f, amount, receipt, now);
      UnloweredRun(t, start, steps);
      OpenMeansUnclosed(t, b, f);
      GainsInsert(b.live, f, amount);
      TotalMonotone(Gains(FirstAmounts(steps)), Gains(b.live));
    }
  }

  // ----- a concrete history -----

  const TWO_FAMILIES := Terms("reversal", 1000, 100, 0, 800, map["a" := 10, "b" := 10])

  function EconomicReceiptOf(id: string): Reference {
    Synthetic(EconomicReceipt, "reversal", StepRole(id))
  }

  /** Claim 200, then correct it. */
  function CorrectedTo(amount: int): seq<Timed> {
    [Timed(Claim("a", 200, EconomicReceiptOf("a")), 1), Timed(Correct("a", amount), 2)]
  }

  const REVERSED := CorrectedTo(0)
  const RAISED := CorrectedTo(800)

  lemma OneAmount(f: string, v: int)
    ensures Total(Gains(map[f := v])) == Gain(v) && Total(Losses(map[f := v])) == Loss(v)
    ensures Total(map[f := v]) == v
  {
    var none: map<string, int> := map[];
    assert Gains(none) == map[] && Losses(none) == map[] && none[f := v] == map[f := v];
    GainsInsert(none, f, v);
    TotalSplits(map[f := v]);
  }

  lemma OpenedRun() returns (b: Book)
    ensures Run(TWO_FAMILIES, 0, []) == Ok(b)
    ensures b.live == map[] && b.clock == 0 && b.current == BaseState(TWO_FAMILIES)
  {
    b := OpenReservation(TWO_FAMILIES, 0).value;
  }

  lemma CorrectedRun(amount: int) returns (b: Book)
    requires 0 <= amount <= 800
    ensures Run(TWO_FAMILIES, 0, CorrectedTo(amount)) == Ok(b)
    ensures b.live == map["a" := amount] && b.clock == 2 && b.current.held == 700 && b.current.revision == 1
    ensures Key(TWO_FAMILIES, "b") in b.current.families
    ensures b.current.families[Key(TWO_FAMILIES, "b")] == Family(10, Open, None)
    ensures b.current.released == 0 && b.current.maximum == 1000
  {
    hide ApplyClaim, ApplyCorrection, ApplyClose, Sound, Total, OpenReservation;
    var t, steps := TWO_FAMILIES, CorrectedTo(amount);
    OneAmount("a", 200);
    OneAmount("a", amount);
    var b0 := OpenedRun();
    RunSound(t, 0, []);
    assert Key(t, "a") in b0.current.families && Key(t, "b") in b0.current.families;
    assert steps[..1][..1 - 1] == [] && steps[..2 - 1] == steps[..1];
    assert b0.live["a" := 200] == map["a" := 200];
    ClaimExact(t, b0, "a", 200, EconomicReceiptOf("a"), 1);
    var b1 := Advance(t, b0, steps[0]).value.book;
    assert Run(t, 0, steps[..1]) == Ok(b1);
    RunSound(t, 0, steps[..1]);
    assert b1.live["a" := amount] == map["a" := amount];
    CorrectionExact(t, b1, "a", amount, 2);
    b := Advance(t, b1, steps[1]).value.book;
  }

  /** The refusal does happen: a reversal does not give back the capacity its claim consumed. */
  lemma HeldRefusalHappens()
    ensures Run(TWO_FAMILIES, 0, REVERSED).Ok?
    ensures ApplyClaim(TWO_FAMILIES, Run(TWO_FAMILIES, 0, REVERSED).value, "b", 800, EconomicReceiptOf("b"), 3)
        == Err(HeldCapacity)
  {
    hide Run, Total;
    var b := CorrectedRun(0);
    OneAmount("a", 0);
    GainsInsert(b.live, "b", 800);
    assert WithinCeilings(TWO_FAMILIES, b.live["b" := 800]);
  }

  /** The tempting bound `maximum - released` on the net amount is false: a close releases what a
      later correction may still charge. */
  lemma NetMayExceedUnreleased()
    ensures var steps := REVERSED + [Timed(CloseWindow(Authorized, 1, true), 3), Timed(Correct("a", 800), 4)];
            var r := Run(TWO_FAMILIES, 0, steps);
            r.Ok? && !WithinUnreleased(TWO_FAMILIES, r.value)
  {
    hide ApplyClaim, ApplyCorrection, ApplyClose, Sound, Total;
    var t := TWO_FAMILIES;
    var steps := REVERSED + [Timed(CloseWindow(Authorized, 1, true), 3), Timed(Correct("a", 800), 4)];
    var b := CorrectedRun(0);
    assert steps[..4 - 1][..3 - 1] == REVERSED && steps[..4 - 1] == steps[..3];
    RunSound(t, 0, REVERSED);
    CloseExact(t, b, Authorized, 1, true, 3);
    assert !Shut(b.current);
    var c := Advance(t, b, steps[2]).value.book;
    assert Run(t, 0, steps[..3]) == Ok(c);
    RunSound(t, 0, steps[..3]);
    assert c.live["a" := 800] == map["a" := 800];
    OneAmount("a", 800);
    CorrectionExact(t, c, "a", 800, 4);
    assert Advance(t, c, steps[3]) == Ok(Effect(c.(live := map["a" := 800], clock := 4), 0, 0));
    assert Run(t, 0, steps) == Ok(c.(live := map["a" := 800], clock := 4));
  }

  /** The close itself may break it: it releases what an earlier correction already charges. */
  lemma CloseMayExceedUnreleased()
    ensures Run(TWO_FAMILIES, 0, RAISED).Ok? && WithinUnreleased(TWO_FAMILIES, Run(TWO_FAMILIES, 0, RAISED).value)
    ensures var r := Run(TWO_FAMILIES, 0, RAISED + [Timed(CloseWindow(Authorized, 1, true), 3)]);
            r.Ok? && !WithinUnreleased(TWO_FAMILIES, r.value)
  {
    hide ApplyClaim, ApplyCorrection, ApplyClose, Sound, Total;
    var t, close := TWO_FAMILIES, Timed(CloseWindow(Authorized, 1, true), 3);
    var b := CorrectedRun(800);
    RunSound(t, 0, RAISED);
    CloseExact(t, b, Authorized, 1, true, 3);
    assert !Shut(b.current);
    OneAmount("a", 800);
    assert (RAISED + [close])[..2] == RAISED;
    assert Run(t, 0, RAISED + [close]) == Ok(Advance(t, b, close).value.book);
  }

  // ----- exactly when the unreleased capacity bounds the net amount -----

  /** The net amount stays within what was not released. */
  ghost predicate WithinUnreleased(t: Terms, b: Book) {
    t.baseConsumed + Total(b.live) <= b.current.maximum - b.current.released
  }

  /** The bound holds exactly until a close takes effect, and afterwards exactly while the live amounts
      do not exceed the positive parts of the first ones. */
  lemma UnreleasedExact(t: Terms, start: int, steps: seq<Timed>)
    requires Run(t, start, steps).Ok?
    ensures var b := Run(t, start, steps).value;
            WithinUnreleased(t, b) <==>
              (CloseTookEffect(t, b.current) ==> Total(b.live) <= Total(Gains(FirstAmounts(steps))))
  {
    hide Run, FamiliesOk, Total, Gains, FirstAmounts, StateCheck, AnyWith;
    RunSound(t, start, steps);
    WholeRunAccounting(t, start, steps);
    NetBound(t, start, steps);
  }

  /** After a close that took effect, a correction keeps the bound exactly when the live amounts it
      leaves do not exceed what was consumed. */
  lemma CorrectionWithinExact(t: Terms, start: int, steps: seq<Timed>, f: string, amount: int, now: int)
    requires Run(t, start, steps).Ok? && CloseTookEffect(t, Run(t, start, steps).value.current)
    requires ApplyCorrection(t, Run(t, start, steps).value, f, amount, now).Ok?
    ensures var b := Run(t, start, steps).value;
            && f in b.live
            && (WithinUnreleased(t, ApplyCorrection(t, b, f, amount, now).value.book) <==>
                  Total(b.live) - b.live[f] + amount <= b.current.consumed - t.baseConsumed)
  {
    hide Run, FamiliesOk, Total, Gains, ApplyCorrection, AnyWith;
    var b := Run(t, start, steps).value;
    RunSound(t, start, steps);
    CorrectionSound(t, b, f, amount, now);
    TotalInsert(b.live, f, amount);
  }

  /** A close that takes effect keeps the bound exactly when the live amounts it finds do not exceed what
      was consumed. */
  lemma CloseWithinExact(t: Terms, start: int, steps: seq<Timed>, reason: Reason, expected: int, early: bool,
          now: int)
    requires Run(t, start, steps).Ok? && !Shut(Run(t, start, steps).value.current)
    requires ApplyClose(Run(t, start, steps).value, reason, expected, early, now).Ok?
    ensures var b := Run(t, start, steps).value;
            && WithinUnreleased(t, b)
            && (WithinUnreleased(t, ApplyClose(b, reason, expected, early, now).value.book) <==>
                  Total(b.live) <= b.current.consumed - t.baseConsumed)
  {
    hide Run, FamiliesOk, Total, Gains, ApplyClose, AnyWith;
    var b := Run(t, start, steps).value;
    RunSound(t, start, steps);
    CloseSound(t, b, reason, expected, early, now);
    UnshutWithin(t, start, steps);
  }

  /** Before a close takes effect the bound holds. */
  lemma UnshutWithin(t: Terms, start: int, steps: seq<Timed>)
    requires Run(t, start, steps).Ok? && !Shut(Run(t, start, steps).value.current)
    ensures WithinUnreleased(t, Run(t, start, steps).value)
  {
    hide Run, FamiliesOk, Total, Gains, FirstAmounts;
    RunSound(t, start, steps);
    UnreleasedExact(t, start, steps);
  }

  /** A correction that charges a family more than the positive part of its first amount. */
  ghost predicate Raises(first: map<string, int>, a: Action) {
    a.Correct? && a.family in first && Gain(first[a.family]) < a.amount
  }

  /** Some correction of the run raised a family above its first amount. */
  ghost predicate EverRaised(steps: seq<Timed>) {
    steps != []
    && var n := |steps| - 1;
    EverRaised(steps[..n]) || Raises(FirstAmounts(steps[..n]), steps[n].action)
  }

  /** Some close of the run took effect. */
  ghost predicate EverShut(t: Terms, start: int, steps: seq<Timed>)
    requires Run(t, start, steps).Ok?
    decreases |steps|
  {
    steps != []
    && var n := |steps| - 1;
    EverShut(t, start, steps[..n]) || (steps[n].action.CloseWindow? && !Shut(Run(t, start, steps[..n]).value.current))
  }

  lemma ApplyTakesEffect(t: Terms, b: Book, a: Action, now: int)
    requires Sound(t, b) && Apply(t, b, a, now).Ok?
    ensures CloseTookEffect(t, Apply(t, b, a, now).value.book.current)
       <==> CloseTookEffect(t, b.current) || (a.CloseWindow? && !Shut(b.current))
  {
    hide ApplyClaim, ApplyCorrection, ApplyClose, Sound;
    match a
    case Claim(f, amount, receipt) =>
      ClaimSound(t, b, f, amount, receipt, now);
      SoundParts(t, b);
      OpenUnclosed(t, b.current, b.live);
      ClaimTakesNoEffect(b.current, Key(t, f), ClaimedState(t, b.current, f, Gain(amount), receipt));
    case Correct(f, amount) => CorrectionSound(t, b, f, amount, now);
    case CloseWindow(reason, revision, early) =>
      CloseSound(t, b, reason, revision, early, now);
      if !Shut(b.current) {
        SoundParts(t, b);
        CloseTakesEffect(t, b.current, b.live);
      }
  }

  lemma OpenUnclosed(t: Terms, s: State, live: map<string, int>)
    requires CapacityOk(t, s, live) && AnyWith(s, Open)
    ensures !CloseTookEffect(t, s)
  {
  }

  lemma ClaimTakesNoEffect(s: State, k: FamilyKey, s': State)
    requires !AnyWith(s, Closed) && k in s'.families && s'.families.Keys == s.families.Keys
    requires s'.families[k].status.Claimed? && forall x :: x in s.families && x != k ==> s'.families[x] == s.families[x]
    ensures !AnyWith(s', Closed)
  {
  }

  lemma CloseTakesEffect(t: Terms, s: State, live: map<string, int>)
    requires CapacityOk(t, s, live) && !Shut(s)
    ensures CloseTookEffect(t, AfterClose(s))
  {
    hide WithinCeilings;
    if s.held == 0 {
      var k :| k in s.families && s.families[k].status.Open?;
      assert AfterClose(s).families[k].status.Closed?;
    }
  }

  /** A close has taken effect exactly when some close step of the run found something to do. */
  lemma {:induction false} EffectIsClose(t: Terms, start: int, steps: seq<Timed>)
    requires Run(t, start, steps).Ok?
    ensures CloseTookEffect(t, Run(t, start, steps).value.current) <==> EverShut(t, start, steps)
  {
    hide Apply, Advance, Sound, Shut, CloseTookEffect;
    if steps == [] {
      OpenedUnclosed(t, start);
    } else {
      var n := |steps| - 1;
      LastStep(t, start, steps);
      EffectIsClose(t, start, steps[..n]);
      ApplyTakesEffect(t, Run(t, start, steps[..n]).value, steps[n].action, steps[n].at);
    }
  }

  lemma OpenedUnclosed(t: Terms, start: int)
    requires Run(t, start, []).Ok?
    ensures !CloseTookEffect(t, Run(t, start, []).value.current)
  {
  }

  ghost predicate LiveWithinFirst(first: map<string, int>, live: map<string, int>) {
    first.Keys == live.Keys && forall f :: f in live ==> live[f] <= Gain(first[f])
  }

  lemma LiveWithinFirstStep(t: Terms, b: Book, a: Action, now: int, first: map<string, int>)
    requires Sound(t, b) && Apply(t, b, a, now).Ok? && LiveWithinFirst(first, b.live) && !Raises(first, a)
    ensures LiveWithinFirst(FirstAfter(first, a), Apply(t, b, a, now).value.book.live)
  {
    hide ApplyClaim, ApplyCorrection, ApplyClose, Sound;
    match a
    case Claim(f, amount, receipt) => ClaimSound(t, b, f, amount, receipt, now);
    case Correct(f, amount) => CorrectionSound(t, b, f, amount, now);
    case CloseWindow(reason, revision, early) => CloseSound(t, b, reason, revision, early, now);
  }

  lemma {:induction false} UnraisedRun(t: Terms, start: int, steps: seq<Timed>)
    requires Run(t, start, steps).Ok? && !EverRaised(steps)
    ensures LiveWithinFirst(FirstAmounts(steps), Run(t, start, steps).value.live)
  {
    hide Apply, Advance, Sound, LiveWithinFirst, Raises;
    if steps == [] {
      assert LiveWithinFirst(FirstAmounts(steps), Run(t, start, steps).value.live) by { NothingLive(t, start); }
    } else {
      var n := |steps| - 1;
      LastStep(t, start, steps);
      UnraisedRun(t, start, steps[..n]);
      LiveWithinFirstStep(t, Run(t, start, steps[..n]).value, steps[n].action, steps[n].at, FirstAmounts(steps[..n]));
    }
  }

  lemma NothingLive(t: Terms, start: int)
    requires Run(t, start, []).Ok?
    ensures LiveWithinFirst(FirstAmounts([]), Run(t, start, []).value.live)
  {
  }

  /** The bound is exceeded only in a run in which a close took effect and some correction raised a
      family above its first amount. */
  lemma ExceedingNeedsRaising(t: Terms, start: int, steps: seq<Timed>)
    requires Run(t, start, steps).Ok? && !WithinUnreleased(t, Run(t, start, steps).value)
    ensures EverShut(t, start, steps) && EverRaised(steps)
  {
    hide Run, FirstAmounts, EverRaised, EverShut, Total, CloseTookEffect, WithinUnreleased;
    UnreleasedExact(t, start, steps);
    EffectIsClose(t, start, steps);
    if !EverRaised(steps) {
      UnraisedRun(t, start, steps);
      TotalMonotone(Run(t, start, steps).value.live, Gains(FirstAmounts(steps)));
      assert false;
    }
  }

  // ----- a close is final -----

  lemma ShutStays(t: Terms, b: Book, a: Action, now: int)
    requires Sound(t, b) && Shut(b.current) && Apply(t, b, a, now).Ok?
    ensures Apply(t, b, a, now).value.book.current == b.current && !a.Claim?
  {
    hide ApplyClaim, ApplyCorrection, ApplyClose, Sound;
    match a
    case Claim(f, amount, receipt) => ClaimSound(t, b, f, amount, receipt, now);
    case Correct(f, amount) => CorrectionSound(t, b, f, amount, now);
    case CloseWindow(reason, revision, early) => CloseSound(t, b, reason, revision, early, now);
  }

  /** After an accepted close no step changes the state, and no ordinary claim is accepted. */
  lemma {:induction false} CloseIsFinal(t: Terms, start: int, steps: seq<Timed>, i: nat)
    requires i < |steps| && steps[i].action.CloseWindow? && Run(t, start, steps).Ok?
    ensures Run(t, start, steps[..i + 1]).Ok?
    ensures Shut(Run(t, start, steps).value.current)
    ensures Run(t, start, steps).value.current == Run(t, start, steps[..i + 1]).value.current
    ensures forall j :: i < j < |steps| ==> !steps[j].action.Claim?
  {
    hide ApplyClaim, ApplyCorrection, ApplyClose, Sound, Shut;
    var n := |steps| - 1;
    LastStep(t, start, steps);
    var b := Run(t, start, steps[..n]).value;
    if i == n {
      assert steps[..i + 1] == steps;
      var a := steps[i].action;
      CloseSound(t, b, a.reason, a.expectedRevision, a.earlyAuthorized, steps[i].at);
    } else {
      assert steps[..n][..i + 1] == steps[..i + 1];
      CloseIsFinal(t, start, steps[..n], i);
      ShutStays(t, b, steps[n].action, steps[n].at);
    }
  }

  lemma {:induction false} TimeOrdered(t: Terms, start: int, steps: seq<Timed>, i: nat)
    requires i < |steps| && Run(t, start, steps).Ok?
    ensures steps[i].at <= Run(t, start, steps).value.clock
  {
    hide Sound, Advance, Apply;
    var n := |steps| - 1;
    LastStep(t, start, steps);
    if i < n {
      TimeOrdered(t, start, steps[..n], i);
    }
  }

  /** A deadline close comes after every family's own deadline, so no ordinary claim that is merely
      late to arrive is foreclosed: none could still have met its deadline. */
  lemma DeadlineCloseForeclosesNothing(t: Terms, start: int, steps: seq<Timed>, i: nat, f: string, later: int)
    requires i < |steps| && Run(t, start, steps).Ok?
    requires steps[i].action.CloseWindow? && steps[i].action.reason.Deadline?
    requires f in t.families && Run(t, start, steps).value.clock <= later
    ensures t.families[f] < later
  {
    hide Sound, ApplyClose, Run;
    TimeOrdered(t, start, steps, i);
    PrefixRuns(t, start, steps, i + 1);
    LastStep(t, start, steps[..i + 1]);
    assert steps[..i + 1][..i] == steps[..i];
    var b, a := Run(t, start, steps[..i]).value, steps[i].action;
    CloseSound(t, b, a.reason, a.expectedRevision, a.earlyAuthorized, steps[i].at);
    SoundParts(t, b);
    assert FamilyOk(t, b, f);
  }

  /** At most one revision per family and one for the close, so the revision limit is out of reach. */
  lemma RevisionBound(t: Terms, start: int, steps: seq<Timed>)
    requires Run(t, start, steps).Ok?
    ensures Run(t, start, steps).value.current.revision <= |t.families| + 1
  {
    hide Run;
    RunSound(t, start, steps);
    LiveBound(t, Run(t, start, steps).value);
  }

  lemma RevisionNeverExhausted(t: Terms, start: int, steps: seq<Timed>, next: Timed)
    requires Run(t, start, steps).Ok? && |t.families| < MAX_REVISION
    ensures Advance(t, Run(t, start, steps).value, next) != Err(RevisionExhausted)
  {
    hide ApplyClaim, ApplyCorrection, ApplyClose, Sound, Run;
    var b := Run(t, start, steps).value;
    RunSound(t, start, steps);
    match next.action
    case Claim(f, amount, receipt) => ClaimExact(t, b, f, amount, receipt, next.at);
    case Correct(f, amount) => CorrectionExact(t, b, f, amount, next.at);
    case CloseWindow(reason, revision, early) => CloseExact(t, b, reason, revision, early, next.at);
  }
}
