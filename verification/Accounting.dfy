/** What every accepted run of the capacity machine keeps: the agreement of its tables, conservation,
    the accounting of consumed capacity, and the net bound; and exactly when each action is accepted. */
module Accounting {
  import opened Wrappers
  import opened Records
  import opened Sums
  import opened Capacity

  ghost predicate TermsOk(t: Terms) {
    && Atoms(t.maximum) && Atoms(t.baseConsumed) && Atoms(t.baseReleased) && Atoms(t.premiumCeiling)
    && t.premiumCeiling <= t.maximum - t.baseConsumed - t.baseReleased
  }

  /** The family table, the live amounts and the first receipts tell one story about family `f`. */
  ghost predicate FamilyOk(t: Terms, b: Book, f: string)
    requires f in t.families
  {
    && Key(t, f) in b.current.families
    && var family := b.current.families[Key(t, f)];
    && family.acceptedBy == t.families[f]
    && (family.status.Claimed? <==> f in b.live)
    && (family.status.Claimed? <==> f in b.original)
    && family.ordinaryReceipt == if f in b.original then Some(b.original[f]) else None
  }

  ghost predicate AnyWith(s: State, status: Status) {
    exists k :: k in s.families && s.families[k].status == status
  }

  /** A close has taken effect: it released something or closed some family. */
  ghost predicate CloseTookEffect(t: Terms, s: State) {
    s.released != t.baseReleased || AnyWith(s, Closed)
  }

  /** Nothing is left for a close to do. */
  ghost predicate Shut(s: State) {
    s.held == 0 && !AnyWith(s, Open)
  }

  ghost predicate FamiliesOk(t: Terms, b: Book) {
    && (forall f :: f in t.families ==> FamilyOk(t, b, f))
    && (forall k :: k in b.current.families ==> k.familyId in t.families && k == Key(t, k.familyId))
    && b.live.Keys <= t.families.Keys && b.original.Keys == b.live.Keys
  }

  ghost predicate CapacityOk(t: Terms, s: State, live: map<string, int>) {
    && s.maximum == t.maximum == s.consumed + s.held + s.released
    && t.baseConsumed <= s.consumed && 0 <= s.held && t.baseReleased <= s.released
    && WithinCeilings(t, live)
    && (CloseTookEffect(t, s) ==> Shut(s))
    && s.revision <= MAX_REVISION
    && s.revision == |live| + (if CloseTookEffect(t, s) then 1 else 0)
  }

  ghost predicate Sound(t: Terms, b: Book) {
    TermsOk(t) && FamiliesOk(t, b) && CapacityOk(t, b.current, b.live)
  }

  lemma SoundParts(t: Terms, b: Book)
    requires Sound(t, b)
    ensures TermsOk(t) && FamiliesOk(t, b) && CapacityOk(t, b.current, b.live)
  {
  }

  lemma RegisterSound(t: Terms, now: int)
    requires OpenReservation(t, now).Ok?
    ensures Sound(t, OpenReservation(t, now).value)
  {
    var b := OpenReservation(t, now).value;
    assert Gains(b.live) == map[] && Losses(b.live) == map[];
    forall f | f in t.families
      ensures FamilyOk(t, b, f)
    {
      assert Key(t, f) in b.current.families;
    }
  }

  lemma {:induction false} Cardinality<T>(a: set<T>, b: set<T>)
    requires a <= b
    ensures |a| <= |b|
    ensures |a| == |b| ==> a == b
  {
    if a != {} {
      var x :| x in a;
      Cardinality(a - {x}, b - {x});
    }
  }

  lemma LiveBound(t: Terms, b: Book)
    requires FamiliesOk(t, b)
    ensures |b.live| <= |t.families|
    ensures forall f :: f in t.families && f !in b.live ==> |b.live| < |t.families|
  {
    hide FamilyOk;
    Cardinality(b.live.Keys, t.families.Keys);
    forall f | f in t.families && f !in b.live
      ensures |b.live| < |t.families|
    {
      Cardinality(b.live.Keys, t.families.Keys - {f});
    }
  }

  // ----- an ordinary claim -----

  /** Every check of an ordinary claim that comes before the held-capacity check. */
  ghost predicate ReachesHeldCheck(t: Terms, b: Book, f: string, amount: int, now: int) {
    && f in t.families && Key(t, f) in b.current.families
    && -MAX_ATOMS <= amount <= MAX_ATOMS
    && WithinCeilings(t, b.live[f := amount])
    && b.current.families[Key(t, f)].status.Open?
    && now <= b.current.families[Key(t, f)].acceptedBy
  }

  function ClaimedState(t: Terms, s: State, f: string, gain: int, receipt: Reference): State
    requires Key(t, f) in s.families
  {
    var family := s.families[Key(t, f)].(status := Claimed, ordinaryReceipt := Some(receipt));
    State(s.revision + 1, s.maximum, s.consumed + gain, s.held - gain, s.released, s.families[Key(t, f) := family])
  }

  function ClaimedBook(t: Terms, b: Book, f: string, amount: int, receipt: Reference, now: int): Book
    requires Key(t, f) in b.current.families
  {
    Book(ClaimedState(t, b.current, f, Gain(amount), receipt), b.live[f := amount], b.original[f := receipt], now)
  }

  /** A claim always changes the state, so its only late refusal is the revision limit. */
  lemma ClaimOutcome(t: Terms, b: Book, f: string, amount: int, receipt: Reference, now: int)
    ensures var r := ApplyClaim(t, b, f, amount, receipt, now);
            && (r.Ok? <==> ReachesHeldCheck(t, b, f, amount, now) && Gain(amount) <= b.current.held
                           && b.current.revision < MAX_REVISION)
            && (r.Ok? ==> r.value == Effect(ClaimedBook(t, b, f, amount, receipt, now), Gain(amount), 0))
            && (r == Err(RevisionExhausted)
               ==> b.current.revision >= MAX_REVISION && ReachesHeldCheck(t, b, f, amount, now))
            && (ReachesHeldCheck(t, b, f, amount, now) && r.Err? ==>
                  r == Err(if b.current.held < Gain(amount) then HeldCapacity else RevisionExhausted))
            && (r == Err(HeldCapacity) ==> ReachesHeldCheck(t, b, f, amount, now))
  {
    hide WithinCeilings;
    var k := Key(t, f);
    if ReachesHeldCheck(t, b, f, amount, now) {
      assert ClaimedState(t, b.current, f, Gain(amount), receipt).families[k] != b.current.families[k];
    }
  }

  lemma ClaimedFamilies(t: Terms, b: Book, f: string, amount: int, receipt: Reference, now: int)
    requires FamiliesOk(t, b) && f in t.families && Key(t, f) in b.current.families
    ensures FamiliesOk(t, ClaimedBook(t, b, f, amount, receipt, now))
  {
    var b' := ClaimedBook(t, b, f, amount, receipt, now);
    forall g | g in t.families
      ensures FamilyOk(t, b', g)
    {
      assert FamilyOk(t, b, g);
    }
  }

  lemma OpenMeansUnclosed(t: Terms, b: Book, f: string)
    requires Sound(t, b) && f in t.families
    requires Key(t, f) in b.current.families && b.current.families[Key(t, f)].status.Open?
    ensures f !in b.live && b.current.revision == |b.live| < |t.families|
    ensures b.current.released == t.baseReleased && !AnyWith(b.current, Closed) && AnyWith(b.current, Open)
  {
    assert FamilyOk(t, b, f);
    assert AnyWith(b.current, Open);
    LiveBound(t, b);
  }

  lemma ClaimedCapacity(t: Terms, s: State, live: map<string, int>, f: string, amount: int, receipt: Reference)
    requires CapacityOk(t, s, live) && Key(t, f) in s.families && !CloseTookEffect(t, s)
    requires f !in live && WithinCeilings(t, live[f := amount])
    requires Gain(amount) <= s.held && s.revision < MAX_REVISION
    ensures CapacityOk(t, ClaimedState(t, s, f, Gain(amount), receipt), live[f := amount])
  {
    hide WithinCeilings;
    var s' := ClaimedState(t, s, f, Gain(amount), receipt);
    assert live[f := amount].Keys == live.Keys + {f};
    assert |live[f := amount]| == |live[f := amount].Keys|;
    assert forall k :: k in s'.families && k != Key(t, f) ==> s'.families[k] == s.families[k];
  }

  /** An accepted claim, for a sound book: what it needed and what it leaves. */
  lemma ClaimSound(t: Terms, b: Book, f: string, amount: int, receipt: Reference, now: int)
    requires Sound(t, b) && ApplyClaim(t, b, f, amount, receipt, now).Ok?
    ensures f in t.families && Key(t, f) in b.current.families && f !in b.live && AnyWith(b.current, Open)
    ensures now <= b.current.families[Key(t, f)].acceptedBy && Gain(amount) <= b.current.held
    ensures ApplyClaim(t, b, f, amount, receipt, now).value
            == Effect(ClaimedBook(t, b, f, amount, receipt, now), Gain(amount), 0)
    ensures Sound(t, ClaimedBook(t, b, f, amount, receipt, now))
  {
    ClaimOutcome(t, b, f, amount, receipt, now);
    hide ApplyClaim;
    OpenMeansUnclosed(t, b, f);
    hide FamiliesOk, CapacityOk, ClaimedState;
    ClaimedFamilies(t, b, f, amount, receipt, now);
    ClaimedCapacity(t, b.current, b.live, f, amount, receipt);
  }

  lemma ClaimExact(t: Terms, b: Book, f: string, amount: int, receipt: Reference, now: int)
    requires Sound(t, b) && |t.families| <= MAX_REVISION
    ensures ApplyClaim(t, b, f, amount, receipt, now).Ok?
            <==> ReachesHeldCheck(t, b, f, amount, now) && Gain(amount) <= b.current.held
    ensures ApplyClaim(t, b, f, amount, receipt, now).Ok?
            ==> ApplyClaim(t, b, f, amount, receipt, now).value
                == Effect(ClaimedBook(t, b, f, amount, receipt, now), Gain(amount), 0)
    ensures ApplyClaim(t, b, f, amount, receipt, now) != Err(RevisionExhausted)
  {
    ClaimOutcome(t, b, f, amount, receipt, now);
    hide ApplyClaim, Sound, WithinCeilings, ClaimedBook;
    if ReachesHeldCheck(t, b, f, amount, now) {
      OpenMeansUnclosed(t, b, f);
    }
  }

  // ----- a post-hoc correction -----

  /** Corrections need a claimed family and the economic ceilings, nothing about capacity. */
  lemma CorrectionExact(t: Terms, b: Book, f: string, amount: int, now: int)
    requires Sound(t, b)
    ensures ApplyCorrection(t, b, f, amount, now).Ok?
            <==> f in b.live && -MAX_ATOMS <= amount <= MAX_ATOMS && WithinCeilings(t, b.live[f := amount])
    ensures ApplyCorrection(t, b, f, amount, now).Ok?
            ==> ApplyCorrection(t, b, f, amount, now).value
                == Effect(b.(live := b.live[f := amount], clock := now), 0, 0)
    ensures ApplyCorrection(t, b, f, amount, now) != Err(RevisionExhausted)
  {
    hide WithinCeilings;
    if f in t.families {
      assert FamilyOk(t, b, f);
    }
  }

  lemma CorrectionSound(t: Terms, b: Book, f: string, amount: int, now: int)
    requires Sound(t, b) && ApplyCorrection(t, b, f, amount, now).Ok?
    ensures f in b.live
    ensures ApplyCorrection(t, b, f, amount, now).value == Effect(b.(live := b.live[f := amount], clock := now), 0, 0)
    ensures Sound(t, b.(live := b.live[f := amount], clock := now))
  {
    CorrectionExact(t, b, f, amount, now);
    hide ApplyCorrection, WithinCeilings, Shut, CloseTookEffect;
    var b' := b.(live := b.live[f := amount], clock := now);
    assert b'.live.Keys == b.live.Keys;
    assert |b'.live| == |b'.live.Keys| == |b.live|;
    forall g | g in t.families
      ensures FamilyOk(t, b', g)
    {
      assert FamilyOk(t, b, g);
    }
  }

  // ----- a close -----

  ghost predicate MayClose(s: State, reason: Reason, expected: int, early: bool, now: int) {
    && expected == s.revision
    && (if reason.Deadline? then forall k :: k in s.families ==> s.families[k].acceptedBy < now else early)
  }

  ghost function AfterClose(s: State): State {
    if Shut(s) then s
    else State(s.revision + 1, s.maximum, s.consumed, 0, s.released + s.held, CloseAll(s.families))
  }

  lemma SettleClose(s: State)
    ensures Settle(s, CloseAll(s.families), 0, s.held)
            == if !Shut(s) && s.revision >= MAX_REVISION then Err(RevisionExhausted) else Ok(AfterClose(s))
  {
    if Shut(s) {
      assert CloseAll(s.families) == s.families;
    } else if AnyWith(s, Open) {
      var k :| k in s.families && s.families[k].status.Open?;
      assert CloseAll(s.families)[k] != s.families[k];
    }
  }

  lemma CloseOutcome(b: Book, reason: Reason, expected: int, early: bool, now: int)
    requires 0 <= b.current.revision <= MAX_REVISION
    ensures var r := ApplyClose(b, reason, expected, early, now);
            && (r.Ok? <==> MayClose(b.current, reason, expected, early, now)
                           && (Shut(b.current) || b.current.revision < MAX_REVISION))
            && (r.Ok? ==> r.value == Effect(b.(current := AfterClose(b.current), clock := now), 0, b.current.held))
            && (r == Err(RevisionExhausted) ==> !Shut(b.current) && b.current.revision >= MAX_REVISION)
  {
    SettleClose(b.current);
    hide Settle, Shut, AfterClose, CloseAll;
  }

  lemma AfterCloseFamilies(t: Terms, b: Book, b': Book)
    requires FamiliesOk(t, b) && b'.live == b.live && b'.original == b.original
    requires b'.current == AfterClose(b.current)
    ensures FamiliesOk(t, b')
  {
    forall g | g in t.families
      ensures FamilyOk(t, b', g)
    {
      assert FamilyOk(t, b, g);
    }
  }

  lemma AfterCloseCapacity(t: Terms, s: State, live: map<string, int>)
    requires CapacityOk(t, s, live) && (!Shut(s) ==> s.revision < MAX_REVISION)
    ensures CapacityOk(t, AfterClose(s), live) && Shut(AfterClose(s))
    ensures !Shut(s) ==> !CloseTookEffect(t, s)
  {
    hide WithinCeilings;
    if !Shut(s) {
      var s' := AfterClose(s);
      assert CloseTookEffect(t, s') by {
        if s.held == 0 {
          var k :| k in s.families && s.families[k].status.Open?;
          assert s'.families[k].status.Closed?;
        }
      }
    }
  }

  lemma CloseSound(t: Terms, b: Book, reason: Reason, expected: int, early: bool, now: int)
    requires Sound(t, b) && ApplyClose(b, reason, expected, early, now).Ok?
    ensures MayClose(b.current, reason, expected, early, now)
    ensures ApplyClose(b, reason, expected, early, now).value
            == Effect(b.(current := AfterClose(b.current), clock := now), 0, b.current.held)
    ensures Sound(t, b.(current := AfterClose(b.current), clock := now)) && Shut(AfterClose(b.current))
  {
    hide ApplyClose, FamiliesOk, Shut, AfterClose, MayClose;
    assert 0 <= b.current.revision;
    CloseOutcome(b, reason, expected, early, now);
    hide CapacityOk;
    AfterCloseCapacity(t, b.current, b.live);
    AfterCloseFamilies(t, b, b.(current := AfterClose(b.current), clock := now));
  }

  lemma RevisionRoom(t: Terms, b: Book)
    requires Sound(t, b) && |t.families| < MAX_REVISION
    ensures 0 <= b.current.revision <= MAX_REVISION
    ensures !Shut(b.current) ==> b.current.revision < MAX_REVISION
  {
    LiveBound(t, b);
  }

  /** A close is accepted on the current revision alone, and moves it at most once. */
  lemma CloseExact(t: Terms, b: Book, reason: Reason, expected: int, early: bool, now: int)
    requires Sound(t, b) && |t.families| < MAX_REVISION
    ensures ApplyClose(b, reason, expected, early, now).Ok? <==> MayClose(b.current, reason, expected, early, now)
    ensures ApplyClose(b, reason, expected, early, now).Ok?
            ==> ApplyClose(b, reason, expected, early, now).value
                == Effect(b.(clock := now, current := AfterClose(b.current)), 0, b.current.held)
    ensures ApplyClose(b, reason, expected, early, now) != Err(RevisionExhausted)
  {
    hide ApplyClose, Sound, Shut, AfterClose, MayClose;
    RevisionRoom(t, b);
    CloseOutcome(b, reason, expected, early, now);
  }

  // ----- every accepted step -----

  lemma ApplySound(t: Terms, b: Book, a: Action, now: int)
    requires Sound(t, b) && Apply(t, b, a, now).Ok?
    ensures Sound(t, Apply(t, b, a, now).value.book) && Apply(t, b, a, now).value.book.clock == now
  {
    hide ApplyClaim, ApplyCorrection, ApplyClose, Sound;
    match a
    case Claim(f, amount, receipt) => ClaimSound(t, b, f, amount, receipt, now);
    case Correct(f, amount) => CorrectionSound(t, b, f, amount, now);
    case CloseWindow(reason, revision, early) => CloseSound(t, b, reason, revision, early, now);
  }

  lemma AdvanceSound(t: Terms, b: Book, step: Timed)
    requires Sound(t, b) && Advance(t, b, step).Ok?
    ensures Sound(t, Advance(t, b, step).value.book)
    ensures b.clock <= step.at == Advance(t, b, step).value.book.clock
    ensures Apply(t, b, step.action, step.at) == Advance(t, b, step)
  {
    hide Apply, Sound;
    ApplySound(t, b, step.action, step.at);
  }

  // ----- whole runs -----

  lemma {:induction false} RunSound(t: Terms, start: int, steps: seq<Timed>)
    requires Run(t, start, steps).Ok?
    ensures Sound(t, Run(t, start, steps).value)
  {
    hide Advance, Sound;
    if steps == [] {
      RegisterSound(t, start);
    } else {
      RunSound(t, start, steps[..|steps| - 1]);
      AdvanceSound(t, Run(t, start, steps[..|steps| - 1]).value, steps[|steps| - 1]);
    }
  }

  lemma {:induction false} PrefixRuns(t: Terms, start: int, steps: seq<Timed>, i: nat)
    requires i <= |steps| && Run(t, start, steps).Ok?
    ensures Run(t, start, steps[..i]).Ok?
  {
    hide Advance;
    if i == |steps| {
      assert steps[..i] == steps;
    } else {
      var n := |steps| - 1;
      assert steps[..n][..i] == steps[..i];
      PrefixRuns(t, start, steps[..n], i);
    }
  }

  /** The effect of the last step of an accepted run. */
  lemma LastStep(t: Terms, start: int, steps: seq<Timed>)
    requires steps != [] && Run(t, start, steps).Ok?
    ensures var n := |steps| - 1;
            && Run(t, start, steps[..n]).Ok?
            && var b := Run(t, start, steps[..n]).value;
            && Sound(t, b) && Apply(t, b, steps[n].action, steps[n].at).Ok?
            && Run(t, start, steps).value == Apply(t, b, steps[n].action, steps[n].at).value.book
            && Sound(t, Run(t, start, steps).value)
            && b.clock <= steps[n].at == Run(t, start, steps).value.clock
  {
    hide Advance, Apply, Sound;
    RunSound(t, start, steps[..|steps| - 1]);
    AdvanceSound(t, Run(t, start, steps[..|steps| - 1]).value, steps[|steps| - 1]);
  }

  /** Consumed and released never fall, held never rises, the maximum never moves. */
  ghost predicate NoLater(s: State, s': State) {
    && s'.maximum == s.maximum && s.consumed <= s'.consumed && s.released <= s'.released
    && s'.held <= s.held && s.revision <= s'.revision
  }

  lemma ApplyMonotone(t: Terms, b: Book, a: Action, now: int)
    requires Sound(t, b) && Apply(t, b, a, now).Ok?
    ensures NoLater(b.current, Apply(t, b, a, now).value.book.current)
  {
    hide ApplyClaim, ApplyCorrection, ApplyClose, FamiliesOk, WithinCeilings;
    match a
    case Claim(f, amount, receipt) => ClaimSound(t, b, f, amount, receipt, now);
    case Correct(f, amount) => CorrectionSound(t, b, f, amount, now);
    case CloseWindow(reason, revision, early) => CloseSound(t, b, reason, revision, early, now);
  }

  lemma {:induction false} CapacityMonotone(t: Terms, start: int, steps: seq<Timed>, i: nat)
    requires i <= |steps| && Run(t, start, steps).Ok?
    ensures Run(t, start, steps[..i]).Ok?
    ensures NoLater(Run(t, start, steps[..i]).value.current, Run(t, start, steps).value.current)
  {
    hide Advance, Apply, Sound;
    PrefixRuns(t, start, steps, i);
    if i == |steps| {
      assert steps[..i] == steps;
    } else {
      var n := |steps| - 1;
      LastStep(t, start, steps);
      assert steps[..n][..i] == steps[..i];
      CapacityMonotone(t, start, steps[..n], i);
      ApplyMonotone(t, Run(t, start, steps[..n]).value, steps[n].action, steps[n].at);
    }
  }

  /** The amount each family was first claimed at. */
  ghost function FirstAmounts(steps: seq<Timed>): map<string, int> {
    if steps == [] then map[] else FirstAfter(FirstAmounts(steps[..|steps| - 1]), steps[|steps| - 1].action)
  }

  function FirstAfter(first: map<string, int>, a: Action): map<string, int> {
    match a
    case Claim(f, amount, _) => first[f := amount]
    case _ => first
  }

  ghost function ClaimCount(steps: seq<Timed>): nat {
    if steps == [] then 0
    else ClaimCount(steps[..|steps| - 1]) + (if steps[|steps| - 1].action.Claim? then 1 else 0)
  }

  /** Consumed capacity is the base plus the positive part of each family's first amount. */
  ghost predicate Accounted(t: Terms, b: Book, first: map<string, int>) {
    b.current.consumed == t.baseConsumed + Total(Gains(first)) && first.Keys == b.live.Keys
  }

  lemma AccountClaim(t: Terms, b: Book, b': Book, f: string, amount: int, first: map<string, int>)
    requires Accounted(t, b, first) && f !in b.live
    requires b'.live == b.live[f := amount] && b'.current.consumed == b.current.consumed + Gain(amount)
    ensures Accounted(t, b', first[f := amount])
    ensures |first[f := amount]| == |first| + 1
  {
    GainsInsert(first, f, amount);
    assert first[f := amount].Keys == first.Keys + {f};
    assert |first[f := amount]| == |first[f := amount].Keys|;
  }

  lemma AccountStep(t: Terms, b: Book, a: Action, now: int, first: map<string, int>)
    requires Sound(t, b) && Apply(t, b, a, now).Ok? && Accounted(t, b, first)
    ensures Accounted(t, Apply(t, b, a, now).value.book, FirstAfter(first, a))
    ensures |FirstAfter(first, a)| == |first| + (if a.Claim? then 1 else 0)
  {
    hide ApplyClaim, ApplyCorrection, ApplyClose, Sound, Total, Gains;
    match a
    case Claim(f, amount, receipt) =>
      ClaimSound(t, b, f, amount, receipt, now);
      AccountClaim(t, b, ClaimedBook(t, b, f, amount, receipt, now), f, amount, first);
    case Correct(f, amount) =>
      CorrectionSound(t, b, f, amount, now);
      assert b.live[f := amount].Keys == b.live.Keys;
    case CloseWindow(reason, revision, early) => CloseSound(t, b, reason, revision, early, now);
  }

  /** Whole-run accounting: what is consumed is the base plus the positive part of every family's
      first amount, each family once, and the recorded state passes its own check. */
  lemma {:induction false} WholeRunAccounting(t: Terms, start: int, steps: seq<Timed>)
    requires Run(t, start, steps).Ok?
    ensures var s := Run(t, start, steps).value.current;
            && s.maximum == t.maximum == s.consumed + s.held + s.released
            && Accounted(t, Run(t, start, steps).value, FirstAmounts(steps))
            && |FirstAmounts(steps)| == ClaimCount(steps)
            && StateCheck(s) == Pass
  {
    hide Advance, Apply, Sound, StateCheck;
    RunSound(t, start, steps);
    StateCheckPasses(t, Run(t, start, steps).value);
    if steps == [] {
      assert Gains(FirstAmounts(steps)) == map[];
    } else {
      var n := |steps| - 1;
      LastStep(t, start, steps);
      WholeRunAccounting(t, start, steps[..n]);
      hide Accounted;
      AccountStep(t, Run(t, start, steps[..n]).value, steps[n].action, steps[n].at, FirstAmounts(steps[..n]));
    }
  }

  /** The state check passes exactly a state in range, conserved, whose families carry a receipt exactly when
      claimed, and names the first of the three that fails. */
  lemma StateCheckExact(s: State)
    ensures var most := 999_999_999_999_999_999_999_999_999_999;
            var ranged := 0 <= s.revision <= 9_223_372_036_854_775_807 && 0 <= s.maximum <= most
              && 0 <= s.consumed <= most && 0 <= s.held <= most && 0 <= s.released <= most;
            var conserved := s.consumed + s.held + s.released == s.maximum;
            var receipted := forall k :: k in s.families ==>
              (s.families[k].status == Claimed <==> s.families[k].ordinaryReceipt.Some?);
            && (StateCheck(s) == Pass <==> ranged && conserved && receipted)
            && (StateCheck(s) == Fail(IntegerCode) <==> !ranged)
            && (StateCheck(s) == Fail(Conservation) <==> ranged && !conserved)
            && (StateCheck(s) == Fail(FamilyReceipt) <==> ranged && conserved && !receipted)
  {
  }

  lemma StateCheckPasses(t: Terms, b: Book)
    requires Sound(t, b)
    ensures StateCheck(b.current) == Pass
    ensures b.current.maximum == t.maximum == b.current.consumed + b.current.held + b.current.released
  {
    forall k | k in b.current.families
      ensures b.current.families[k].ordinaryReceipt.Some? <==> b.current.families[k].status.Claimed?
    {
      assert FamilyOk(t, b, k.familyId);
    }
  }

  /** The invoice can neither go below nothing nor above what was not released at the base,
      even when corrections arrive after a close. */
  lemma NetBound(t: Terms, start: int, steps: seq<Timed>)
    requires Run(t, start, steps).Ok?
    ensures 0 <= t.baseConsumed + Total(Run(t, start, steps).value.live) <= t.maximum - t.baseReleased
  {
    hide Run, FamiliesOk, Total, Gains, Losses;
    RunSound(t, start, steps);
    var live := Run(t, start, steps).value.live;
    TotalSplits(live);
    PartsNonNegative(live);
  }
}
