/** Every accepted history performs a run of the capacity machine, so it has all the machine's
    whole-run properties. */
module AcceptedHistories {
  import opened Wrappers
  import opened Records
  import opened Sums
  import opened Capacity
  import opened Accounting
  import opened Journal
  import opened Registry
  import opened Exactness
  import opened Completeness
  import opened Histories
  import opened Finality
  import opened Replays

  function Or<T>(o: Option<T>, default: T): T {
    match o
    case None => default
    case Some(x) => x
  }

  /** The capacity action behind a step after registration. */
  function ActionOf(h: History, s: HistoryStep, input: Input): Action {
    var family, amount, close := Or(s.family, ""), Or(s.amount, 0), Or(input.close, CloseDetail(Deadline, 0));
    match s.kind
    case OrdinaryKind => Claim(family, amount, EconomicOf(h, s.id))
    case PostHocKind => Correct(family, amount)
    case _ => CloseWindow(close.reason, close.expectedRevision, s.earlyAuthorized)
  }

  function ActionAt(h: History, steps: seq<VectorStep>, i: nat): Timed
    requires i + 1 < |steps| <= |h.steps|
  {
    Timed(ActionOf(h, h.steps[i + 1], InputOf(steps[i + 1])), InputOf(steps[i + 1]).acceptedAt)
  }

  /** The timed actions of a history after its registration. */
  function Actions(h: History, steps: seq<VectorStep>): seq<Timed>
    requires 0 < |steps| <= |h.steps|
  {
    seq(|steps| - 1, i requires 0 <= i < |steps| - 1 => ActionAt(h, steps, i))
  }

  lemma DecisionIsAction(h: History, b: Book, s: HistoryStep, input: Input, command: Command, now: int)
    requires CommandFor(h, s, input) == Some(command) && !s.kind.RegisterKind? && b.clock <= now
    requires Decide(h, b, s, command, now).Ok?
    ensures Advance(h.terms, b, Timed(ActionOf(h, s, input), now)) == Decide(h, b, s, command, now)
  {
    hide ApplyClaim, ApplyCorrection, ApplyClose;
  }

  lemma DecisionClock(h: History, b: Book, s: HistoryStep, command: Command, now: int)
    requires Sound(h.terms, b) && Decide(h, b, s, command, now).Ok? && !command.Register?
    ensures Decide(h, b, s, command, now).value.book.clock == now
  {
    hide ApplyClaim, ApplyCorrection, ApplyClose, Sound;
    match command
    case Ordinary(_, _, _, _, _) => ClaimSound(h.terms, b, s.family.value, s.amount.value, EconomicOf(h, s.id), now);
    case PostHoc(_, _, _, _, _) => CorrectionSound(h.terms, b, s.family.value, s.amount.value, now);
    case Close(_, _, _, reason, expected) => CloseSound(h.terms, b, reason, expected, s.earlyAuthorized, now);
  }

  /** A later step advances the book by its action. */
  lemma StepAdvances(h: History, sizes: Sizes, j: Ledger, s: HistoryStep, step: VectorStep)
    requires LedgerOk(h, j) && j.book.Some? && Accept(h, sizes, j, s, step).Ok?
    ensures var r := Advance(h.terms, j.book.value, Timed(ActionOf(h, s, InputOf(step)), InputOf(step).acceptedAt));
            r.Ok? && Accept(h, sizes, j, s, step).value.book == Some(r.value.book)
  {
    hide Accept, Advance, Decide, CommandFor, InputOf, Ready, RowMentions, RowKeys, ReferenceTo, LedgerOk,
         StoredOf, StepRows, Sound, ReceiptsOk, StateSchema, StateCheck, SortedPermissions, TermsInSchema,
         ActionOf;
    ReadyOf(h, sizes, j, s, step);
    var input := InputOf(step);
    var command, b := CommandFor(h, s, input).value, StartOf(h, j, input).value;
    var e := Decide(h, b, s, command, input.acceptedAt).value;
    ReadyParts(h, j, s, input, command, b, e);
    ReadySound(h, j, s, input, command, b, e);
    CommandShape(h, s, input);
    DecisionIsAction(h, b, s, input, command, input.acceptedAt);
    DecisionClock(h, b, s, command, input.acceptedAt);
  }

  /** The first step opens the reservation. */
  lemma FirstOpens(h: History, sizes: Sizes, s: HistoryStep, step: VectorStep)
    requires LedgerOk(h, EMPTY) && Accept(h, sizes, EMPTY, s, step).Ok?
    ensures var r := OpenReservation(h.terms, InputOf(step).acceptedAt);
            r.Ok? && Accept(h, sizes, EMPTY, s, step).value.book == Some(r.value)
  {
    hide Accept, CommandFor, InputOf, Ready, RowMentions, RowKeys, ReferenceTo, LedgerOk, StoredOf, StepRows,
         Sound, ReceiptsOk, StateSchema, StateCheck, SortedPermissions, TermsInSchema, ApplyClaim,
         ApplyCorrection, ApplyClose;
    ReadyOf(h, sizes, EMPTY, s, step);
    var input := InputOf(step);
    var command, b := CommandFor(h, s, input).value, StartOf(h, EMPTY, input).value;
    var e := Decide(h, b, s, command, input.acceptedAt).value;
    ReadyParts(h, EMPTY, s, input, command, b, e);
    CommandShape(h, s, input);
  }

  /** The audit refines the capacity machine: its head is the machine's run of the observed actions. */
  lemma {:induction false} AuditIsRun(h: History, sizes: Sizes, steps: seq<VectorStep>)
    requires steps != [] && AuditSteps(h, sizes, steps).Ok?
    ensures |steps| <= |h.steps|
    ensures var r := Run(h.terms, InputOf(steps[0]).acceptedAt, Actions(h, steps));
            r.Ok? && AuditSteps(h, sizes, steps).value.book == Some(r.value)
  {
    hide Accept, LedgerOk, Advance, InputOf, ActionOf, OpenReservation;
    var n := |steps| - 1;
    AuditSound(h, sizes, steps[..n]);
    if n == 0 {
      assert Actions(h, steps) == [] && steps[..0] == [];
      FirstOpens(h, sizes, h.steps[0], steps[0]);
    } else {
      AuditIsRun(h, sizes, steps[..n]);
      StepAdvances(h, sizes, AuditSteps(h, sizes, steps[..n]).value, h.steps[n], steps[n]);
      var actions := Actions(h, steps);
      assert |actions| == n && actions[n - 1] == ActionAt(h, steps, n - 1);
      forall i | 0 <= i < n - 1
        ensures actions[..n - 1][i] == Actions(h, steps[..n])[i]
      {
        assert steps[..n][i + 1] == steps[i + 1];
      }
      assert actions[..n - 1] == Actions(h, steps[..n]);
      assert steps[..n][0] == steps[0];
    }
  }

  /** Accounting, the net bound, the revision bound and the length bound of any accepted history. */
  lemma AcceptedHistory(h: History, sizes: Sizes, v: Vector)
    requires Audit(h, sizes, v).Ok? && v.steps != []
    ensures |v.steps| <= |h.steps| && Audit(h, sizes, v).value.book.Some?
    ensures var b := Audit(h, sizes, v).value.book.value; var s := b.current;
            && s.maximum == h.terms.maximum == s.consumed + s.held + s.released
            && s.consumed == h.terms.baseConsumed + Total(Gains(FirstAmounts(Actions(h, v.steps))))
            && 0 <= h.terms.baseConsumed + Total(b.live) <= h.terms.maximum - h.terms.baseReleased
            && s.revision <= |h.terms.families| + 1
            && |h.steps| <= MAX_STEPS
  {
    hide AuditSteps, Run, Actions, FirstAmounts, Total, Gains, StateCheck;
    AuditIsRun(h, sizes, v.steps);
    var start, actions := InputOf(v.steps[0]).acceptedAt, Actions(h, v.steps);
    WholeRunAccounting(h.terms, start, actions);
    NetBound(h.terms, start, actions);
    RunSound(h.terms, start, actions);
    LiveBound(h.terms, Run(h.terms, start, actions).value);
    HistoryBound(h, sizes, v.steps);
  }

  // ----- the machine's other theorems, of accepted histories -----

  lemma PrefixActions(h: History, steps: seq<VectorStep>, i: nat)
    requires 0 < i <= |steps| <= |h.steps|
    ensures Actions(h, steps[..i]) == Actions(h, steps)[..i - 1]
  {
    hide ActionAt;
    forall k | 0 <= k < i - 1 ensures Actions(h, steps[..i])[k] == Actions(h, steps)[k] {
      assert steps[..i][k + 1] == steps[k + 1];
      SameAction(h, steps, i, k);
    }
  }

  lemma SameAction(h: History, steps: seq<VectorStep>, i: nat, k: nat)
    requires k + 1 < i <= |steps| <= |h.steps|
    ensures ActionAt(h, steps[..i], k) == ActionAt(h, steps, k)
  {
  }

  /** The book of an accepted history at its end and after its first `i` steps. */
  lemma PrefixBooks(h: History, sizes: Sizes, steps: seq<VectorStep>, i: nat)
    requires 0 < i <= |steps| && AuditSteps(h, sizes, steps).Ok?
    ensures |steps| <= |h.steps| && AuditSteps(h, sizes, steps[..i]).Ok?
    ensures var start, actions := InputOf(steps[0]).acceptedAt, Actions(h, steps);
            && Run(h.terms, start, actions).Ok? && Run(h.terms, start, actions[..i - 1]).Ok?
            && AuditSteps(h, sizes, steps).value.book == Some(Run(h.terms, start, actions).value)
            && AuditSteps(h, sizes, steps[..i]).value.book == Some(Run(h.terms, start, actions[..i - 1]).value)
  {
    hide AuditSteps, Run, Actions, InputOf;
    AuditPrefix(h, sizes, steps, i);
    AuditIsRun(h, sizes, steps);
    AuditIsRun(h, sizes, steps[..i]);
    PrefixActions(h, steps, i);
    assert steps[..i][0] == steps[0];
  }

  /** Between any two points of an accepted history the maximum is constant, consumed and released never
      fall, and held never rises. */
  lemma AcceptedMonotone(h: History, sizes: Sizes, steps: seq<VectorStep>, i: nat)
    requires 0 < i <= |steps| && AuditSteps(h, sizes, steps).Ok?
    ensures AuditSteps(h, sizes, steps[..i]).Ok? && AuditSteps(h, sizes, steps[..i]).value.book.Some?
    ensures AuditSteps(h, sizes, steps).value.book.Some?
    ensures NoLater(AuditSteps(h, sizes, steps[..i]).value.book.value.current,
                    AuditSteps(h, sizes, steps).value.book.value.current)
  {
    hide AuditSteps, Run, Actions, InputOf, NoLater;
    PrefixBooks(h, sizes, steps, i);
    ActionCount(h, steps);
    CapacityMonotone(h.terms, InputOf(steps[0]).acceptedAt, Actions(h, steps), i - 1);
  }

  lemma KindOfAction(h: History, steps: seq<VectorStep>, k: nat)
    requires k + 1 < |steps| <= |h.steps|
    ensures Actions(h, steps)[k].action.Claim? <==> h.steps[k + 1].kind.OrdinaryKind?
    ensures h.steps[k + 1].kind.CloseKind? ==> Actions(h, steps)[k].action.CloseWindow?
  {
  }

  /** Once a close is accepted, no later step of the history changes the state or is an ordinary claim. */
  lemma AcceptedCloseIsFinal(h: History, sizes: Sizes, steps: seq<VectorStep>, i: nat)
    requires 0 < i < |steps| && AuditSteps(h, sizes, steps).Ok?
    requires |steps| <= |h.steps| && h.steps[i].kind.CloseKind?
    ensures AuditSteps(h, sizes, steps[..i + 1]).Ok? && AuditSteps(h, sizes, steps[..i + 1]).value.book.Some?
    ensures AuditSteps(h, sizes, steps).value.book.Some?
    ensures var end := AuditSteps(h, sizes, steps).value.book.value.current;
            Shut(end) && end == AuditSteps(h, sizes, steps[..i + 1]).value.book.value.current
    ensures forall k :: i < k < |steps| ==> !h.steps[k].kind.OrdinaryKind?
  {
    hide AuditSteps, Run, Actions, InputOf, Shut;
    PrefixBooks(h, sizes, steps, i + 1);
    KindOfAction(h, steps, i - 1);
    var actions := Actions(h, steps);
    ActionCount(h, steps);
    CloseIsFinal(h.terms, InputOf(steps[0]).acceptedAt, actions, i - 1);
    forall k | i < k < |steps| ensures !h.steps[k].kind.OrdinaryKind? {
      KindOfAction(h, steps, k - 1);
      assert !actions[k - 1].action.Claim?;
    }
  }

  lemma ActionCount(h: History, steps: seq<VectorStep>)
    requires 0 < |steps| <= |h.steps|
    ensures |Actions(h, steps)| == |steps| - 1
  {
  }

  lemma OnlyClaimsMeetHeld(h: History, b: Book, s: HistoryStep, command: Command, now: int)
    requires Decide(h, b, s, command, now) == Err(HeldCapacity)
    ensures s.family.Some? && s.amount.Some?
    ensures ApplyClaim(h.terms, b, s.family.value, s.amount.value, EconomicOf(h, s.id), now) == Err(HeldCapacity)
  {
    hide ApplyClaim, WithinCeilings, CloseAll;
  }

  /** Some correction of the history lowered a claimed positive amount. */
  ghost predicate Lowered(h: History, steps: seq<VectorStep>)
    requires 0 < |steps| <= |h.steps|
  {
    var start, actions := InputOf(steps[0]).acceptedAt, Actions(h, steps);
    Run(h.terms, start, actions).Ok? && EverLowered(h.terms, start, actions)
  }

  /** After an accepted history, held capacity refuses a step only if some correction of that history
      lowered a claimed positive amount. */
  lemma AcceptedHeldRefusal(h: History, sizes: Sizes, steps: seq<VectorStep>, s: HistoryStep, command: Command,
          now: int)
    requires 0 < |steps| <= |h.steps| && AuditSteps(h, sizes, steps).Ok?
    requires var book := AuditSteps(h, sizes, steps).value.book;
             book.Some? && Decide(h, book.value, s, command, now) == Err(HeldCapacity)
    ensures Lowered(h, steps)
  {
    hide AuditSteps, Run, Actions, InputOf, ApplyClaim, Decide, EverLowered;
    AuditIsRun(h, sizes, steps);
    OnlyClaimsMeetHeld(h, AuditSteps(h, sizes, steps).value.book.value, s, command, now);
    HeldRefusalNeedsLowering(h.terms, InputOf(steps[0]).acceptedAt, Actions(h, steps), s.family.value, s.amount.value,
                             EconomicOf(h, s.id), now);
  }

  /** Some close of the history took effect and some correction raised a family above its first amount. */
  ghost predicate ShutAndRaised(h: History, steps: seq<VectorStep>)
    requires 0 < |steps| <= |h.steps|
  {
    var start, actions := InputOf(steps[0]).acceptedAt, Actions(h, steps);
    Run(h.terms, start, actions).Ok? && EverShut(h.terms, start, actions) && EverRaised(actions)
  }

  /** In an accepted history the live amounts exceed what is not released only after such a close and
      such a correction. */
  lemma AcceptedExceeding(h: History, sizes: Sizes, steps: seq<VectorStep>)
    requires 0 < |steps| <= |h.steps| && AuditSteps(h, sizes, steps).Ok?
    requires var book := AuditSteps(h, sizes, steps).value.book;
             book.Some? && !WithinUnreleased(h.terms, book.value)
    ensures ShutAndRaised(h, steps)
  {
    hide AuditSteps, Run, Actions, InputOf, EverShut, EverRaised, WithinUnreleased;
    AuditIsRun(h, sizes, steps);
    ExceedingNeedsRaising(h.terms, InputOf(steps[0]).acceptedAt, Actions(h, steps));
  }
}
