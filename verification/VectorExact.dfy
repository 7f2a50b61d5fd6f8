/** A vector is accepted exactly when all its steps are as described. */
module VectorExact {
  import opened Wrappers
  import opened Records
  import opened Capacity
  import opened Accounting
  import opened Journal
  import opened Registry
  import opened Exactness
  import opened Completeness
  import opened Histories
  import opened Lookups
  import opened Replays
  import opened AcceptedHistories
  import opened Vectors
  import opened VectorSteps

  // ----- a step as described is accepted -----

  lemma SaidObservation(h: History, j: Ledger, s: HistoryStep, step: VectorStep)
    requires InShape(step) && ObservationSays(h, s, step.records[0])
    requires step.records[0].body.registration == j.registration && step.records[0].body.previous == j.previous
    ensures var o := step.records[0].body; var input := InputOf(step);
            && step.records[0] == ObservationFor(h, j, s, input, o.command, o.before)
            && CommandFor(h, s, input) == Some(o.command) && CommandSays(h, s, o.command)
            && input.acceptedAt == o.acceptedAt
  {
    var o := step.records[0].body;
    TrustedSame(h, s);
    AuthorityExact(h, s, o.authority);
    ClosesAsRead(step, InputOf(step));
    CommandExact(h, s, InputOf(step), o.command);
    hide CommandSays, AuthoritySays, SortedPermissions, Trusted, Economic, CommandFor;
    CommandOfStep(h, s, o.command);
  }

  lemma CommandOfStep(h: History, s: HistoryStep, c: Command)
    requires CommandSays(h, s, c)
    ensures c.source == SOURCE && c.externalId == s.id && c.Kind() == s.kind
  {
  }

  lemma SaidAdmissible(h: History, j: Ledger, s: HistoryStep, step: VectorStep)
    requires InShape(step) && ObservationSays(h, s, step.records[0])
    requires DeliveryKey(h.scope, SOURCE, s.id) !in j.deliveries && (s.kind.RegisterKind? <==> j.book.None?)
    requires j.book.Some? ==> j.book.value.clock <= step.records[0].body.acceptedAt
    requires TermsInSchema(h)
    ensures Admissible(h, j, s, InputOf(step))
  {
    var o := step.records[0].body;
    AuthorityExact(h, s, o.authority);
    CommandOfStep(h, s, o.command);
    hide CommandSays, AuthoritySays, SortedPermissions, AnchorSays, TermsInSchema;
  }

  lemma SaidTransition(h: History, step: VectorStep, before: State, e: Effect)
    requires InShape(step) && TransitionSays(h, step) && step.records[0].body.before == before
    requires ReceiptOf(step).body.result == e.book.current
    requires e.consume == e.book.current.consumed - before.consumed
    requires e.release == e.book.current.released - before.released
    ensures |step.records| == 3 <==> e.book.current != before
    ensures |step.records| == 3 ==> step.records[1] == TransitionFor(h, step.records[0], before, e)
  {
  }

  lemma SaidReceipt(h: History, steps: seq<VectorStep>, n: nat, j: Ledger, e: Effect)
    requires n < |steps| <= |h.steps| && forall k :: 0 <= k <= n ==> InShape(steps[k])
    requires ReceiptSays(h, steps, n) && j.prior == ClosureAfter(h, steps[..n])
    requires ReceiptOf(steps[n]).body.result == e.book.current
    ensures var rows := steps[n].records;
            && ReceiptOf(steps[n])
               == ReceiptFor(h, j, h.steps[n], rows[0].body.command, rows[..|rows| - 1], e)
            && |ReceiptOf(steps[n]).body.replay| <= MAX_REPLAY
  {
    hide ClosureAfter, External, RowReferences, Carried;
    CarriedIsReplay(h, steps, n);
    TrustedSame(h, h.steps[n]);
  }

  /** The described rows are the written ones. */
  lemma SaidRows(h: History, steps: seq<VectorStep>, n: nat, j: Ledger, b: Book, e: Effect)
    requires n < |steps| <= |h.steps| && forall k :: 0 <= k <= n ==> InShape(steps[k])
    requires RowsSay(h, steps, n) && j.prior == ClosureAfter(h, steps[..n])
    requires var o := steps[n].records[0].body;
             o.registration == j.registration && o.previous == j.previous && o.before == b.current
    requires ReceiptOf(steps[n]).body.result == e.book.current
    requires e.consume == e.book.current.consumed - b.current.consumed
    requires e.release == e.book.current.released - b.current.released
    ensures var input, o := InputOf(steps[n]), steps[n].records[0].body;
            steps[n].records == StepRows(h, j, h.steps[n], input, o.command, b.current, e)
    ensures |ReceiptOf(steps[n]).body.replay| <= MAX_REPLAY
  {
    hide ObservationSays, TransitionSays, ReceiptSays, InputOf, ObservationFor, TransitionFor, ReceiptFor, ClosureAfter;
    var rows := steps[n].records;
    SaidObservation(h, j, h.steps[n], steps[n]);
    SaidTransition(h, steps[n], b.current, e);
    SaidReceipt(h, steps, n, j, e);
    var last := |rows| - 1;
    assert rows[..last] == if last == 1 then [rows[0]] else [rows[0], rows[1]];
    assert rows == rows[..last] + [rows[last]];
  }

  /** The audit starts the step where the description says. */
  lemma SaidPlace(h: History, sizes: Sizes, steps: seq<VectorStep>, n: nat)
    requires n < |steps| <= |h.steps| && AuditSteps(h, sizes, steps[..n]).Ok? && PlaceSays(h, steps, n)
    ensures var j, input := AuditSteps(h, sizes, steps[..n]).value, InputOf(steps[n]);
            var o := steps[n].records[0].body;
            && TermsInSchema(h) && (h.steps[n].kind.RegisterKind? <==> j.book.None?)
            && (j.book.Some? ==> j.book.value.clock <= o.acceptedAt)
            && StartOf(h, j, input).Ok? && StartOf(h, j, input).value.current == o.before
            && o.registration == j.registration && o.previous == j.previous
  {
    var j, step := AuditSteps(h, sizes, steps[..n]).value, steps[n];
    AuditSound(h, sizes, steps[..n]);
    AuditHead(h, sizes, steps[..n]);
    hide AuditSteps, InputOf, LedgerOk, TermsSay, OpeningSays, TermsInSchema, OpenReservation, BaseState;
    AcceptanceTime(step);
    if n == 0 {
      OpeningExact(h, step.records[0].body.before, step.records[0].body.acceptedAt);
    } else {
      assert steps[..n][0] == steps[0];
      LedgerTerms(h, j);
    }
  }

  /** The machine decides as the result says. */
  lemma SaidDecision(h: History, sizes: Sizes, steps: seq<VectorStep>, n: nat)
    requires n < |steps| <= |h.steps| && AuditSteps(h, sizes, steps[..n]).Ok?
    requires RowsSay(h, steps, n) && PlaceSays(h, steps, n) && ResultSays(h, steps, n)
    ensures var j, o := AuditSteps(h, sizes, steps[..n]).value, steps[n].records[0].body;
            && StartOf(h, j, InputOf(steps[n])).Ok?
            && var decision := Decide(h, StartOf(h, j, InputOf(steps[n])).value, h.steps[n], o.command, o.acceptedAt);
               decision.Ok? && decision.value.book.current == ReceiptOf(steps[n]).body.result
  {
    SaidPlace(h, sizes, steps, n);
    AcceptanceTime(steps[n]);
    if n == 0 {
      FirstDecides(h, steps);
      hide Decide, OpenReservation, RowsSay, PlaceSays, ResultSays, InputOf;
      assert steps[..0] == [];
    } else {
      SaidCommand(h, steps, n);
      NextDecides(h, sizes, steps, n);
      hide AuditSteps, Decide, RowsSay, PlaceSays, ResultSays, InputOf;
    }
  }

  lemma SaidCommand(h: History, steps: seq<VectorStep>, n: nat)
    requires n < |steps| <= |h.steps| && RowsSay(h, steps, n)
    ensures InShape(steps[n]) && CommandSays(h, h.steps[n], steps[n].records[0].body.command)
  {
    hide TransitionSays, ReceiptSays, CommandSays, AnchorSays, AuthoritySays;
  }

  lemma LedgerTerms(h: History, j: Ledger)
    requires LedgerOk(h, j) && j.book.Some?
    ensures TermsInSchema(h)
  {
  }

  lemma FirstDecides(h: History, steps: seq<VectorStep>)
    requires 0 < |steps| <= |h.steps| && RowsSay(h, steps, 0) && ResultSays(h, steps, 0) && InShape(steps[0])
    requires h.steps[0].kind.RegisterKind?
    ensures var o := steps[0].records[0].body; var start := OpenReservation(h.terms, o.acceptedAt);
            && start.Ok? && start.value.current == ReceiptOf(steps[0]).body.result
            && Decide(h, start.value, h.steps[0], o.command, o.acceptedAt) == Ok(Effect(start.value, 0, 0))
  {
    hide OpenReservation, TransitionSays, ReceiptSays, AnchorSays, AuthoritySays;
    assert Actions(h, steps[..1]) == [];
  }

  lemma LastAction(h: History, steps: seq<VectorStep>, n: nat)
    requires 0 < n < |steps| <= |h.steps| && InShape(steps[n])
    ensures var actions := Actions(h, steps[..n + 1]);
            && |actions| == n && actions[..n - 1] == Actions(h, steps[..n])
            && actions[n - 1]
               == Timed(ActionOf(h, h.steps[n], InputOf(steps[n])), steps[n].records[0].body.acceptedAt)
  {
    hide ActionOf, InputOf, InShape;
    AcceptanceTime(steps[n]);
    assert steps[..n + 1][..n] == steps[..n] && steps[..n + 1][n] == steps[n];
    PrefixActions(h, steps[..n + 1], n);
    ActionCount(h, steps[..n + 1]);
    assert Actions(h, steps[..n + 1])[n - 1] == ActionAt(h, steps[..n + 1], n - 1);
  }

  /** The head advances by the step's action to its result. */
  lemma NextAdvances(h: History, sizes: Sizes, steps: seq<VectorStep>, n: nat)
    requires 0 < n < |steps| <= |h.steps| && AuditSteps(h, sizes, steps[..n]).Ok?
    requires InShape(steps[0]) && InShape(steps[n]) && ResultSays(h, steps, n)
    ensures AuditSteps(h, sizes, steps[..n]).value.book.Some?
    ensures var b, o := AuditSteps(h, sizes, steps[..n]).value.book.value, steps[n].records[0].body;
            var r := Advance(h.terms, b, Timed(ActionOf(h, h.steps[n], InputOf(steps[n])), o.acceptedAt));
            r.Ok? && r.value.book.current == ReceiptOf(steps[n]).body.result
  {
    hide AuditSteps, Advance, InputOf, ActionOf, Actions, InShape;
    AuditIsRun(h, sizes, steps[..n]);
    AcceptanceTime(steps[0]);
    assert steps[..n][0] == steps[0];
    LastAction(h, steps, n);
  }

  lemma NextDecides(h: History, sizes: Sizes, steps: seq<VectorStep>, n: nat)
    requires 0 < n < |steps| <= |h.steps| && AuditSteps(h, sizes, steps[..n]).Ok?
    requires InShape(steps[0]) && InShape(steps[n]) && ResultSays(h, steps, n)
    requires !h.steps[n].kind.RegisterKind? && CommandSays(h, h.steps[n], steps[n].records[0].body.command)
    ensures AuditSteps(h, sizes, steps[..n]).value.book.Some?
    ensures var b, o := AuditSteps(h, sizes, steps[..n]).value.book.value, steps[n].records[0].body;
            var decision := Decide(h, b, h.steps[n], o.command, o.acceptedAt);
            decision.Ok? && decision.value.book.current == ReceiptOf(steps[n]).body.result
  {
    NextAdvances(h, sizes, steps, n);
    hide AuditSteps, Decide, Advance, CommandFor, InputOf, CommandSays, ActionOf, InShape, ResultSays;
    var o := steps[n].records[0].body;
    ShapedInShape(steps[n]);
    ClosesAsRead(steps[n], InputOf(steps[n]));
    CommandExact(h, h.steps[n], InputOf(steps[n]), o.command);
    var b := AuditSteps(h, sizes, steps[..n]).value.book.value;
    AdvanceNotBefore(h.terms, b, Timed(ActionOf(h, h.steps[n], InputOf(steps[n])), o.acceptedAt));
    ActionDecides(h, b, h.steps[n], InputOf(steps[n]), o.command, o.acceptedAt);
  }

  lemma AdvanceNotBefore(t: Terms, b: Book, step: Timed)
    requires Advance(t, b, step).Ok?
    ensures b.clock <= step.at
  {
  }

  lemma SaidFresh(h: History, sizes: Sizes, steps: seq<VectorStep>, n: nat)
    requires n < |steps| <= |h.steps| && AuditSteps(h, sizes, steps[..n]).Ok? && Says(h, sizes, steps, n)
    ensures DeliveryKey(h.scope, SOURCE, h.steps[n].id) !in AuditSteps(h, sizes, steps[..n]).value.deliveries
  {
    hide AuditSteps, RowsSay, PlaceSays, ResultSays, BytesSay;
    AuditDelivered(h, sizes, steps[..n]);
  }

  lemma EarlierInShape(h: History, sizes: Sizes, steps: seq<VectorStep>, n: nat)
    requires n < |steps| && AuditSteps(h, sizes, steps[..n]).Ok? && InShape(steps[n])
    ensures forall k :: 0 <= k <= n ==> InShape(steps[k])
  {
    hide AuditSteps, InShape;
    AllInShape(h, sizes, steps[..n]);
    forall k | 0 <= k < n ensures InShape(steps[k]) {
      assert steps[..n][k] == steps[k];
    }
  }

  lemma SaysParts(h: History, sizes: Sizes, steps: seq<VectorStep>, n: nat)
    requires n < |steps| <= |h.steps| && Says(h, sizes, steps, n)
    ensures RowsSay(h, steps, n) && PlaceSays(h, steps, n) && ResultSays(h, steps, n)
    ensures InShape(steps[n]) && BytesSay(sizes, steps[n])
  {
    hide RowsSay, ResultSays, BytesSay;
  }

  lemma RowsParts(h: History, steps: seq<VectorStep>, n: nat)
    requires n < |steps| <= |h.steps| && RowsSay(h, steps, n)
    ensures steps[n].records != [] && steps[n].records[0].body.Observation?
    ensures ObservationSays(h, h.steps[n], steps[n].records[0])
  {
    hide ObservationSays, TransitionSays, ReceiptSays;
  }

  /** A step as described is the machine's. */
  lemma SaysProduced(h: History, sizes: Sizes, steps: seq<VectorStep>, n: nat)
    requires n < |steps| <= |h.steps| && AuditSteps(h, sizes, steps[..n]).Ok? && Says(h, sizes, steps, n)
    ensures var p := Produce(h, sizes, AuditSteps(h, sizes, steps[..n]).value, h.steps[n], InputOf(steps[n]));
            p.Some? && p.value.0 == steps[n]
  {
    hide *;
    var j, s, step := AuditSteps(h, sizes, steps[..n]).value, h.steps[n], steps[n];
    SaysParts(h, sizes, steps, n);
    RowsParts(h, steps, n);
    var input, o := InputOf(step), step.records[0].body;
    AuditSound(h, sizes, steps[..n]);
    PriorExact(h, sizes, steps[..n]);
    SaidFresh(h, sizes, steps, n);
    EarlierInShape(h, sizes, steps, n);
    SaidPlace(h, sizes, steps, n);
    SaidDecision(h, sizes, steps, n);
    SaidObservation(h, j, s, step);
    SaidAdmissible(h, j, s, step);
    var b := StartOf(h, j, input).value;
    var e := Decide(h, b, s, o.command, o.acceptedAt).value;
    StartSound(h, j, input);
    DecisionDeltas(h, b, s, o.command, o.acceptedAt);
    SaidRows(h, steps, n, j, b, e);
    BytesExact(sizes, step);
    SaidProduced(h, sizes, j, s, step, b, e);
  }

  /** A step as described is accepted. */
  lemma SaysAccepted(h: History, sizes: Sizes, steps: seq<VectorStep>, n: nat)
    requires n < |steps| <= |h.steps| && AuditSteps(h, sizes, steps[..n]).Ok? && Says(h, sizes, steps, n)
    ensures Accept(h, sizes, AuditSteps(h, sizes, steps[..n]).value, h.steps[n], steps[n]).Ok?
  {
    hide *;
    AuditSound(h, sizes, steps[..n]);
    SaysProduced(h, sizes, steps, n);
    ProducedIsAccepted(h, sizes, AuditSteps(h, sizes, steps[..n]).value, h.steps[n], InputOf(steps[n]));
  }

  lemma StartSound(h: History, j: Ledger, input: Input)
    requires LedgerOk(h, j) && StartOf(h, j, input).Ok?
    ensures Sound(h.terms, StartOf(h, j, input).value)
  {
    hide ReceiptsOk, RegistriesOk, Sound;
    if j.book.None? {
      RegisterSound(h.terms, input.acceptedAt);
    }
  }

  lemma SaidProduced(h: History, sizes: Sizes, j: Ledger, s: HistoryStep, step: VectorStep, b: Book, e: Effect)
    requires InShape(step)
    requires var input, o := InputOf(step), step.records[0].body;
             && Admissible(h, j, s, input) && CommandFor(h, s, input) == Some(o.command)
             && StartOf(h, j, input) == Ok(b)
             && input.acceptedAt == o.acceptedAt && Decide(h, b, s, o.command, o.acceptedAt) == Ok(e)
             && step.records == StepRows(h, j, s, input, o.command, b.current, e)
    requires |ReceiptOf(step).body.replay| <= MAX_REPLAY
    requires step.canonicalUtf8 == CanonicalTexts(step.records) && WithinLimits(sizes, step.records)
    ensures var p := Produce(h, sizes, j, s, InputOf(step)); p.Some? && p.value.0 == step
  {
    hide Admissible, CommandFor, StartOf, Decide, StepRows, InputOf, CanonicalTexts, WithinLimits, NextLedger;
  }

  // ----- accepted vectors -----

  lemma SaysPrefix(h: History, sizes: Sizes, steps: seq<VectorStep>, n: nat, i: nat)
    requires i < n <= |steps| <= |h.steps|
    ensures Says(h, sizes, steps[..n], i) <==> Says(h, sizes, steps, i)
  {
    hide InShape, ObservationSays, TransitionSays, ReceiptSays, ResultSays, BytesSay, StartSays, LinkSays;
    assert steps[..n][0] == steps[0] && steps[..n][i] == steps[i];
    if InShape(steps[0]) && InShape(steps[i]) {
      SameResult(h, steps, n, i);
    }
    if InShape(steps[i]) {
      SameReceipt(h, steps, n, i);
    }
  }

  lemma SameResult(h: History, steps: seq<VectorStep>, n: nat, i: nat)
    requires i < n <= |steps| <= |h.steps| && InShape(steps[0]) && InShape(steps[i])
    ensures ResultSays(h, steps[..n], i) <==> ResultSays(h, steps, i)
  {
    assert steps[..n][..i + 1] == steps[..i + 1] && steps[..n][0] == steps[0] && steps[..n][i] == steps[i];
  }

  lemma SameReceipt(h: History, steps: seq<VectorStep>, n: nat, i: nat)
    requires i < n <= |steps| <= |h.steps| && InShape(steps[i])
    ensures ReceiptSays(h, steps[..n], i) <==> ReceiptSays(h, steps, i)
  {
    hide InShape, RecordRefs, LeadingRefs, Economic, Trusted;
    assert steps[..n][i] == steps[i];
    assert (set k, r | 0 <= k < i && r in RecordRefs(steps[..n][k]) :: r)
        == (set k, r | 0 <= k < i && r in RecordRefs(steps[k]) :: r);
  }

  /** A vector is accepted exactly when every step of it is as described, from the first on. */
  lemma {:induction false} AcceptedExactly(h: History, sizes: Sizes, steps: seq<VectorStep>)
    ensures AuditSteps(h, sizes, steps).Ok?
       <==> |steps| <= |h.steps| && forall i :: 0 <= i < |steps| ==> Says(h, sizes, steps, i)
  {
    hide Accept, Says;
    if AuditSteps(h, sizes, steps).Ok? {
      forall i | 0 <= i < |steps| ensures |steps| <= |h.steps| && Says(h, sizes, steps, i) {
        AcceptedSays(h, sizes, steps, i);
      }
    } else if 0 < |steps| <= |h.steps| && forall i :: 0 <= i < |steps| ==> Says(h, sizes, steps, i) {
      var n := |steps| - 1;
      forall i | 0 <= i < n ensures Says(h, sizes, steps[..n], i) {
        SaysPrefix(h, sizes, steps, n, i);
      }
      AcceptedExactly(h, sizes, steps[..n]);
      SaysAccepted(h, sizes, steps, n);
    }
  }
}
