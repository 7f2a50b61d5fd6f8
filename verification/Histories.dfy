/** Whole histories: the ledger invariant, the checker against the machine, truncation, and the
    capacity run that every accepted history performs. */
module Histories {
  import opened Wrappers
  import opened Records
  import opened Capacity
  import opened Accounting
  import opened Journal
  import opened Registry
  import opened Exactness
  import opened Completeness

  // ----- the ledger invariant -----

  lemma ReadyOf(h: History, sizes: Sizes, j: Ledger, s: HistoryStep, step: VectorStep)
    requires LedgerOk(h, j) && Accept(h, sizes, j, s, step).Ok?
    ensures var input := InputOf(step); var next := Accept(h, sizes, j, s, step).value;
            && CommandFor(h, s, input).Some? && StartOf(h, j, input).Ok?
            && var command, b := CommandFor(h, s, input).value, StartOf(h, j, input).value;
            && Decide(h, b, s, command, input.acceptedAt).Ok?
            && var e := Decide(h, b, s, command, input.acceptedAt).value;
            && Ready(h, j, s, input, command, b, e)
            && step.records == StepRows(h, j, s, input, command, b.current, e)
            && next == NextLedger(h, j, s, step.records, e.book,
                                  Registries(j.identities + RowKeys(h.scope, step.records), j.references
                                      + RowMentions(step.records)),
                                  step.records[|step.records| - 1].body.replay
                                      + {ReferenceTo(step.records[|step.records| - 1])})
            && |step.records[|step.records| - 1].body.replay| <= MAX_REPLAY
            && step.records[0].body.acceptedAt == input.acceptedAt
            && DeliveryOf(h, step.records[0].body) == DeliveryKey(h.scope, SOURCE, s.id)
            && step.records[0].body.command == command
  {
    hide Accept, LedgerOk, InputOf, Decide, StartOf, CommandFor, StepRows, NextLedger, RowKeys, RowMentions,
         Admissible, ReferenceTo, WithinLimits;
    AcceptedIsProduced(h, sizes, j, s, step);
    var input := InputOf(step);
    var command, b := CommandFor(h, s, input).value, StartOf(h, j, input).value;
    var e := Decide(h, b, s, command, input.acceptedAt).value;
    assert Ready(h, j, s, input, command, b, e);
    hide Ready, Produce;
    RowsAre(h, j, s, input, command, b.current, e);
    hide LeadingRows, TransitionFor, ReceiptFor;
    CommandShape(h, s, input);
  }

  lemma NewReferencesWellMade(h: History, j: Ledger, s: HistoryStep, input: Input, command: Command, b: Book,
          e: Effect, r: Reference)
    requires Ready(h, j, s, input, command, b, e)
    requires r in j.references + RowMentions(StepRows(h, j, s, input, command, b.current, e))
    ensures WellMade(h, j.identities + RowKeys(h.scope, StepRows(h, j, s, input, command, b.current, e)), r)
  {
    hide Ready, StepRows, SyntheticOk, FreshKeys, RowMentions, Consistent, LedgerOk, Admissible, StartOf,
         CommandFor, Decide, IdentityUsed, ReferenceTo;
    var rows := StepRows(h, j, s, input, command, b.current, e);
    ReadyParts(h, j, s, input, command, b, e);
    LedgerRegistries(h, j);
    if r !in j.references {
      ProducedKnown(h, j, s, input, command, b, e, r);
    }
    ProducedFresh(h, j, s, input, command, b, e);
    DistinctRowsConsistent(h.scope, j.identities, rows);
    if r in RowReferences(rows) {
      var i :| 0 <= i < |rows| && r == ReferenceTo(rows[i]);
      assert RowKey(h.scope, rows[i]) in RowKeys(h.scope, rows);
    }
  }

  lemma OldIdentityUsed(h: History, j: Ledger, next: Ledger, k: RecordKey)
    requires IdentityUsed(h, j, k) && next.book.Some? && j.deliveries.Keys <= next.deliveries.Keys
    requires j.book.Some? ==> j.book.value.current.revision <= next.book.value.current.revision
    ensures IdentityUsed(h, next, k)
  {
  }

  lemma NewIdentitiesUsed(h: History, j: Ledger, s: HistoryStep, input: Input, command: Command, b: Book, e: Effect,
          next: Ledger, k: RecordKey)
    requires Ready(h, j, s, input, command, b, e) && RegistriesOk(h, j)
    requires k in j.identities + RowKeys(h.scope, StepRows(h, j, s, input, command, b.current, e))
    requires next.book.Some? && next.book.value.current == e.book.current
    requires next.deliveries.Keys == j.deliveries.Keys + {DeliveryKey(h.scope, SOURCE, s.id)}
    ensures IdentityUsed(h, next, k)
  {
    hide Ready, StepRows, LedgerOk, Sound, ReceiptsOk, StateSchema, StateCheck, Decide, WellMade, Consistent,
         CommandFor, Admissible, RowKey, TermsInSchema, OpenReservation;
    var rows := StepRows(h, j, s, input, command, b.current, e);
    ReadyParts(h, j, s, input, command, b, e);
    ReadySound(h, j, s, input, command, b, e);
    assert j.book.Some? ==> j.book.value == b;
    if k in j.identities {
      OldIdentityUsed(h, j, next, k);
    } else {
      hide RegistriesOk;
      var i :| 0 <= i < |rows| && k == RowKey(h.scope, rows[i]);
      ProducedKeys(h, j, s, input, command, b.current, e, i);
    }
  }

  lemma SoundClock(t: Terms, b: Book, clock: int)
    requires Sound(t, b)
    ensures Sound(t, b.(clock := clock))
  {
    var c := b.(clock := clock);
    forall f | f in t.families
      ensures FamilyOk(t, c, f)
    {
      assert FamilyOk(t, b, f);
    }
  }

  lemma EndReferences(rows: seq<Record>)
    requires rows != []
    ensures ReferenceTo(rows[|rows| - 1]) in RowMentions(rows)
  {
    MentionsRow(rows, |rows| - 1);
  }

  lemma RegistrationKept(h: History, j: Ledger)
    requires LedgerOk(h, j)
    ensures j.registration.Some? ==> j.registration.value in j.references
    ensures j.book.None? ==> j.registration.None? && j.deliveries == map[]
  {
    hide Sound, ReceiptsOk, RegistriesOk, TermsInSchema;
  }

  lemma ReadyKeepsRegistries(h: History, j: Ledger, s: HistoryStep, input: Input, command: Command, b: Book,
          e: Effect, next: Ledger)
    requires Ready(h, j, s, input, command, b, e)
    requires var rows := StepRows(h, j, s, input, command, b.current, e);
             && next.identities == j.identities + RowKeys(h.scope, rows)
                && next.references == j.references + RowMentions(rows)
             && next.prior == rows[|rows| - 1].body.replay + {ReferenceTo(rows[|rows| - 1])}
    requires next.book.Some? && next.book.value.current == e.book.current
    requires next.deliveries.Keys == j.deliveries.Keys + {DeliveryKey(h.scope, SOURCE, s.id)}
    ensures RegistriesOk(h, next)
  {
    hide Ready, StepRows, ReferenceTo, RowKeys, RowMentions, WellMade, IdentityUsed, Consistent, LedgerOk,
         Admissible, StartOf, CommandFor, Decide;
    ReadyParts(h, j, s, input, command, b, e);
    LedgerRegistries(h, j);
    ProducedRegisters(h, j, s, input, command, b, e);
    ProducedReplay(h, j, s, input, command, b, e);
    forall r | r in next.references
      ensures WellMade(h, next.identities, r)
    {
      NewReferencesWellMade(h, j, s, input, command, b, e, r);
    }
    forall k | k in next.identities
      ensures IdentityUsed(h, next, k)
    {
      NewIdentitiesUsed(h, j, s, input, command, b, e, next, k);
    }
  }

  lemma StepKeepsRegistries(h: History, sizes: Sizes, j: Ledger, s: HistoryStep, step: VectorStep)
    requires LedgerOk(h, j) && Accept(h, sizes, j, s, step).Ok?
    ensures RegistriesOk(h, Accept(h, sizes, j, s, step).value)
  {
    hide Accept, LedgerOk, Decide, StartOf, CommandFor, StepRows, InputOf, Ready, ReferenceTo, RowKeys,
         RowMentions, RegistriesOk, StoredOf;
    ReadyOf(h, sizes, j, s, step);
    var input := InputOf(step);
    var command, b := CommandFor(h, s, input).value, StartOf(h, j, input).value;
    var e := Decide(h, b, s, command, input.acceptedAt).value;
    ReadyKeepsRegistries(h, j, s, input, command, b, e, Accept(h, sizes, j, s, step).value);
  }

  lemma StepKeepsLedger(h: History, sizes: Sizes, j: Ledger, s: HistoryStep, step: VectorStep)
    requires LedgerOk(h, j) && Accept(h, sizes, j, s, step).Ok?
    ensures LedgerOk(h, Accept(h, sizes, j, s, step).value)
  {
    hide Accept, Decide, StartOf, CommandFor, StepRows, InputOf, Ready, ReferenceTo, RowKeys, RowMentions,
         RegistriesOk, Sound, ReceiptsOk, TermsInSchema, StateSchema, StateCheck, StoredOf;
    var next, input, rows := Accept(h, sizes, j, s, step).value, InputOf(step), step.records;
    ReadyOf(h, sizes, j, s, step);
    StepKeepsRegistries(h, sizes, j, s, step);
    EndReferences(rows);
    RegistrationKept(h, j);
    var command, b := CommandFor(h, s, input).value, StartOf(h, j, input).value;
    var e := Decide(h, b, s, command, input.acceptedAt).value;
    ReadySound(h, j, s, input, command, b, e);
    SoundClock(h.terms, e.book, input.acceptedAt);
    ReceiptsClock(h, e.book, input.acceptedAt);
  }

  lemma ReceiptsClock(h: History, b: Book, clock: int)
    requires ReceiptsOk(h, b)
    ensures ReceiptsOk(h, b.(clock := clock))
  {
  }

  lemma {:induction false} AuditSound(h: History, sizes: Sizes, steps: seq<VectorStep>)
    requires AuditSteps(h, sizes, steps).Ok?
    ensures LedgerOk(h, AuditSteps(h, sizes, steps).value)
  {
    hide Accept, LedgerOk;
    if steps == [] {
      EmptyOk(h);
    } else {
      var n := |steps| - 1;
      AuditSound(h, sizes, steps[..n]);
      StepKeepsLedger(h, sizes, AuditSteps(h, sizes, steps[..n]).value, h.steps[n], steps[n]);
    }
  }

  // ----- the checker is the machine -----

  /** The machine over a whole history: the vector it writes for the given inputs. */
  ghost function Write(h: History, sizes: Sizes, inputs: seq<Input>): Option<(seq<VectorStep>, Ledger)> {
    if |inputs| > |h.steps| then None
    else if inputs == [] then Some(([], EMPTY))
    else
      var n := |inputs| - 1;
      match Write(h, sizes, inputs[..n])
      case None => None
      case Some((steps, j)) =>
        match Produce(h, sizes, j, h.steps[n], inputs[n])
        case None => None
        case Some((step, next)) => Some((steps + [step], next))
  }

  function Inputs(steps: seq<VectorStep>): seq<Input> {
    seq(|steps|, i requires 0 <= i < |steps| => InputOf(steps[i]))
  }

  /** The audit accepts a vector, and ends in a ledger, exactly when the machine writes both. */
  lemma {:induction false} AuditExact(h: History, sizes: Sizes, steps: seq<VectorStep>, j: Ledger)
    ensures AuditSteps(h, sizes, steps) == Ok(j) <==> Write(h, sizes, Inputs(steps)) == Some((steps, j))
  {
    hide Accept, Produce, InputOf;
    if 0 < |steps| <= |h.steps| {
      var n := |steps| - 1;
      assert Inputs(steps)[..n] == Inputs(steps[..n]);
      assert steps == steps[..n] + [steps[n]];
      var before, written := AuditSteps(h, sizes, steps[..n]), Write(h, sizes, Inputs(steps[..n]));
      if before.Ok? {
        AuditExact(h, sizes, steps[..n], before.value);
        AuditSound(h, sizes, steps[..n]);
        StepExact(h, sizes, before.value, h.steps[n], steps[n], j);
      } else if written.Some? && written.value.0 == steps[..n] {
        AuditExact(h, sizes, steps[..n], written.value.1);
      }
    }
  }

  /** Nothing but the observed inputs is free: two accepted vectors with the same inputs are equal. */
  lemma AuditUnique(h: History, sizes: Sizes, steps: seq<VectorStep>, other: seq<VectorStep>)
    requires AuditSteps(h, sizes, steps).Ok? && AuditSteps(h, sizes, other).Ok? && Inputs(steps) == Inputs(other)
    ensures steps == other
  {
    AuditExact(h, sizes, steps, AuditSteps(h, sizes, steps).value);
    AuditExact(h, sizes, other, AuditSteps(h, sizes, other).value);
  }

  // ----- truncation -----

  lemma {:induction false} AuditPrefix(h: History, sizes: Sizes, steps: seq<VectorStep>, i: nat)
    requires i <= |steps| && AuditSteps(h, sizes, steps).Ok?
    ensures AuditSteps(h, sizes, steps[..i]).Ok?
  {
    hide Accept;
    if i < |steps| {
      var n := |steps| - 1;
      assert steps[..n][..i] == steps[..i];
      AuditPrefix(h, sizes, steps[..n], i);
    } else {
      assert steps[..i] == steps;
    }
  }

  lemma CheckRowsIgnoresSteps(h: History, g: History, sizes: Sizes, step: VectorStep)
    requires g == h.(steps := g.steps)
    ensures CheckRows(h, sizes, step) == CheckRows(g, sizes, step)
  {
    EachRowIgnoresSteps(h, g, sizes, step.records);
    hide CheckEachRow;
  }

  lemma ResolveIgnoresSteps(h: History, g: History, j: Ledger, s: HistoryStep, o: Body)
    requires g == h.(steps := g.steps) && o.Observation?
    ensures Resolve(h, j, s, o) == Resolve(g, j, s, o)
  {
    hide ApplyClaim, ApplyCorrection, ApplyClose, OpenReservation, StateCheck, SortedPermissions;
  }

  lemma ReplayIgnoresSteps(h: History, g: History, j: Ledger, s: HistoryStep, rows: seq<Record>)
    requires g == h.(steps := g.steps) && Shaped(rows)
    ensures Replay(h, j, s, rows) == Replay(g, j, s, rows)
  {
    hide Retain, RowReferences;
  }

  lemma ReceiptIgnoresSteps(h: History, g: History, s: HistoryStep, rows: seq<Record>, result: State)
    requires g == h.(steps := g.steps) && Shaped(rows)
    ensures CheckReceipt(h, s, rows, result) == CheckReceipt(g, s, rows, result)
  {
    hide StateCheck;
  }

  lemma AcceptIgnoresSteps(h: History, g: History, sizes: Sizes, j: Ledger, s: HistoryStep, step: VectorStep)
    requires g == h.(steps := g.steps)
    ensures Accept(h, sizes, j, s, step) == Accept(g, sizes, j, s, step)
  {
    hide RegisterRows, CheckRows, Resolve, Replay, CheckTransition, CheckReceipt, ReferenceTo, StoredOf;
    var rows := step.records;
    if Shaped(rows) {
      CheckRowsIgnoresSteps(h, g, sizes, step);
      ResolveIgnoresSteps(h, g, j, s, rows[0].body);
      ReplayIgnoresSteps(h, g, j, s, rows);
      if Resolve(h, j, s, rows[0].body).Ok? {
        ReceiptIgnoresSteps(h, g, s, rows, Resolve(h, j, s, rows[0].body).value.1.book.current);
      }
    }
  }

  lemma {:induction false} EachRowIgnoresSteps(h: History, g: History, sizes: Sizes, rows: seq<Record>)
    requires g == h.(steps := g.steps)
    ensures CheckEachRow(h, sizes, rows) == CheckEachRow(g, sizes, rows)
  {
    hide SchemaOk, Row;
    if rows != [] {
      EachRowIgnoresSteps(h, g, sizes, rows[..|rows| - 1]);
    }
  }

  lemma {:induction false} StepsBeyondIgnored(h: History, g: History, sizes: Sizes, steps: seq<VectorStep>)
    requires g == h.(steps := g.steps) && g.steps <= h.steps && |steps| <= |g.steps|
    ensures AuditSteps(g, sizes, steps) == AuditSteps(h, sizes, steps)
  {
    hide Accept;
    if steps != [] {
      var n := |steps| - 1;
      StepsBeyondIgnored(h, g, sizes, steps[..n]);
      if AuditSteps(h, sizes, steps[..n]).Ok? {
        AcceptIgnoresSteps(h, g, sizes, AuditSteps(h, sizes, steps[..n]).value, h.steps[n], steps[n]);
      }
    }
  }

  /** Cutting an accepted history and its vector at the same step leaves an accepted pair, with the
      ledger the full audit had reached there: lookups may be replayed at any earlier point. */
  lemma TruncationAccepted(h: History, sizes: Sizes, v: Vector, end: nat)
    requires end <= |h.steps| && Audit(h, sizes, v).Ok?
    ensures var cut := Audit(h.(steps := h.steps[..end]), sizes, v.(steps := v.steps[..end]));
            cut.Ok? && cut == AuditSteps(h, sizes, v.steps[..end])
  {
    AuditPrefix(h, sizes, v.steps, end);
    StepsBeyondIgnored(h, h.(steps := h.steps[..end]), sizes, v.steps[..end]);
  }
}
