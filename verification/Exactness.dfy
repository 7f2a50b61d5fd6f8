/** The checker is the machine: a step is accepted exactly when it is, byte for byte, the step the
    machine writes for the inputs that step observed. */
module Exactness {
  import opened Wrappers
  import opened Records
  import opened Capacity
  import opened Accounting
  import opened Journal
  import opened Registry

  datatype CloseDetail = CloseDetail(reason: Reason, expectedRevision: int)

  /** What a vector step is free to choose; everything else in its records is determined. */
  datatype Input = Input(
    close: Option<CloseDetail>, receivedAt: int, acceptedAt: int,
    principal: string, grantRevision: int, permissions: seq<Permission>)

  const NO_INPUT := Input(None, 0, 0, "", 0, [])

  function InputOf(step: VectorStep): Input {
    if !Shaped(step.records) then NO_INPUT
    else
      var o := step.records[0].body;
      Input(if o.command.Close? then Some(CloseDetail(o.command.reason, o.command.expectedRevision)) else None,
            o.receivedAt, o.acceptedAt, o.authority.principal, o.authority.grantRevision, o.authority.permissions)
  }

  function CommandFor(h: History, s: HistoryStep, input: Input): Option<Command> {
    var hash := IngressHash(EconomicIngressOf(s));
    match s.kind
    case RegisterKind => Some(Register(SOURCE, s.id, INVOCATION, hash))
    case OrdinaryKind =>
      if s.family.None? then None else Some(Ordinary(SOURCE, s.id, INVOCATION, hash, Key(h.terms, s.family.value)))
    case PostHocKind =>
      if s.family.None? then None else Some(PostHoc(SOURCE, s.id, INVOCATION, hash, Key(h.terms, s.family.value)))
    case CloseKind =>
      if input.close.None? then None
      else Some(Close(SOURCE, s.id, INVOCATION, input.close.value.reason, input.close.value.expectedRevision))
  }

  function EconomicFor(h: History, s: HistoryStep): Option<Reference> {
    if s.kind.CloseKind? then None else Some(EconomicOf(h, s.id))
  }

  function ObservationFor(h: History, j: Ledger, s: HistoryStep, input: Input, command: Command,
          before: State): Record
  {
    Row(h.scope, Observation(
      command, RequestHash(command), AnchorOf(h), h.unit, before,
      Authority(input.principal, GrantOf(h), input.grantRevision, true, input.permissions, [EvidenceOf(h)]),
      input.receivedAt, input.acceptedAt, j.registration, j.previous, EconomicFor(h, s)))
  }

  function TransitionFor(h: History, observation: Record, before: State, e: Effect): Record {
    Row(h.scope, Transition(INVOCATION, ReferenceTo(observation), before, e.book.current, e.consume, e.release))
  }

  /** The rows before the receipt: the observation, and the transition when the state moved. */
  function LeadingRows(h: History, j: Ledger, s: HistoryStep, input: Input, command: Command, before: State,
          e: Effect): (rows: seq<Record>)
    ensures 1 <= |rows| <= 2 && rows[0].body.Observation? && (|rows| == 2 ==> rows[1].body.Transition?)
    ensures |rows| == 2 <==> e.book.current != before
  {
    var observation := ObservationFor(h, j, s, input, command, before);
    if e.book.current != before then [observation, TransitionFor(h, observation, before, e)] else [observation]
  }

  function ReplayFor(h: History, j: Ledger, s: HistoryStep, leading: seq<Record>): set<Reference> {
    j.prior + (External(h, s) + RowReferences(leading))
  }

  function ReceiptFor(h: History, j: Ledger, s: HistoryStep, command: Command, leading: seq<Record>,
          e: Effect): Record
    requires 1 <= |leading| <= 2
  {
    Row(h.scope, Receipt(
      SOURCE, s.id, INVOCATION, RequestHash(command), ReferenceTo(leading[0]),
      if |leading| == 2 then Some(ReferenceTo(leading[1])) else None,
      e.book.current, ReplayFor(h, j, s, leading), EconomicFor(h, s)))
  }

  function StepRows(h: History, j: Ledger, s: HistoryStep, input: Input, command: Command, before: State,
          e: Effect): (rows: seq<Record>)
    ensures Shaped(rows) && rows[..|rows| - 1] == LeadingRows(h, j, s, input, command, before, e)
  {
    var leading := LeadingRows(h, j, s, input, command, before, e);
    leading + [ReceiptFor(h, j, s, command, leading, e)]
  }

  /** What the audit asks of the free inputs, all of it checkable before the step is written. */
  predicate Admissible(h: History, j: Ledger, s: HistoryStep, input: Input) {
    && DeliveryKey(h.scope, SOURCE, s.id) !in j.deliveries
    && (s.kind.RegisterKind? <==> j.book.None?)
    && input.receivedAt <= input.acceptedAt
    && (j.book.Some? ==> j.book.value.clock <= input.acceptedAt)
    && 1 <= input.grantRevision <= MAX_REVISION
    && CanRead in input.permissions && WritePermission(s.kind) in input.permissions
    && SortedPermissions(input.permissions)
    && (s.kind.CloseKind? <==> input.close.Some?)
    && TermsInSchema(h)
  }

  function StartOf(h: History, j: Ledger, input: Input): Result<Book, Code> {
    match j.book
    case None => OpenReservation(h.terms, input.acceptedAt)
    case Some(b) => Ok(b)
  }

  predicate WithinLimits(sizes: Sizes, rows: seq<Record>) {
    (forall i | 0 <= i < |rows| :: sizes.body(rows[i].body) <= MAX_BODY_BYTES)
        && TotalBytes(sizes, rows) <= MAX_DECISION_BYTES
  }

  /** The step the machine writes, and the ledger it leaves, for the given inputs. */
  ghost function Produce(h: History, sizes: Sizes, j: Ledger, s: HistoryStep,
          input: Input): Option<(VectorStep, Ledger)>
  {
    if !Admissible(h, j, s, input) || CommandFor(h, s, input).None? || StartOf(h, j, input).Err? then None
    else
      var command, b := CommandFor(h, s, input).value, StartOf(h, j, input).value;
      var decision := Decide(h, b, s, command, input.acceptedAt);
      if decision.Err? then None
      else
        var rows := StepRows(h, j, s, input, command, b.current, decision.value);
        var receipt := rows[|rows| - 1];
        if |receipt.body.replay| > MAX_REPLAY || !WithinLimits(sizes, rows) then None
        else
          var g := Registries(j.identities + RowKeys(h.scope, rows), j.references + RowMentions(rows));
          Some((VectorStep(rows, CanonicalTexts(rows)),
                NextLedger(h, j, s, rows, decision.value.book, g, receipt.body.replay + {ReferenceTo(receipt)})))
  }

  // ----- small facts -----

  lemma {:induction false} EachRowChecked(h: History, sizes: Sizes, rows: seq<Record>)
    ensures CheckEachRow(h, sizes, rows).Pass? <==> forall i :: 0 <= i < |rows| ==> CheckRow(h, sizes, rows[i]).Pass?
  {
    if rows != [] {
      var n := |rows| - 1;
      EachRowChecked(h, sizes, rows[..n]);
      hide CheckRow;
      assert forall i :: 0 <= i < n ==> rows[..n][i] == rows[i];
    }
  }

  lemma {:induction false} KeyCount(t: Terms, ids: set<string>)
    ensures |set f | f in ids :: Key(t, f)| == |ids|
  {
    if ids != {} {
      var x :| x in ids;
      KeyCount(t, ids - {x});
      assert (set f | f in ids :: Key(t, f)) == (set f | f in ids - {x} :: Key(t, f)) + {Key(t, x)};
    }
  }

  lemma FamilyCount(t: Terms, b: Book)
    requires FamiliesOk(t, b)
    ensures |b.current.families| == |t.families|
  {
    KeyCount(t, t.families.Keys);
    forall f | f in t.families
      ensures Key(t, f) in b.current.families
    {
      assert FamilyOk(t, b, f);
    }
    hide FamilyOk;
    assert b.current.families.Keys == set f | f in t.families.Keys :: Key(t, f);
    assert |b.current.families| == |b.current.families.Keys|;
  }

  /** A sound state fits the schema as soon as the terms do. */
  lemma SoundInSchema(h: History, b: Book)
    requires Sound(h.terms, b)
    ensures TermsInSchema(h) && 0 <= h.unit.scale <= 18 ==> StateSchema(b.current)
    ensures StateSchema(b.current) ==> 1 <= |h.terms.families| <= MAX_FAMILIES
    ensures StateCheck(b.current) == Pass
  {
    StateCheckPasses(h.terms, b);
    FamilyCount(h.terms, b);
    hide FamiliesOk, WithinCeilings;
  }

  /** What a decision does to the starting book: it stays sound, and its revision moves by one
      exactly when its state moves. */
  lemma DecisionSound(h: History, b: Book, s: HistoryStep, command: Command, now: int)
    requires Sound(h.terms, b) && Decide(h, b, s, command, now).Ok?
    ensures var e := Decide(h, b, s, command, now).value;
            && Sound(h.terms, e.book) && Atoms(e.consume) && Atoms(e.release)
            && (e.book.current != b.current ==> e.book.current.revision == b.current.revision + 1)
            && (ReceiptsOk(h, b) ==> ReceiptsOk(h, e.book))
  {
    hide ApplyClaim, ApplyCorrection, ApplyClose, FamiliesOk, WithinCeilings;
    match command
    case Register(_, _, _, _) =>
    case Ordinary(_, _, _, _, _) => ClaimSound(h.terms, b, s.family.value, s.amount.value, EconomicOf(h, s.id), now);
    case PostHoc(_, _, _, _, _) => CorrectionSound(h.terms, b, s.family.value, s.amount.value, now);
    case Close(_, _, _, reason, expected) =>
      CloseSound(h.terms, b, reason, expected, s.earlyAuthorized, now);
  }

  // ----- accepted records are forced -----

  lemma CommandForced(h: History, b: Book, s: HistoryStep, o: Body, input: Input)
    requires o.Observation? && o.command.Kind() == s.kind && o.command.externalId == s.id
    requires o.command.source == SOURCE && o.command.invocationId == INVOCATION
    requires Decide(h, b, s, o.command, o.acceptedAt).Ok?
    requires !o.command.Close? ==> o.command.ingressHash == IngressHash(EconomicIngressOf(s))
    requires o.command.Close? ==> input.close == Some(CloseDetail(o.command.reason, o.command.expectedRevision))
    ensures CommandFor(h, s, input) == Some(o.command)
  {
    hide ApplyClaim, ApplyCorrection, ApplyClose;
  }

  lemma ObservationForced(h: History, j: Ledger, s: HistoryStep, step: VectorStep)
    requires LedgerOk(h, j) && Shaped(step.records)
    requires var o := step.records[0].body;
             && CheckObservation(h, j, s, o).Pass? && StartingBook(h, j, s, o).Ok?
             && o.economicReceipt == EconomicFor(h, s) && step.records[0] == Row(h.scope, o)
    ensures var o := step.records[0].body; var b := StartingBook(h, j, s, o).value;
            && StartOf(h, j, InputOf(step)) == Ok(b) && o.before == b.current
            && step.records[0] == ObservationFor(h, j, s, InputOf(step), o.command, b.current)
  {
    hide Sound, ReceiptsOk, RegistriesOk, TermsInSchema, OpenReservation, StateCheck;
  }

  lemma TransitionForced(h: History, j: Ledger, s: HistoryStep, input: Input, rows: seq<Record>, before: State,
          e: Effect)
    requires Shaped(rows) && CheckTransition(rows, before, e).Pass?
    requires rows[0].body.command.invocationId == INVOCATION
    requires rows[0] == ObservationFor(h, j, s, input, rows[0].body.command, before)
    requires |rows| == 3 ==> rows[1] == Row(h.scope, rows[1].body)
    ensures rows[..|rows| - 1] == LeadingRows(h, j, s, input, rows[0].body.command, before, e)
    ensures rows[|rows| - 1].body.transition == if |rows| == 3 then Some(ReferenceTo(rows[1])) else None
  {
    hide ObservationFor, ReferenceTo;
    if |rows| == 3 {
      assert rows[..2] == [rows[0], rows[1]];
    } else {
      assert rows[..1] == [rows[0]];
    }
  }

  lemma ReceiptForced(h: History, j: Ledger, s: HistoryStep, rows: seq<Record>, e: Effect)
    requires Shaped(rows) && CheckReceipt(h, s, rows, e.book.current).Pass?
    requires rows[0].body.command.Kind() == s.kind && rows[0].body.command.source == SOURCE
    requires rows[0].body.command.externalId == s.id && rows[0].body.command.invocationId == INVOCATION
    requires rows[0].body.requestHash == RequestHash(rows[0].body.command)
    requires rows[|rows| - 1] == Row(h.scope, rows[|rows| - 1].body)
    requires rows[|rows| - 1].body.transition == if |rows| == 3 then Some(ReferenceTo(rows[1])) else None
    requires rows[|rows| - 1].body.replay == ReplayFor(h, j, s, rows[..|rows| - 1])
    ensures rows[|rows| - 1] == ReceiptFor(h, j, s, rows[0].body.command, rows[..|rows| - 1], e)
    ensures rows[0].body.economicReceipt == EconomicFor(h, s)
    ensures !rows[0].body.command.Close? ==> rows[0].body.command.ingressHash == IngressHash(EconomicIngressOf(s))
  {
    hide ReplayFor, StateCheck;
  }

  lemma RowsForced(h: History, sizes: Sizes, step: VectorStep, i: nat)
    requires i < |step.records| && CheckRows(h, sizes, step).Pass?
    ensures var r := step.records[i];
            r == Row(h.scope, r.body) && SchemaOk(r.body) && sizes.body(r.body) <= MAX_BODY_BYTES
  {
    hide SchemaOk, Row;
    EachRowChecked(h, sizes, step.records);
    assert CheckRow(h, sizes, step.records[i]).Pass?;
  }

  ghost predicate DecisionPasses(h: History, j: Ledger, s: HistoryStep, rows: seq<Record>)
    requires Shaped(rows)
  {
    var o := rows[0].body;
    && CheckObservation(h, j, s, o).Pass? && StartingBook(h, j, s, o).Ok?
    && var b := StartingBook(h, j, s, o).value;
    && Decide(h, b, s, o.command, o.acceptedAt).Ok?
    && var e := Decide(h, b, s, o.command, o.acceptedAt).value;
    && CheckTransition(rows, b.current, e).Pass? && CheckReceipt(h, s, rows, e.book.current).Pass?
  }

  ghost function DecisionOf(h: History, j: Ledger, s: HistoryStep, rows: seq<Record>): Effect
    requires Shaped(rows) && DecisionPasses(h, j, s, rows)
  {
    Decide(h, StartingBook(h, j, s, rows[0].body).value, s, rows[0].body.command, rows[0].body.acceptedAt).value
  }

  ghost predicate ReplayPasses(h: History, j: Ledger, s: HistoryStep, rows: seq<Record>)
    requires Shaped(rows)
  {
    var last := rows[|rows| - 1];
    var replay := ReplayFor(h, j, s, rows[..|rows| - 1]);
    && Consistent(replay) && last.body.replay == replay && |replay| <= MAX_REPLAY
    && Consistent(replay + {ReferenceTo(last)})
  }

  /** The audit of one step, flattened: all checks pass, and the next ledger is the recorded one. */
  lemma AcceptUnfolds(h: History, sizes: Sizes, j: Ledger, s: HistoryStep, step: VectorStep)
    ensures var rows := step.records; var g := RegisterRows(h.scope, Registries(j.identities, j.references), rows);
            && (Accept(h, sizes, j, s, step).Ok? <==>
                && Shaped(rows) && CheckRows(h, sizes, step).Pass? && DeliveryOf(h, rows[0].body) !in j.deliveries
                && g.Ok? && DecisionPasses(h, j, s, rows) && ReplayPasses(h, j, s, rows))
            && (Accept(h, sizes, j, s, step).Ok? ==>
                Accept(h, sizes, j, s, step)
                == Ok(NextLedger(h, j, s, rows, DecisionOf(h, j, s, rows).book, g.value,
                                 ReplayFor(h, j, s, rows[..|rows| - 1]) + {ReferenceTo(rows[|rows| - 1])})))
  {
    hide CheckRows, RegisterRows, CheckObservation, StartingBook, Decide, CheckTransition, CheckReceipt,
         NextLedger;
    hide External, RowReferences, Consistent, ReferenceTo;
    var rows := step.records;
    if Shaped(rows) {
      ReplayUnfolds(h, j, s, rows);
      hide Replay, ReplayPasses, ReplayFor;
    }
  }

  lemma ReplayUnfolds(h: History, j: Ledger, s: HistoryStep, rows: seq<Record>)
    requires Shaped(rows)
    ensures Replay(h, j, s, rows).Ok? <==> ReplayPasses(h, j, s, rows)
    ensures Replay(h, j, s, rows).Ok?
            ==> Replay(h, j, s, rows).value == ReplayFor(h, j, s, rows[..|rows| - 1]) + {ReferenceTo(rows[|rows| - 1])}
  {
    hide External, RowReferences, Consistent, ReferenceTo;
  }

  lemma HeaderForced(h: History, j: Ledger, s: HistoryStep, o: Body)
    requires o.Observation? && CheckObservation(h, j, s, o).Pass?
    ensures o.command.Kind() == s.kind && o.command.externalId == s.id && o.command.invocationId == INVOCATION
    ensures o.command.source == SOURCE && o.requestHash == RequestHash(o.command) && o.unit == h.unit
  {
  }

  lemma ReceiptEconomics(h: History, s: HistoryStep, rows: seq<Record>, result: State)
    requires Shaped(rows) && CheckReceipt(h, s, rows, result).Pass? && rows[0].body.command.Kind() == s.kind
    ensures rows[0].body.economicReceipt == EconomicFor(h, s)
    ensures !rows[0].body.command.Close? ==> rows[0].body.command.ingressHash == IngressHash(EconomicIngressOf(s))
  {
    hide StateCheck;
  }

  predicate WellRowed(h: History, rows: seq<Record>) {
    forall i | 0 <= i < |rows| :: rows[i] == Row(h.scope, rows[i].body)
  }

  lemma AllRowsForced(h: History, sizes: Sizes, step: VectorStep)
    requires CheckRows(h, sizes, step).Pass?
    ensures WellRowed(h, step.records)
  {
    hide CheckRows, Row;
    forall i | 0 <= i < |step.records|
      ensures step.records[i] == Row(h.scope, step.records[i].body)
    {
      RowsForced(h, sizes, step, i);
    }
  }

  /** The observation of an accepted step, and the command it carries, are the machine's. */
  lemma HeadForced(h: History, j: Ledger, s: HistoryStep, step: VectorStep)
    requires LedgerOk(h, j) && Shaped(step.records) && WellRowed(h, step.records)
    requires DecisionPasses(h, j, s, step.records)
    ensures var o, input := step.records[0].body, InputOf(step);
            var b := StartingBook(h, j, s, o).value;
            && StartOf(h, j, input) == Ok(b) && CommandFor(h, s, input) == Some(o.command) && o.before == b.current
            && step.records[0] == ObservationFor(h, j, s, input, o.command, b.current)
            && o.command.Kind() == s.kind && o.command.source == SOURCE && o.command.externalId == s.id
            && o.command.invocationId == INVOCATION && o.requestHash == RequestHash(o.command)
  {
    var rows, o := step.records, step.records[0].body;
    hide Decide, CheckObservation, StartingBook, LedgerOk, CheckReceipt, CheckTransition, Row;
    hide CommandFor, ObservationFor, EconomicFor, StartOf;
    HeaderForced(h, j, s, o);
    ReceiptEconomics(h, s, rows, DecisionOf(h, j, s, rows).book.current);
    ObservationForced(h, j, s, step);
    CommandForced(h, StartingBook(h, j, s, o).value, s, o, InputOf(step));
  }

  lemma RowsAssemble(h: History, j: Ledger, s: HistoryStep, input: Input, rows: seq<Record>, before: State, e: Effect)
    requires Shaped(rows) && WellRowed(h, rows)
    requires CheckTransition(rows, before, e).Pass? && CheckReceipt(h, s, rows, e.book.current).Pass?
    requires rows[0] == ObservationFor(h, j, s, input, rows[0].body.command, before)
    requires rows[0].body.command.Kind() == s.kind && rows[0].body.command.source == SOURCE
    requires rows[0].body.command.externalId == s.id && rows[0].body.command.invocationId == INVOCATION
    requires rows[0].body.requestHash == RequestHash(rows[0].body.command)
    requires rows[|rows| - 1].body.replay == ReplayFor(h, j, s, rows[..|rows| - 1])
    ensures rows == StepRows(h, j, s, input, rows[0].body.command, before, e)
  {
    hide CheckTransition, CheckReceipt, Row, ReferenceTo, ReplayFor, ObservationFor, LeadingRows, ReceiptFor;
    var n := |rows| - 1;
    TransitionForced(h, j, s, input, rows, before, e);
    ReceiptForced(h, j, s, rows, e);
    assert rows == rows[..n] + [rows[n]];
  }

  /** The records of an accepted step are the machine's records for the inputs they observed. */
  lemma RecordsForced(h: History, j: Ledger, s: HistoryStep, step: VectorStep)
    requires LedgerOk(h, j) && Shaped(step.records) && WellRowed(h, step.records)
    requires DecisionPasses(h, j, s, step.records) && ReplayPasses(h, j, s, step.records)
    ensures var o, input := step.records[0].body, InputOf(step);
            var b := StartingBook(h, j, s, o).value;
            && StartOf(h, j, input) == Ok(b) && CommandFor(h, s, input) == Some(o.command) && o.before == b.current
            && step.records == StepRows(h, j, s, input, o.command, b.current, DecisionOf(h, j, s, step.records))
  {
    var rows, input := step.records, InputOf(step);
    hide InputOf, Decide, CheckObservation, StartingBook, LedgerOk, CheckReceipt, CheckTransition, WellRowed;
    hide ReferenceTo, ReplayFor, Consistent, CommandFor, ObservationFor, StartOf, StepRows;
    HeadForced(h, j, s, step);
    RowsAssemble(h, j, s, input, rows, StartingBook(h, j, s, rows[0].body).value.current, DecisionOf(h, j, s, rows));
  }
}
