/** The replay closure of every accepted history, exactly: what it holds, how large it is, and so how
    long a history can get. */
module Replays {
  import opened Wrappers
  import opened Records
  import opened Capacity
  import opened Accounting
  import opened Journal
  import opened Registry
  import opened Exactness
  import opened Completeness
  import opened Histories
  import opened Lookups

  // ----- what the closure holds -----

  function ContextReferences(h: History): set<Reference> {
    AnchorReferences(AnchorOf(h)) + {GrantOf(h), EvidenceOf(h)}
  }

  /** The economic receipts of the first `n` steps; closes have none. */
  function EconomicReferences(h: History, n: nat): set<Reference>
    requires n <= |h.steps|
  {
    set i | 0 <= i < n && !h.steps[i].kind.CloseKind? :: EconomicOf(h, h.steps[i].id)
  }

  /** Every record of the given steps. */
  function RecordReferences(steps: seq<VectorStep>): set<Reference> {
    if steps == [] then {}
    else RecordReferences(steps[..|steps| - 1]) + RowReferences(steps[|steps| - 1].records)
  }

  /** The closure after `n` steps; nothing is retained before registration. */
  function ClosureAfter(h: History, steps: seq<VectorStep>): set<Reference>
    requires |steps| <= |h.steps|
  {
    if steps == [] then {} else ContextReferences(h) + EconomicReferences(h, |steps|) + RecordReferences(steps)
  }

  lemma ExternalSplit(h: History, s: HistoryStep)
    ensures External(h, s) == ContextReferences(h) + (if s.kind.CloseKind? then {} else {EconomicOf(h, s.id)})
  {
  }

  lemma EconomicStep(h: History, n: nat)
    requires n < |h.steps|
    ensures EconomicReferences(h, n + 1)
            == EconomicReferences(h, n) + (if h.steps[n].kind.CloseKind? then {} else {EconomicOf(h, h.steps[n].id)})
  {
    hide EconomicOf;
  }

  lemma RowReferencesSplit(rows: seq<Record>)
    requires rows != []
    ensures RowReferences(rows) == RowReferences(rows[..|rows| - 1]) + {ReferenceTo(rows[|rows| - 1])}
  {
    hide ReferenceTo;
    var n := |rows| - 1;
    forall r | r in RowReferences(rows)
      ensures r in RowReferences(rows[..n]) + {ReferenceTo(rows[n])}
    {
      var i :| 0 <= i < |rows| && r == ReferenceTo(rows[i]);
      if i < n {
        assert rows[..n][i] == rows[i];
      }
    }
    LeadingReferences(rows, rows[..n]);
  }

  /** The receipt of these rows replays what was retained before, the step's context and the other rows;
      what is retained afterwards is that and the receipt. */
  ghost predicate Extends(h: History, s: HistoryStep, before: set<Reference>, rows: seq<Record>,
          after: set<Reference>)
  {
    && Shaped(rows)
    && var last := rows[|rows| - 1];
    && last.body.replay == before + External(h, s) + RowReferences(rows[..|rows| - 1])
    && |last.body.replay| <= MAX_REPLAY
    && after == before + External(h, s) + RowReferences(rows)
  }

  /** One step's closure: everything before it, its own context, and its records. */
  lemma StepClosure(h: History, sizes: Sizes, j: Ledger, s: HistoryStep, step: VectorStep)
    requires Accept(h, sizes, j, s, step).Ok?
    ensures Extends(h, s, j.prior, step.records, Accept(h, sizes, j, s, step).value.prior)
  {
    hide Accept, CheckRows, RegisterRows, DecisionPasses, Consistent, ReferenceTo, External, RowReferences,
         StoredOf;
    AcceptUnfolds(h, sizes, j, s, step);
    RowReferencesSplit(step.records);
  }

  lemma ClosureSplit(h: History, steps: seq<VectorStep>)
    requires 0 < |steps| <= |h.steps|
    ensures var n := |steps| - 1;
            ClosureAfter(h, steps) == ContextReferences(h) + EconomicReferences(h, n) + RecordReferences(steps[..n])
              + (if h.steps[n].kind.CloseKind? then {} else {EconomicOf(h, h.steps[n].id)})
                  + RowReferences(steps[n].records)
  {
    hide ContextReferences, EconomicReferences, RowReferences, EconomicOf;
    EconomicStep(h, |steps| - 1);
  }

  /** The closure of a prefix with the context added is the same set for the empty prefix too. */
  lemma ClosurePrefix(h: History, n: nat, steps: seq<VectorStep>)
    requires n == |steps| <= |h.steps|
    ensures ClosureAfter(h, steps) + ContextReferences(h)
            == ContextReferences(h) + EconomicReferences(h, n) + RecordReferences(steps)
  {
    hide ContextReferences, EconomicOf;
    assert steps == [] ==> RecordReferences(steps) == {};
    NoEconomics(h);
    hide EconomicReferences, RecordReferences;
  }

  lemma {:induction false} PriorExact(h: History, sizes: Sizes, steps: seq<VectorStep>)
    requires AuditSteps(h, sizes, steps).Ok?
    ensures |steps| <= |h.steps| && AuditSteps(h, sizes, steps).value.prior == ClosureAfter(h, steps)
  {
    hide Accept, External, ContextReferences, EconomicReferences, RecordReferences, RowReferences, EconomicOf;
    if steps != [] {
      var n := |steps| - 1;
      PriorExact(h, sizes, steps[..n]);
      StepClosure(h, sizes, AuditSteps(h, sizes, steps[..n]).value, h.steps[n], steps[n]);
      hide AuditSteps;
      ExternalSplit(h, h.steps[n]);
      ClosureSplit(h, steps);
      ClosurePrefix(h, n, steps[..n]);
      hide ClosureAfter;
    }
  }

  lemma NoEconomics(h: History)
    ensures EconomicReferences(h, 0) == {}
  {
  }

  /** The last receipt replays exactly the context, the economic receipts up to its step, every record
      of the earlier steps, and its step's own records before it. */
  ghost predicate ReplaysExactly(h: History, steps: seq<VectorStep>) {
    && 0 < |steps| <= |h.steps| && Shaped(steps[|steps| - 1].records)
    && var n := |steps| - 1; var rows := steps[n].records;
    rows[|rows| - 1].body.replay
    == ContextReferences(h) + EconomicReferences(h, n + 1) + RecordReferences(steps[..n])
        + RowReferences(rows[..|rows| - 1])
  }

  lemma ReplayExact(h: History, sizes: Sizes, steps: seq<VectorStep>)
    requires steps != [] && AuditSteps(h, sizes, steps).Ok?
    ensures ReplaysExactly(h, steps)
  {
    hide Accept, External, ContextReferences, EconomicReferences, RecordReferences, RowReferences, EconomicOf,
         ClosureAfter;
    var n := |steps| - 1;
    PriorExact(h, sizes, steps[..n]);
    StepClosure(h, sizes, AuditSteps(h, sizes, steps[..n]).value, h.steps[n], steps[n]);
    hide AuditSteps;
    ExternalSplit(h, h.steps[n]);
    EconomicStep(h, n);
    ClosurePrefix(h, n, steps[..n]);
  }

  // ----- how large it is -----

  function NonCloses(h: History, n: nat): nat
    requires n <= |h.steps|
  {
    if n == 0 then 0 else NonCloses(h, n - 1) + (if h.steps[n - 1].kind.CloseKind? then 0 else 1)
  }

  function RecordCount(steps: seq<VectorStep>): nat {
    if steps == [] then 0 else RecordCount(steps[..|steps| - 1]) + |steps[|steps| - 1].records|
  }

  lemma ContextCount(h: History)
    ensures |ContextReferences(h)| == 6
  {
    var a := AnchorOf(h);
    assert ContextReferences(h)
        == {a.baseAcceptance, a.bindingSnapshot, a.targetSnapshot, a.invocationAuthorization, GrantOf(h),
            EvidenceOf(h)};
  }

  lemma LastIsDistinct(scope: Scope, used: set<RecordKey>, rows: seq<Record>)
    requires rows != [] && FreshKeys(scope, used, rows)
    ensures ReferenceTo(rows[|rows| - 1]) !in RowReferences(rows[..|rows| - 1])
  {
    hide ReferenceTo, KeyOf;
    var n := |rows| - 1;
    forall i | 0 <= i < n
      ensures ReferenceTo(rows[..n][i]) != ReferenceTo(rows[n])
    {
      assert rows[..n][i] == rows[i];
      assert RowKey(scope, rows[i]) != RowKey(scope, rows[n]);
    }
  }

  lemma {:induction false} RowReferenceCount(scope: Scope, used: set<RecordKey>, rows: seq<Record>)
    requires FreshKeys(scope, used, rows)
    ensures |RowReferences(rows)| == |rows|
  {
    hide ReferenceTo, FreshKeys, RowKeys, RowKey;
    if rows == [] {
      assert RowReferences(rows) == {};
    } else {
      KeysSplit(scope, used, rows);
      RowReferenceCount(scope, used, rows[..|rows| - 1]);
      LastIsDistinct(scope, used, rows);
      RowReferencesSplit(rows);
      hide RowReferences;
    }
  }

  /** A step's economic receipt and records are all new to the closure. */
  lemma StepIsNew(h: History, sizes: Sizes, j: Ledger, s: HistoryStep, step: VectorStep)
    requires LedgerOk(h, j) && Accept(h, sizes, j, s, step).Ok?
    ensures |RowReferences(step.records)| == |step.records|
    ensures forall r :: r in RowReferences(step.records) ==> r.kind.OfRow? && r !in j.references
    ensures j.prior <= j.references
  {
    var input := InputOf(step);
    ReadyOf(h, sizes, j, s, step);
    var command, b := CommandFor(h, s, input).value, StartOf(h, j, input).value;
    var e := Decide(h, b, s, command, input.acceptedAt).value;
    hide Accept, Decide, StartOf, CommandFor, StepRows, InputOf, Ready, RowMentions, RowKeys, ReferenceTo,
         RowReferences, LedgerOk, StoredOf;
    ProducedFresh(h, j, s, input, command, b, e);
    DistinctRowsConsistent(h.scope, j.identities, step.records);
    RowReferenceCount(h.scope, j.identities, step.records);
    LedgerRegistries(h, j);
    LedgerPrior(h, j);
    forall r | r in RowReferences(step.records)
      ensures r !in j.references
    {
      assert r in j.references ==> WellMade(h, j.identities, r);
    }
  }

  lemma DistinctIds(h: History, sizes: Sizes, steps: seq<VectorStep>)
    requires AuditSteps(h, sizes, steps).Ok?
    ensures |steps| <= |h.steps|
    ensures forall i, j :: 0 <= i < j < |steps| ==> h.steps[i].id != h.steps[j].id
  {
    AuditIndexed(h, sizes, steps);
    hide AuditSteps, IndexedAt;
    forall i, j | 0 <= i < j < |steps|
      ensures h.steps[i].id != h.steps[j].id
    {
      assert KeyAt(h, i) != KeyAt(h, j);
    }
  }

  /** The economic receipt of a step with a new id belongs to no earlier step and is no context. */
  lemma EconomicIsNew(h: History, n: nat)
    requires n < |h.steps| && forall i :: 0 <= i < n ==> h.steps[i].id != h.steps[n].id
    ensures EconomicOf(h, h.steps[n].id) !in ContextReferences(h) + EconomicReferences(h, n)
  {
  }

  lemma {:induction false} RecordReferencesAreRows(steps: seq<VectorStep>, r: Reference)
    requires r in RecordReferences(steps)
    ensures r.kind.OfRow?
  {
    var n := |steps| - 1;
    if r in RecordReferences(steps[..n]) {
      RecordReferencesAreRows(steps[..n], r);
    }
  }

  lemma GrowCount(before: set<Reference>, economic: set<Reference>, rows: set<Reference>, whole: set<Reference>)
    requires whole == before + economic + rows && before !! economic && (before + economic) !! rows
    ensures |whole| == |before| + |economic| + |rows|
  {
    assert |before + economic| == |before| + |economic|;
  }

  /** The closure counts every accepted input and record once. */
  lemma {:induction false} ClosureCount(h: History, sizes: Sizes, steps: seq<VectorStep>)
    requires steps != [] && AuditSteps(h, sizes, steps).Ok?
    ensures |steps| <= |h.steps|
    ensures |ClosureAfter(h, steps)| == 6 + NonCloses(h, |steps|) + RecordCount(steps)
  {
    hide Accept, LedgerOk, EconomicReferences, RowReferences, RecordReferences, ContextReferences, EconomicOf,
         ClosureAfter;
    var n := |steps| - 1;
    var j := AuditSteps(h, sizes, steps[..n]).value;
    AuditSound(h, sizes, steps[..n]);
    PriorExact(h, sizes, steps[..n]);
    DistinctIds(h, sizes, steps);
    StepIsNew(h, sizes, j, h.steps[n], steps[n]);
    if n > 0 {
      ClosureCount(h, sizes, steps[..n]);
    }
    hide AuditSteps;
    CountStep(h, steps, j.prior);
  }

  lemma CountStep(h: History, steps: seq<VectorStep>, prior: set<Reference>)
    requires 0 < |steps| <= |h.steps| && prior == ClosureAfter(h, steps[..|steps| - 1])
    requires forall i :: 0 <= i < |steps| - 1 ==> h.steps[i].id != h.steps[|steps| - 1].id
    requires var rows := RowReferences(steps[|steps| - 1].records);
             |rows| == |steps[|steps| - 1].records| && forall r :: r in rows ==> r.kind.OfRow? && r !in prior
    requires |steps| > 1 ==> |prior| == 6 + NonCloses(h, |steps| - 1) + RecordCount(steps[..|steps| - 1])
    ensures |ClosureAfter(h, steps)| == 6 + NonCloses(h, |steps|) + RecordCount(steps)
  {
    hide EconomicReferences, RowReferences, RecordReferences, ContextReferences;
    var n := |steps| - 1;
    var before := ContextReferences(h) + EconomicReferences(h, n) + RecordReferences(steps[..n]);
    var economic := if h.steps[n].kind.CloseKind? then {} else {EconomicOf(h, h.steps[n].id)};
    var rows := RowReferences(steps[n].records);
    ContextCount(h);
    EconomicIsNew(h, n);
    ClosureSplit(h, steps);
    RecordsApart(h, steps[..n], economic);
    ContextNoRows(h, rows);
    EconomicsNoRows(h, n, rows);
    NoEconomics(h);
    ClosurePart(h, steps[..n]);
    hide ClosureAfter;
    GrowCount(before, economic, rows, ClosureAfter(h, steps));
  }

  lemma ClosurePart(h: History, steps: seq<VectorStep>)
    requires |steps| <= |h.steps|
    ensures steps == [] ==> RecordReferences(steps) == {}
    ensures steps != [] ==>
              ClosureAfter(h, steps) == ContextReferences(h) + EconomicReferences(h, |steps|) + RecordReferences(steps)
  {
  }

  lemma RecordsApart(h: History, steps: seq<VectorStep>, economic: set<Reference>)
    requires forall r :: r in economic ==> !r.kind.OfRow?
    ensures RecordReferences(steps) !! economic
  {
    forall r | r in RecordReferences(steps)
      ensures r !in economic
    {
      RecordReferencesAreRows(steps, r);
    }
  }

  lemma ContextNoRows(h: History, rows: set<Reference>)
    requires forall r :: r in rows ==> r.kind.OfRow?
    ensures ContextReferences(h) !! rows
  {
  }

  lemma EconomicsNoRows(h: History, n: nat, rows: set<Reference>)
    requires n < |h.steps| && forall r :: r in rows ==> r.kind.OfRow?
    ensures EconomicReferences(h, n) !! rows && EconomicOf(h, h.steps[n].id) !in rows
  {
  }

  // ----- how long a history can get -----

  /** Three-row steps are exactly the state changes, so the records count out to the revision. */
  lemma StepRecords(h: History, sizes: Sizes, j: Ledger, s: HistoryStep, step: VectorStep)
    requires LedgerOk(h, j) && Accept(h, sizes, j, s, step).Ok?
    ensures var next := Accept(h, sizes, j, s, step).value;
            && next.book.Some?
            && |step.records| == 2
               + (next.book.value.current.revision - (if j.book.Some? then j.book.value.current.revision else 0))
            && (s.kind.RegisterKind? <==> j.book.None?)
  {
    ReadyOf(h, sizes, j, s, step);
    var input := InputOf(step);
    var command, b := CommandFor(h, s, input).value, StartOf(h, j, input).value;
    var e := Decide(h, b, s, command, input.acceptedAt).value;
    hide Accept, Decide, CommandFor, InputOf, Ready, RowMentions, RowKeys, ReferenceTo, LedgerOk, StoredOf,
         StepRows, Sound, ReceiptsOk, StateSchema, StateCheck, TermsInSchema, SortedPermissions, LeadingRows,
         ObservationFor, TransitionFor, ReceiptFor;
    ReadyParts(h, j, s, input, command, b, e);
    ReadySound(h, j, s, input, command, b, e);
    RowsAre(h, j, s, input, command, b.current, e);
    if j.book.None? {
      OpeningRevision(h, j, input);
    }
    StepRevision(h, j, s, input, command, b, e);
  }

  lemma OpeningRevision(h: History, j: Ledger, input: Input)
    requires j.book.None? && StartOf(h, j, input).Ok?
    ensures StartOf(h, j, input).value.current.revision == 0
  {
  }

  lemma StepRevision(h: History, j: Ledger, s: HistoryStep, input: Input, command: Command, b: Book, e: Effect)
    requires Ready(h, j, s, input, command, b, e)
    ensures e.book.current.revision == b.current.revision + (if e.book.current != b.current then 1 else 0)
  {
    hide Ready, Decide, LedgerOk, Sound, ReceiptsOk, StateSchema, StateCheck, TermsInSchema;
    ReadySound(h, j, s, input, command, b, e);
  }

  lemma {:induction false} RecordsAreRevisions(h: History, sizes: Sizes, steps: seq<VectorStep>)
    requires steps != [] && AuditSteps(h, sizes, steps).Ok?
    ensures var j := AuditSteps(h, sizes, steps).value;
            j.book.Some? && RecordCount(steps) == 2 * |steps| + j.book.value.current.revision
  {
    hide Accept, LedgerOk;
    var n := |steps| - 1;
    AuditSound(h, sizes, steps[..n]);
    StepRecords(h, sizes, AuditSteps(h, sizes, steps[..n]).value, h.steps[n], steps[n]);
    if n > 0 {
      RecordsAreRevisions(h, sizes, steps[..n]);
    }
  }

  /** The size of the last receipt's replay set, counted out. */
  ghost predicate ReplayCounts(h: History, steps: seq<VectorStep>, revision: int) {
    && 0 < |steps| <= |h.steps| && Shaped(steps[|steps| - 1].records)
    && var rows := steps[|steps| - 1].records;
    |rows[|rows| - 1].body.replay| == 5 + NonCloses(h, |steps|) + 2 * |steps| + revision <= MAX_REPLAY
  }

  lemma ReplayCount(h: History, sizes: Sizes, steps: seq<VectorStep>)
    requires steps != [] && AuditSteps(h, sizes, steps).Ok?
    ensures var j := AuditSteps(h, sizes, steps).value;
            j.book.Some? && ReplayCounts(h, steps, j.book.value.current.revision)
  {
    hide Accept, LedgerOk, External, RowReferences, ReferenceTo, ClosureAfter;
    var n := |steps| - 1;
    var rows := steps[n].records;
    var j := AuditSteps(h, sizes, steps[..n]).value;
    AuditSound(h, sizes, steps[..n]);
    StepClosure(h, sizes, j, h.steps[n], steps[n]);
    RecordsAreRevisions(h, sizes, steps);
    ClosureCount(h, sizes, steps);
    PriorExact(h, sizes, steps);
    StepIsNew(h, sizes, j, h.steps[n], steps[n]);
    ExternalNoRows(h, h.steps[n]);
    hide AuditSteps;
    RowReferencesSplit(rows);
    LastNotLeading(rows);
    var replay, last := rows[|rows| - 1].body.replay, ReferenceTo(rows[|rows| - 1]);
    assert last in RowReferences(rows);
    assert replay + {last} == ClosureAfter(h, steps);
    assert last !in replay;
  }

  lemma ExternalNoRows(h: History, s: HistoryStep)
    ensures forall r :: r in External(h, s) ==> !r.kind.OfRow?
  {
  }

  lemma LastNotLeading(rows: seq<Record>)
    requires rows != [] && |RowReferences(rows)| == |rows|
    ensures ReferenceTo(rows[|rows| - 1]) !in RowReferences(rows[..|rows| - 1])
  {
    hide ReferenceTo;
    var n := |rows| - 1;
    RowReferencesSplit(rows);
    AtMostRows(rows[..n]);
    var leading, last := RowReferences(rows[..n]), ReferenceTo(rows[n]);
    assert last in leading ==> leading + {last} == leading;
  }

  lemma {:induction false} AtMostRows(rows: seq<Record>)
    ensures |RowReferences(rows)| <= |rows|
  {
    hide ReferenceTo;
    if rows == [] {
      assert RowReferences(rows) == {};
    } else {
      AtMostRows(rows[..|rows| - 1]);
      RowReferencesSplit(rows);
    }
  }

  /** A shut book over at least one family has left revision 0. */
  lemma ShutHasMoved(t: Terms, b: Book)
    requires Sound(t, b) && Shut(b.current) && t.families != map[]
    ensures 1 <= b.current.revision
  {
    var f :| f in t.families;
    assert FamilyOk(t, b, f);
    assert f in b.live ==> |b.live| != 0;
    assert b.current.families[Key(t, f)].status.Closed? ==> AnyWith(b.current, Closed);
    assert b.current.families[Key(t, f)].status.Open? ==> AnyWith(b.current, Open);
  }

  /** The first step after registration must be a claim or a close that changes something. */
  lemma DecisionMoves(h: History, b: Book, s: HistoryStep, command: Command, now: int)
    requires Sound(h.terms, b) && h.terms.families != map[] && !command.Register?
    requires Decide(h, b, s, command, now).Ok?
    ensures 1 <= Decide(h, b, s, command, now).value.book.current.revision
  {
    hide ApplyClaim, ApplyCorrection, ApplyClose, FamiliesOk, WithinCeilings, Shut, AfterClose;
    match command
    case Ordinary(_, _, _, _, _) => ClaimSound(h.terms, b, s.family.value, s.amount.value, EconomicOf(h, s.id), now);
    case PostHoc(_, _, _, _, _) =>
      CorrectionSound(h.terms, b, s.family.value, s.amount.value, now);
      assert |b.live| != 0;
    case Close(_, _, _, reason, expected) =>
      CloseSound(h.terms, b, reason, expected, s.earlyAuthorized, now);
      ShutHasMoved(h.terms, Decide(h, b, s, command, now).value.book);
  }

  lemma LaterRevision(h: History, sizes: Sizes, j: Ledger, s: HistoryStep, step: VectorStep)
    requires LedgerOk(h, j) && j.book.Some? && Accept(h, sizes, j, s, step).Ok?
    ensures var next := Accept(h, sizes, j, s, step).value; next.book.Some? && 1 <= next.book.value.current.revision
  {
    hide Accept, Decide, CommandFor, InputOf, Ready, RowMentions, RowKeys, ReferenceTo, LedgerOk, StoredOf,
         StepRows, Sound, ReceiptsOk, StateSchema, StateCheck, SortedPermissions, StartOf;
    ReadyOf(h, sizes, j, s, step);
    var input := InputOf(step);
    var command, b := CommandFor(h, s, input).value, StartOf(h, j, input).value;
    var e := Decide(h, b, s, command, input.acceptedAt).value;
    ReadyParts(h, j, s, input, command, b, e);
    ReadySound(h, j, s, input, command, b, e);
    CommandShape(h, s, input);
    DecisionMoves(h, b, s, command, input.acceptedAt);
  }

  lemma {:induction false} FirstIsEconomic(h: History, sizes: Sizes, steps: seq<VectorStep>)
    requires steps != [] && AuditSteps(h, sizes, steps).Ok?
    ensures |steps| <= |h.steps| && 1 <= NonCloses(h, |steps|)
    ensures AuditSteps(h, sizes, steps).value.book.Some?
  {
    hide Accept, LedgerOk;
    var n := |steps| - 1;
    AuditSound(h, sizes, steps[..n]);
    StepRecords(h, sizes, AuditSteps(h, sizes, steps[..n]).value, h.steps[n], steps[n]);
    if n > 0 {
      FirstIsEconomic(h, sizes, steps[..n]);
    }
  }

  const MAX_STEPS := 508

  /** The replay limit of 1024 allows no accepted history more than 508 steps. */
  lemma HistoryBound(h: History, sizes: Sizes, steps: seq<VectorStep>)
    requires AuditSteps(h, sizes, steps).Ok?
    ensures |steps| <= MAX_STEPS
  {
    hide Accept, LedgerOk;
    var n := |steps| - 1;
    if n >= 1 {
      FirstIsEconomic(h, sizes, steps);
      FirstIsEconomic(h, sizes, steps[..n]);
      AuditSound(h, sizes, steps[..n]);
      LaterRevision(h, sizes, AuditSteps(h, sizes, steps[..n]).value, h.steps[n], steps[n]);
      ReplayCount(h, sizes, steps);
    }
  }
}
