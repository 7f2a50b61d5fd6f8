/** The bound on the length of a history is attained: one registration, one close that takes effect and
    closes that change nothing make an accepted history of every length up to the bound, for every
    reasonable measure of bytes. */
module LongHistory {
  import opened Wrappers
  import opened Records
  import opened Capacity
  import opened Accounting
  import opened Journal
  import opened Registry
  import opened Exactness
  import opened Completeness
  import opened Histories
  import opened Replays

  const TERMS := Terms("history", 1000, 0, 0, 1000, map["family" := 0])

  /** The sizes under which no limit on bytes refuses anything. */
  const NO_BYTES := Sizes(_ => 0, _ => 0)

  function Letter(n: nat): char
    requires n < 26
  {
    'a' + n as char
  }

  function Named(n: nat): string { [Letter(n / 26 % 26), Letter(n % 26)] }

  lemma NamedApart(i: nat, n: nat)
    requires i < n < 26 * 26
    ensures Named(i) != Named(n)
  {
  }

  function StepFor(i: nat): HistoryStep {
    HistoryStep(if i == 0 then RegisterKind else CloseKind, Named(i), None, None, true)
  }

  function HistoryOf(n: nat): History {
    Journal.History.History(TERMS, Scope("tenant", "environment"), Unit("USD", 2),
        seq(n, i requires 0 <= i < n => StepFor(i)))
  }

  /** Every close names the current revision: zero for the first, one afterwards. */
  function InputFor(i: nat): Input {
    if i == 0 then Input(None, 0, 0, "principal", 1, [CanRead, CanSubmit])
    else Input(Some(CloseDetail(Authorized, if i == 1 then 0 else 1)), 0, 0, "principal", 1, [CanClose, CanRead])
  }

  /** What the audit has reached after the first `n` steps. */
  ghost predicate After(n: nat, j: Ledger) {
    && (forall k :: k in j.deliveries ==> exists i: nat :: i < n && k.externalId == Named(i))
    && if n == 0 then j == EMPTY
       else
         && j.book.Some? && j.book.value.clock == 0
         && (Shut(j.book.value.current) <==> n != 1)
         && j.book.value.current.revision == if n == 1 then 0 else 1
  }

  lemma InputAdmissible(m: nat, n: nat, j: Ledger)
    requires n < m <= MAX_STEPS && After(n, j)
    ensures Admissible(HistoryOf(m), j, StepFor(n), InputFor(n))
    ensures CommandFor(HistoryOf(m), StepFor(n), InputFor(n)).Some?
  {
    hide Named;
    var k := DeliveryKey(HistoryOf(m).scope, SOURCE, Named(n));
    if k in j.deliveries {
      var i: nat :| i < n && k.externalId == Named(i);
      NamedApart(i, n);
      assert false;
    }
  }

  lemma OpensUnshut(m: nat)
    ensures OpenReservation(TERMS, 0) == Ok(Book(BaseState(TERMS), map[], map[], 0))
    ensures !Shut(BaseState(TERMS)) && BaseState(TERMS).revision == 0
  {
    var s := BaseState(TERMS);
    assert "family" in TERMS.families;
    assert s.families[Key(TERMS, "family")].status.Open?;
    assert AnyWith(s, Open);
  }

  lemma ClosesShut(s: State)
    ensures Shut(AfterClose(s))
  {
  }

  /** The decision of each step, and where it leaves the book. */
  lemma DecisionOk(m: nat, n: nat, j: Ledger)
    requires n < m && After(n, j)
    ensures StartOf(HistoryOf(m), j, InputFor(n)).Ok?
    ensures var h, s, input := HistoryOf(m), StepFor(n), InputFor(n);
            var b, command := StartOf(h, j, input).value, CommandFor(h, s, input).value;
            && input.acceptedAt == 0 && Decide(h, b, s, command, 0).Ok?
            && var after := Decide(h, b, s, command, 0).value.book.current;
            && (Shut(after) <==> n != 0) && after.revision == (if n == 0 then 0 else 1)
            && (after != b.current <==> n == 1)
  {
    OpensUnshut(m);
    hide OpenReservation, Shut, BaseState;
    if n == 0 {
      assert CommandFor(HistoryOf(m), StepFor(n), InputFor(n)).value.Register?;
    } else {
      CloseOutcome(j.book.value, Authorized, if n == 1 then 0 else 1, true, 0);
      ClosesShut(j.book.value.current);
    }
  }

  // ----- the replay closure fits -----

  lemma UnionCount<T>(a: set<T>, b: set<T>)
    ensures |a + b| <= |a| + |b|
  {
    assert a + b == a + (b - a);
    assert |b| == |b - a| + |b * a| by {
      assert b == (b - a) + (b * a);
    }
  }

  lemma {:induction false} OneNonClose(m: nat, n: nat)
    requires 1 <= n <= m
    ensures NonCloses(HistoryOf(m), n) == 1
  {
    if n > 1 {
      OneNonClose(m, n - 1);
    } else {
      assert NonCloses(HistoryOf(m), 0) == 0;
    }
  }

  lemma ExternalCount(h: History, s: HistoryStep)
    ensures |External(h, s)| <= 7
  {
    ExternalSplit(h, s);
    ContextCount(h);
    hide ContextReferences, External;
    UnionCount(ContextReferences(h), if s.kind.CloseKind? then {} else {EconomicOf(h, s.id)});
  }

  /** The audit has reached this ledger after the steps. */
  ghost predicate Stands(m: nat, steps: seq<VectorStep>, j: Ledger) {
    |steps| <= m && AuditSteps(HistoryOf(m), NO_BYTES, steps) == Ok(j) && After(|steps|, j)
  }

  /** What was retained after the first steps. */
  lemma PriorCount(m: nat, steps: seq<VectorStep>, j: Ledger)
    requires Stands(m, steps, j) && steps != []
    ensures ContextReferences(HistoryOf(m)) <= j.prior
    ensures |j.prior| == 7 + 2 * |steps| + (if |steps| == 1 then 0 else 1)
  {
    var h := HistoryOf(m);
    hide AuditSteps, ContextReferences, RecordReferences, EconomicReferences, HistoryOf, Shut;
    PriorExact(h, NO_BYTES, steps);
    ClosureCount(h, NO_BYTES, steps);
    RecordsAreRevisions(h, NO_BYTES, steps);
    OneNonClose(m, |steps|);
  }

  lemma NothingRetained(m: nat, j: Ledger)
    requires Stands(m, [], j)
    ensures j.prior == {}
  {
  }

  /** What is retained, with what the next step relies on. */
  lemma RetainedCount(m: nat, steps: seq<VectorStep>, j: Ledger)
    requires Stands(m, steps, j)
    ensures |j.prior + External(HistoryOf(m), StepFor(|steps|))| <= 7 + 2 * |steps| + (if |steps| < 2 then 0 else 1)
  {
    var h, s := HistoryOf(m), StepFor(|steps|);
    hide Stands, External, ContextReferences, HistoryOf, StepFor;
    if steps == [] {
      NothingRetained(m, j);
      ExternalCount(h, s);
      assert {} + External(h, s) == External(h, s);
    } else {
      PriorCount(m, steps, j);
      ExternalSplit(h, s);
      LaterStep(|steps|);
      assert j.prior + ContextReferences(h) == j.prior;
      assert j.prior + External(h, s) == j.prior;
    }
  }

  lemma LaterStep(n: nat)
    requires n > 0
    ensures StepFor(n).kind.CloseKind?
  {
  }

  lemma ReplayFits(m: nat, steps: seq<VectorStep>, j: Ledger, leading: seq<Record>)
    requires Stands(m, steps, j) && |steps| < m <= MAX_STEPS
    requires |leading| == if |steps| == 1 then 2 else 1
    ensures |ReplayFor(HistoryOf(m), j, StepFor(|steps|), leading)| <= MAX_REPLAY
  {
    RetainedCount(m, steps, j);
    hide Stands, External, RowReferences, HistoryOf, StepFor;
    AtMostRows(leading);
    JoinCount(j.prior, External(HistoryOf(m), StepFor(|steps|)), RowReferences(leading));
  }

  lemma JoinCount<T>(a: set<T>, b: set<T>, c: set<T>)
    ensures |a + (b + c)| <= |a + b| + |c|
  {
    assert a + (b + c) == (a + b) + c;
    UnionCount(a + b, c);
  }

  lemma {:induction false} NoBytes(rows: seq<Record>)
    ensures WithinLimits(NO_BYTES, rows) && TotalBytes(NO_BYTES, rows) == 0
  {
    if rows != [] {
      NoBytes(rows[..|rows| - 1]);
    }
  }

  // ----- every length is accepted -----

  /** Nothing but the size of the replay can keep the machine from writing a step without bytes. */
  lemma Written(h: History, j: Ledger, s: HistoryStep, input: Input)
    requires Admissible(h, j, s, input) && CommandFor(h, s, input).Some? && StartOf(h, j, input).Ok?
    requires var b, command := StartOf(h, j, input).value, CommandFor(h, s, input).value;
             && Decide(h, b, s, command, input.acceptedAt).Ok?
             && var e := Decide(h, b, s, command, input.acceptedAt).value;
             |ReplayFor(h, j, s, LeadingRows(h, j, s, input, command, b.current, e))| <= MAX_REPLAY
    ensures Produce(h, NO_BYTES, j, s, input).Some?
  {
    hide Admissible, StartOf, CommandFor, Decide, WithinLimits, ReplayFor, ReferenceTo, LeadingRows;
    var b, command := StartOf(h, j, input).value, CommandFor(h, s, input).value;
    var e := Decide(h, b, s, command, input.acceptedAt).value;
    NoBytes(StepRows(h, j, s, input, command, b.current, e));
  }

  lemma Produced(m: nat, steps: seq<VectorStep>, j: Ledger)
    requires Stands(m, steps, j) && |steps| < m <= MAX_STEPS
    ensures Produce(HistoryOf(m), NO_BYTES, j, StepFor(|steps|), InputFor(|steps|)).Some?
  {
    var h, n := HistoryOf(m), |steps|;
    var s, input := StepFor(n), InputFor(n);
    InputAdmissible(m, n, j);
    DecisionOk(m, n, j);
    hide Stands, Admissible, StartOf, CommandFor, Decide, HistoryOf, StepFor, InputFor, After, ReplayFor, LeadingRows,
         Shut, Produce;
    var b, command := StartOf(h, j, input).value, CommandFor(h, s, input).value;
    var e := Decide(h, b, s, command, input.acceptedAt).value;
    ReplayFits(m, steps, j, LeadingRows(h, j, s, input, command, b.current, e));
    Written(h, j, s, input);
  }

  lemma Accepted(m: nat, steps: seq<VectorStep>, j: Ledger) returns (step: VectorStep, next: Ledger)
    requires Stands(m, steps, j) && |steps| < m <= MAX_STEPS
    ensures Accept(HistoryOf(m), NO_BYTES, j, StepFor(|steps|), step) == Ok(next) && After(|steps| + 1, next)
    ensures InputOf(step) == InputFor(|steps|)
  {
    var h, n := HistoryOf(m), |steps|;
    var s, input := StepFor(n), InputFor(n);
    AuditSound(h, NO_BYTES, steps);
    Produced(m, steps, j);
    DecisionOk(m, n, j);
    hide AuditSteps, Accept, Decide, Admissible, WithinLimits, LedgerOk, StepRows, RowKeys, RowMentions, ReferenceTo,
         Shut, InputOf, StartOf, CommandFor, HistoryOf, Produce, Ready, Named, After;
    var produced := Produce(h, NO_BYTES, j, s, input).value;
    step, next := produced.0, produced.1;
    ProducedIsAccepted(h, NO_BYTES, j, s, input);
    ReadyOf(h, NO_BYTES, j, s, step);
    AfterNext(n, j, next);
  }

  lemma AfterNext(n: nat, j: Ledger, next: Ledger)
    requires After(n, j) && next.book.Some? && next.book.value.clock == 0
    requires Shut(next.book.value.current) <==> n != 0
    requires next.book.value.current.revision == if n == 0 then 0 else 1
    requires forall k :: k in next.deliveries ==> k in j.deliveries || k.externalId == Named(n)
    ensures After(n + 1, next)
  {
    hide Shut, Named;
  }

  lemma {:induction false} Reaches(m: nat, n: nat) returns (steps: seq<VectorStep>, j: Ledger)
    requires n <= m <= MAX_STEPS
    ensures |steps| == n && Stands(m, steps, j)
    ensures forall i :: 0 <= i < n ==> InputOf(steps[i]) == InputFor(i)
  {
    hide Accept, After, StepFor, InputOf, InputFor;
    if n == 0 {
      steps, j := [], EMPTY;
      AfterNothing();
    } else {
      var before, i := Reaches(m, n - 1);
      var step, next := Accepted(m, before, i);
      steps, j := before + [step], next;
      assert steps[..n - 1] == before;
      assert HistoryOf(m).steps[n - 1] == StepFor(n - 1);
    }
  }

  lemma AfterNothing()
    ensures After(0, EMPTY)
  {
  }

  // ----- what the limits on bytes have to do with it -----

  ghost predicate AllWithin(sizes: Sizes, steps: seq<VectorStep>) {
    forall i :: 0 <= i < |steps| ==> WithinLimits(sizes, steps[i].records)
  }

  lemma RowsWithin(h: History, sizes: Sizes, step: VectorStep)
    ensures CheckRows(h, sizes, step).Pass?
       <==> CheckRows(h, NO_BYTES, step).Pass? && WithinLimits(sizes, step.records)
  {
    hide SchemaOk, Row;
    var rows := step.records;
    EachRowChecked(h, sizes, rows);
    EachRowChecked(h, NO_BYTES, rows);
    NoBytes(rows);
    hide CheckEachRow;
  }

  lemma StepWithin(h: History, sizes: Sizes, j: Ledger, s: HistoryStep, step: VectorStep)
    ensures Accept(h, sizes, j, s, step).Ok?
       <==> Accept(h, NO_BYTES, j, s, step).Ok? && WithinLimits(sizes, step.records)
    ensures Accept(h, sizes, j, s, step).Ok? ==> Accept(h, sizes, j, s, step) == Accept(h, NO_BYTES, j, s, step)
  {
    RowsWithin(h, sizes, step);
    hide CheckRows, RegisterRows, Resolve, CheckTransition, CheckReceipt, Replay, WithinLimits, NextLedger, DeliveryOf;
  }

  /** The measure of bytes decides nothing but whether the written rows are within the limits. */
  lemma {:induction false} SizesExact(h: History, sizes: Sizes, steps: seq<VectorStep>)
    ensures AuditSteps(h, sizes, steps).Ok? <==> AuditSteps(h, NO_BYTES, steps).Ok? && AllWithin(sizes, steps)
    ensures AuditSteps(h, sizes, steps).Ok? ==> AuditSteps(h, sizes, steps) == AuditSteps(h, NO_BYTES, steps)
  {
    hide Accept, WithinLimits;
    if 0 < |steps| <= |h.steps| {
      var n := |steps| - 1;
      SizesExact(h, sizes, steps[..n]);
      assert steps == steps[..n] + [steps[n]];
      if AuditSteps(h, NO_BYTES, steps[..n]).Ok? {
        StepWithin(h, sizes, AuditSteps(h, NO_BYTES, steps[..n]).value, h.steps[n], steps[n]);
      }
    }
  }

  // ----- rows whose bytes are their references' -----

  const ROW_BYTES := 4096
  const REFERENCE_BYTES := 240

  /** The body of a row takes so many bytes for every reference in it and so many for everything else, and
      so many more around it. */
  ghost predicate CompactRow(sizes: Sizes, r: Record) {
    && sizes.body(r.body) <= ROW_BYTES + REFERENCE_BYTES * |Mentions(r.body)|
    && sizes.record(r) <= sizes.body(r.body) + ROW_BYTES
  }

  ghost predicate Compact(sizes: Sizes, steps: seq<VectorStep>) {
    forall i, k :: 0 <= i < |steps| && 0 <= k < |steps[i].records| ==> CompactRow(sizes, steps[i].records[k])
  }

  lemma {:induction false} ReceiptsCount(families: map<FamilyKey, Family>, keys: set<FamilyKey>)
    requires keys <= families.Keys
    ensures |set k | k in keys && families[k].ordinaryReceipt.Some? :: families[k].ordinaryReceipt.value| <= |keys|
  {
    if keys != {} {
      var x :| x in keys;
      var rest := keys - {x};
      ReceiptsCount(families, rest);
      UnionCount(set k | k in rest && families[k].ordinaryReceipt.Some? :: families[k].ordinaryReceipt.value,
                 Present(families[x].ordinaryReceipt));
      assert (set k | k in keys && families[k].ordinaryReceipt.Some? :: families[k].ordinaryReceipt.value)
          == (set k | k in rest && families[k].ordinaryReceipt.Some? :: families[k].ordinaryReceipt.value)
             + Present(families[x].ordinaryReceipt);
    }
  }

  lemma StateCount(s: State)
    requires StateSchema(s)
    ensures |StateReferences(s)| <= MAX_FAMILIES
  {
    ReceiptsCount(s.families, s.families.Keys);
    assert |s.families.Keys| == |s.families|;
    assert StateReferences(s)
        == set k | k in s.families.Keys && s.families[k].ordinaryReceipt.Some? :: s.families[k].ordinaryReceipt.value;
  }

  lemma {:induction false} MemberCount<T>(s: seq<T>)
    ensures |set x | x in s| <= |s|
  {
    if s != [] {
      MemberCount(s[1..]);
      assert (set x | x in s) == (set x | x in s[1..]) + {s[0]};
      UnionCount(set x | x in s[1..], {s[0]});
    }
  }

  lemma ReceiptCount(body: Body)
    requires SchemaOk(body) && body.Receipt?
    ensures |Mentions(body)| <= MAX_REPLAY + MAX_FAMILIES + 3
  {
    hide StateSchema, StateReferences;
    StateCount(body.result);
    var first := {body.observation} + Present(body.transition);
    UnionCount(first, StateReferences(body.result));
    UnionCount(first + StateReferences(body.result), body.replay);
    UnionCount(first + StateReferences(body.result) + body.replay, Present(body.economicReceipt));
  }

  lemma TransitionCount(body: Body)
    requires SchemaOk(body) && body.Transition?
    ensures |Mentions(body)| <= 2 * MAX_FAMILIES + 1
  {
    hide StateSchema, StateReferences;
    StateCount(body.before);
    StateCount(body.after);
    UnionCount({body.observation}, StateReferences(body.before));
    UnionCount({body.observation} + StateReferences(body.before), StateReferences(body.after));
  }

  lemma ContextMentions(anchor: Anchor, before: State, authority: Authority)
    requires StateSchema(before) && |authority.evidence| <= 16
    ensures |AnchorReferences(anchor) + StateReferences(before) + {authority.grant}
              + (set e | e in authority.evidence)| <= MAX_FAMILIES + 21
  {
    hide StateSchema, StateReferences;
    StateCount(before);
    MemberCount(authority.evidence);
    FourCount(AnchorReferences(anchor), StateReferences(before), {authority.grant}, set e | e in authority.evidence);
  }

  lemma ObservationCount(body: Body)
    requires SchemaOk(body) && body.Observation?
    ensures |Mentions(body)| <= MAX_FAMILIES + 24
  {
    hide StateSchema, StateReferences, UniqueItems, AnchorReferences;
    ContextMentions(body.anchor, body.before, body.authority);
    var mentioned := AnchorReferences(body.anchor) + StateReferences(body.before) + {body.authority.grant}
                     + (set e | e in body.authority.evidence);
    FourCount(mentioned, Present(body.registration), Present(body.previous), Present(body.economicReceipt));
  }

  lemma FourCount<T>(a: set<T>, b: set<T>, c: set<T>, d: set<T>)
    ensures |a + b + c + d| <= |a| + |b| + |c| + |d|
  {
    UnionCount(a, b);
    UnionCount(a + b, c);
    UnionCount(a + b + c, d);
  }

  lemma CompactWithin(h: History, sizes: Sizes, r: Record)
    requires CheckRow(h, NO_BYTES, r).Pass? && CompactRow(sizes, r)
    ensures sizes.body(r.body) <= MAX_BODY_BYTES && sizes.record(r) <= MAX_BODY_BYTES + ROW_BYTES
  {
    hide Mentions, SchemaOk;
    match r.body
    case Observation(_, _, _, _, _, _, _, _, _, _, _) => ObservationCount(r.body);
    case Transition(_, _, _, _, _, _) => TransitionCount(r.body);
    case Receipt(_, _, _, _, _, _, _, _, _) => ReceiptCount(r.body);
  }

  lemma {:induction false} BytesBound(sizes: Sizes, rows: seq<Record>, most: nat)
    requires forall i :: 0 <= i < |rows| ==> sizes.record(rows[i]) <= most
    ensures TotalBytes(sizes, rows) <= |rows| * most
  {
    if rows != [] {
      BytesBound(sizes, rows[..|rows| - 1], most);
    }
  }

  lemma CompactStep(h: History, sizes: Sizes, j: Ledger, s: HistoryStep, step: VectorStep)
    requires Accept(h, NO_BYTES, j, s, step).Ok?
    requires forall k :: 0 <= k < |step.records| ==> CompactRow(sizes, step.records[k])
    ensures WithinLimits(sizes, step.records)
  {
    hide CheckRow, CompactRow, RegisterRows, Resolve, CheckTransition, CheckReceipt, Replay;
    var rows := step.records;
    EachRowChecked(h, NO_BYTES, rows);
    forall k | 0 <= k < |rows|
      ensures sizes.body(rows[k].body) <= MAX_BODY_BYTES && sizes.record(rows[k]) <= MAX_BODY_BYTES + ROW_BYTES
    {
      CompactWithin(h, sizes, rows[k]);
    }
    BytesBound(sizes, rows, MAX_BODY_BYTES + ROW_BYTES);
  }

  lemma {:induction false} CompactFits(h: History, sizes: Sizes, steps: seq<VectorStep>)
    requires AuditSteps(h, NO_BYTES, steps).Ok? && Compact(sizes, steps)
    ensures AllWithin(sizes, steps)
  {
    hide Accept, CompactRow, WithinLimits;
    if steps != [] {
      var n := |steps| - 1;
      CompactFits(h, sizes, steps[..n]);
      CompactStep(h, sizes, AuditSteps(h, NO_BYTES, steps[..n]).value, h.steps[n], steps[n]);
    }
  }

  // ----- the lengths of accepted histories -----

  /** Printable text within the length that the audit allows. */
  predicate PlainText(s: string) { 0 < |s| <= 128 && forall i | 0 <= i < |s| :: ' ' <= s[i] <= '~' }

  ghost predicate PlainTexts(h: History, steps: seq<VectorStep>) {
    && PlainText(h.scope.tenant) && PlainText(h.scope.environment)
    && (forall i :: 0 <= i < |h.steps| ==> PlainText(h.steps[i].id))
    && (forall i :: 0 <= i < |steps| ==> PlainText(InputOf(steps[i]).principal))
  }

  lemma TextsPlain(n: nat, steps: seq<VectorStep>)
    requires forall i :: 0 <= i < |steps| ==> InputOf(steps[i]) == InputFor(i)
    ensures PlainTexts(HistoryOf(n), steps)
  {
    hide InputOf;
  }

  /** A vector that is accepted whatever the measure of bytes, as long as its rows are compact. */
  ghost predicate Acceptable(h: History, v: Vector) {
    PlainTexts(h, v.steps) && forall sizes :: Compact(sizes, v.steps) ==> Audit(h, sizes, v).Ok?
  }

  /** Every length up to the bound is that of an acceptable history, and no accepted history is longer. */
  lemma LengthsExact(n: nat)
    ensures n <= MAX_STEPS ==> exists h: History, v :: |h.steps| == n && Acceptable(h, v)
    ensures n > MAX_STEPS ==> forall h: History, sizes, v :: |h.steps| == n ==> Audit(h, sizes, v).Err?
  {
    hide AuditSteps, After, PlainTexts, InputOf, Compact, AllWithin;
    if n <= MAX_STEPS {
      var steps, j := Reaches(n, n);
      var h, v := HistoryOf(n), Vector(TERMS.name, steps);
      TextsPlain(n, steps);
      forall sizes | Compact(sizes, steps) ensures Audit(h, sizes, v).Ok? {
        CompactFits(h, sizes, steps);
        SizesExact(h, sizes, steps);
      }
      assert |h.steps| == n && Acceptable(h, v);
    } else {
      forall h: History, sizes, v | |h.steps| == n ensures Audit(h, sizes, v).Err? {
        if Audit(h, sizes, v).Ok? {
          HistoryBound(h, sizes, v.steps);
        }
      }
    }
  }
}
