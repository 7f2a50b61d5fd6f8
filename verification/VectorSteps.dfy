/** Every step of an accepted vector is as described. */
module VectorSteps {
  import opened Wrappers
  import opened Records
  import opened Capacity
  import opened Accounting
  import opened Journal
  import opened Registry
  import opened Exactness
  import opened Completeness
  import opened Histories
  import opened Lookups
  import opened Replays
  import opened AcceptedHistories
  import opened Vectors

  // ----- what the audit carries -----

  /** The head and the references that the audit carries after these steps, told by the records. */
  ghost predicate CarriesHead(steps: seq<VectorStep>, j: Ledger) {
    if steps == [] then j == EMPTY
    else
      var first, last := steps[0], steps[|steps| - 1];
      && InShape(first) && InShape(last) && j.book.Some?
      && j.book.value.clock == last.records[0].body.acceptedAt
      && j.book.value.current == ReceiptOf(last).body.result
      && j.registration == Some(ReceiptRef(ReceiptOf(first))) && j.previous == Some(ReceiptRef(ReceiptOf(last)))
  }

  ghost predicate HasDelivered(h: History, n: nat, j: Ledger)
    requires n <= |h.steps|
  {
    forall id :: DeliveryKey(h.scope, SOURCE, id) in j.deliveries <==> exists k :: 0 <= k < n && h.steps[k].id == id
  }

  lemma ReceiptForKind(r: Record)
    requires r.body.Receipt?
    ensures ReferenceTo(r) == ReceiptRef(r)
  {
  }

  lemma ShapedInShape(step: VectorStep)
    ensures Shaped(step.records) <==> InShape(step)
  {
  }

  lemma CarriesBooks(h: History, sizes: Sizes, j: Ledger, s: HistoryStep, step: VectorStep)
    requires LedgerOk(h, j) && Accept(h, sizes, j, s, step).Ok?
    ensures var next := Accept(h, sizes, j, s, step).value;
            && InShape(step) && next.book.Some? && next.book.value.clock == step.records[0].body.acceptedAt
            && next.book.value.current == ReceiptOf(step).body.result
            && next.registration == (if j.book.None? then Some(ReceiptRef(ReceiptOf(step))) else j.registration)
            && next.previous == Some(ReceiptRef(ReceiptOf(step)))
  {
    var input := InputOf(step);
    ReadyOf(h, sizes, j, s, step);
    var command, b := CommandFor(h, s, input).value, StartOf(h, j, input).value;
    var e := Decide(h, b, s, command, input.acceptedAt).value;
    RegistrationKept(h, j);
    hide Accept, Decide, CommandFor, InputOf, Ready, RowMentions, RowKeys, ReferenceTo, StoredOf, StartOf, StepRows,
         Sound, ReceiptsOk, StateSchema, StateCheck, TermsInSchema, LeadingRows, ObservationFor, TransitionFor,
         RegistriesOk, Shaped, InShape;
    RowsAre(h, j, s, input, command, b.current, e);
    ShapedInShape(step);
    ReceiptForKind(ReceiptOf(step));
  }

  lemma HeadStep(h: History, sizes: Sizes, steps: seq<VectorStep>, j: Ledger)
    requires 0 < |steps| <= |h.steps| && LedgerOk(h, j) && CarriesHead(steps[..|steps| - 1], j)
    requires Accept(h, sizes, j, h.steps[|steps| - 1], steps[|steps| - 1]).Ok?
    ensures CarriesHead(steps, Accept(h, sizes, j, h.steps[|steps| - 1], steps[|steps| - 1]).value)
  {
    hide Accept, LedgerOk, InShape;
    var n := |steps| - 1;
    CarriesBooks(h, sizes, j, h.steps[n], steps[n]);
    if n > 0 {
      assert steps[..n][0] == steps[0];
    }
  }

  lemma {:induction false} AuditHead(h: History, sizes: Sizes, steps: seq<VectorStep>)
    requires AuditSteps(h, sizes, steps).Ok?
    ensures CarriesHead(steps, AuditSteps(h, sizes, steps).value)
  {
    hide Accept, LedgerOk, CarriesHead;
    if steps == [] {
      HeadEmpty();
    } else {
      var n := |steps| - 1;
      AuditHead(h, sizes, steps[..n]);
      AuditSound(h, sizes, steps[..n]);
      HeadStep(h, sizes, steps, AuditSteps(h, sizes, steps[..n]).value);
    }
  }

  lemma HeadEmpty()
    ensures CarriesHead([], EMPTY)
  {
  }

  lemma AuditDelivered(h: History, sizes: Sizes, steps: seq<VectorStep>)
    requires AuditSteps(h, sizes, steps).Ok?
    ensures |steps| <= |h.steps| && HasDelivered(h, |steps|, AuditSteps(h, sizes, steps).value)
  {
    hide AuditSteps, Indexed, HasDelivered;
    AuditIndexed(h, sizes, steps);
    IndexedIds(h, steps, AuditSteps(h, sizes, steps).value);
  }

  lemma IndexedIds(h: History, steps: seq<VectorStep>, j: Ledger)
    requires Indexed(h, steps, j.deliveries)
    ensures |steps| <= |h.steps| && HasDelivered(h, |steps|, j)
  {
    forall id ensures DeliveryKey(h.scope, SOURCE, id) in j.deliveries <==>
        exists k :: 0 <= k < |steps| && h.steps[k].id == id
    {
      var key := DeliveryKey(h.scope, SOURCE, id);
      if key in j.deliveries {
        var k :| 0 <= k < |steps| && key == KeyAt(h, k);
        assert h.steps[k].id == id;
      }
      if k :| 0 <= k < |steps| && h.steps[k].id == id {
        assert IndexedAt(h, steps, j.deliveries, k);
      }
    }
  }

  // ----- the carried references -----

  lemma TrustedSame(h: History, s: HistoryStep)
    ensures AnchorOf(h) == Anchor(Trusted(BaseAcceptance, h.terms.name, BaseAcceptanceRole),
                                  Trusted(BindingSnapshot, h.terms.name, BindingRole),
                                  Trusted(TargetSnapshot, h.terms.name, TargetRole),
                                  Trusted(Evidence, h.terms.name, InvocationRole))
    ensures GrantOf(h) == Trusted(Evidence, h.terms.name, GrantRole)
    ensures EvidenceOf(h) == Trusted(Evidence, h.terms.name, AuthorityEvidenceRole)
    ensures EconomicFor(h, s) == Economic(h, s)
  {
  }

  lemma RowRefs(step: VectorStep)
    requires InShape(step)
    ensures RowReferences(step.records) == RecordRefs(step)
    ensures RowReferences(step.records[..|step.records| - 1]) == LeadingRefs(step)
  {
    var rows := step.records;
    var n := |rows| - 1;
    RowReferencesSplit(rows);
    RowReferencesSplit(rows[..n]);
    assert rows[..n][..n - 1] == rows[..n - 1];
    if n == 1 {
      assert rows[..n][..0] == [];
    } else {
      RowReferencesSplit(rows[..1]);
      assert rows[..2][..1] == rows[..1] && rows[..1][..0] == [];
    }
    assert RowReferences([]) == {};
  }

  lemma {:induction false} EarlierRefs(steps: seq<VectorStep>)
    requires forall k :: 0 <= k < |steps| ==> InShape(steps[k])
    ensures RecordReferences(steps) == set k, r | 0 <= k < |steps| && r in RecordRefs(steps[k]) :: r
  {
    hide RowReferences, RecordRefs, InShape;
    if steps != [] {
      var n := |steps| - 1;
      EarlierRefs(steps[..n]);
      RowRefs(steps[n]);
      forall k | 0 <= k < n ensures steps[..n][k] == steps[k] {
      }
    }
  }

  lemma EconomicRefs(h: History, n: nat)
    requires n < |h.steps|
    ensures EconomicReferences(h, n + 1)
         == set k | 0 <= k <= n && Economic(h, h.steps[k]).Some? :: Economic(h, h.steps[k]).value
  {
  }

  lemma ContextRefs(h: History)
    ensures ContextReferences(h) ==
      {Trusted(BaseAcceptance, h.terms.name, BaseAcceptanceRole), Trusted(BindingSnapshot, h.terms.name, BindingRole),
       Trusted(TargetSnapshot, h.terms.name, TargetRole), Trusted(Evidence, h.terms.name, InvocationRole),
       Trusted(Evidence, h.terms.name, GrantRole), Trusted(Evidence, h.terms.name, AuthorityEvidenceRole)}
  {
  }

  lemma CarriedPieces(h: History, steps: seq<VectorStep>, n: nat)
    requires n < |steps| <= |h.steps| && forall k :: 0 <= k <= n ==> InShape(steps[k])
    ensures Carried(h, steps, n)
         == ContextReferences(h) + EconomicReferences(h, n + 1) + RecordReferences(steps[..n]) + LeadingRefs(steps[n])
  {
    hide EconomicReferences, RecordReferences, ContextReferences, Economic, RecordRefs, LeadingRefs, InShape, Trusted;
    ContextRefs(h);
    EconomicRefs(h, n);
    EarlierRefs(steps[..n]);
    assert (set k, r | 0 <= k < n && r in RecordRefs(steps[..n][k]) :: r)
        == (set k, r | 0 <= k < n && r in RecordRefs(steps[k]) :: r);
  }

  lemma Regroup<T>(closure: set<T>, context: set<T>, economics: set<T>, records: set<T>, economic: set<T>,
          leading: set<T>)
    requires closure + context == context + economics + records
    ensures closure + ((context + economic) + leading) == context + (economics + economic) + records + leading
  {
  }

  /** What the receipt of step `n` must carry is what the audit retained and what the step adds. */
  lemma CarriedIsReplay(h: History, steps: seq<VectorStep>, n: nat)
    requires n < |steps| <= |h.steps| && forall k :: 0 <= k <= n ==> InShape(steps[k])
    ensures Carried(h, steps, n)
         == ClosureAfter(h, steps[..n])
            + (External(h, h.steps[n]) + RowReferences(steps[n].records[..|steps[n].records| - 1]))
  {
    hide *;
    var economic := if h.steps[n].kind.CloseKind? then {} else {EconomicOf(h, h.steps[n].id)};
    ExternalSplit(h, h.steps[n]);
    ClosurePrefix(h, n, steps[..n]);
    EconomicStep(h, n);
    CarriedPieces(h, steps, n);
    RowRefs(steps[n]);
    Regroup(ClosureAfter(h, steps[..n]), ContextReferences(h), EconomicReferences(h, n), RecordReferences(steps[..n]),
            economic, LeadingRefs(steps[n]));
  }

  // ----- small equivalences -----

  lemma PermissionsExact(ps: seq<Permission>)
    ensures SortedPermissions(ps) <==> PermissionsInOrder(ps)
  {
    forall i, j | 0 <= i < j < |ps| ensures Rank(ps[i]) < Rank(ps[j]) <==> NamedBefore(ps[i], ps[j]) {
    }
  }

  /** A claim or a correction says of which family of the terms and how much. */
  predicate NamesFamily(h: History, s: HistoryStep) {
    s.kind.OrdinaryKind? || s.kind.PostHocKind? ==>
      s.family.Some? && s.family.value in h.terms.families && s.amount.Some?
  }

  lemma CommandExact(h: History, s: HistoryStep, input: Input, c: Command)
    requires c.Close? ==> input.close == Some(CloseDetail(c.reason, c.expectedRevision))
    ensures CommandSays(h, s, c) ==> CommandFor(h, s, input) == Some(c)
    ensures CommandFor(h, s, input) == Some(c) && NamesFamily(h, s) ==> CommandSays(h, s, c)
  {
  }

  lemma AuthorityExact(h: History, s: HistoryStep, a: Authority)
    ensures AuthoritySays(h, s, a)
       <==> && a == Authority(a.principal, GrantOf(h), a.grantRevision, true, a.permissions, [EvidenceOf(h)])
            && 1 <= a.grantRevision <= MAX_REVISION && SortedPermissions(a.permissions)
            && CanRead in a.permissions && WritePermission(s.kind) in a.permissions
  {
    PermissionsExact(a.permissions);
    TrustedSame(h, s);
    hide PermissionsInOrder, SortedPermissions;
  }

  lemma OpeningExact(h: History, s: State, now: int)
    ensures TermsSay(h) ==> TermsInSchema(h) && OpenReservation(h.terms, now).Ok?
    ensures TermsInSchema(h) && OpenReservation(h.terms, now).Ok? ==> TermsSay(h)
    ensures OpeningSays(h.terms, s) <==> s == BaseState(h.terms)
    ensures OpenReservation(h.terms, now).Ok? ==> OpenReservation(h.terms, now).value.current == BaseState(h.terms)
  {
    if OpeningSays(h.terms, s) {
      assert s.families == BaseState(h.terms).families;
    }
  }

  lemma DecisionDeltas(h: History, b: Book, s: HistoryStep, command: Command, now: int)
    requires Sound(h.terms, b) && Decide(h, b, s, command, now).Ok?
    ensures var e := Decide(h, b, s, command, now).value;
            && e.consume == e.book.current.consumed - b.current.consumed
            && e.release == e.book.current.released - b.current.released
  {
    hide ApplyClaim, ApplyCorrection, ApplyClose, FamiliesOk, WithinCeilings;
    match command
    case Register(_, _, _, _) =>
    case Ordinary(_, _, _, _, _) => ClaimSound(h.terms, b, s.family.value, s.amount.value, EconomicOf(h, s.id), now);
    case PostHoc(_, _, _, _, _) => CorrectionSound(h.terms, b, s.family.value, s.amount.value, now);
    case Close(_, _, _, reason, expected) =>
      CloseSound(h.terms, b, reason, expected, s.earlyAuthorized, now);
  }

  lemma DecisionNames(h: History, b: Book, s: HistoryStep, input: Input, command: Command, now: int)
    requires CommandFor(h, s, input) == Some(command) && Decide(h, b, s, command, now).Ok?
    ensures NamesFamily(h, s)
  {
    hide ApplyClaim, ApplyCorrection, ApplyClose;
  }

  lemma ActionDecides(h: History, b: Book, s: HistoryStep, input: Input, command: Command, now: int)
    requires CommandSays(h, s, command) && CommandFor(h, s, input) == Some(command) && !s.kind.RegisterKind?
    requires b.clock <= now
    ensures Advance(h.terms, b, Timed(ActionOf(h, s, input), now)) == Decide(h, b, s, command, now)
  {
    hide ApplyClaim, ApplyCorrection, ApplyClose;
  }

  // ----- an accepted step is as described -----

  lemma WrittenObservation(h: History, j: Ledger, s: HistoryStep, input: Input, command: Command, before: State,
          r: Record)
    requires r == ObservationFor(h, j, s, input, command, before) && CommandSays(h, s, command)
    requires Admissible(h, j, s, input)
    ensures ObservationSays(h, s, r)
  {
    TrustedSame(h, s);
    AuthorityExact(h, s, r.body.authority);
    hide CommandSays, AuthoritySays, SortedPermissions, Trusted, Economic;
  }

  lemma WrittenTransition(h: History, step: VectorStep, before: State, e: Effect)
    requires InShape(step) && step.records[0].body.before == before
    requires ReceiptOf(step).body.result == e.book.current && (|step.records| == 3 <==> e.book.current != before)
    requires |step.records| == 3 ==> step.records[1] == TransitionFor(h, step.records[0], before, e)
    requires e.consume == e.book.current.consumed - before.consumed
    requires e.release == e.book.current.released - before.released
    ensures TransitionSays(h, step)
  {
  }

  lemma WrittenReceipt(h: History, steps: seq<VectorStep>, n: nat, j: Ledger, command: Command, e: Effect)
    requires n < |steps| <= |h.steps| && forall k :: 0 <= k <= n ==> InShape(steps[k])
    requires var rows := steps[n].records;
             && ReceiptOf(steps[n]) == ReceiptFor(h, j, h.steps[n], command, rows[..|rows| - 1], e)
             && rows[0].body.command == command && |ReceiptOf(steps[n]).body.replay| <= MAX_REPLAY
    requires j.prior == ClosureAfter(h, steps[..n])
    ensures ReceiptSays(h, steps, n)
  {
    hide ClosureAfter, External, RowReferences, Carried;
    CarriedIsReplay(h, steps, n);
    TrustedSame(h, h.steps[n]);
  }

  /** The rows of an accepted step, as the machine writes them. */
  lemma RowsWritten(h: History, sizes: Sizes, j: Ledger, s: HistoryStep, step: VectorStep) returns (b: Book, e: Effect)
    requires LedgerOk(h, j) && Accept(h, sizes, j, s, step).Ok?
    ensures InShape(step) && |ReceiptOf(step).body.replay| <= MAX_REPLAY
    ensures var command := step.records[0].body.command;
            && CommandSays(h, s, command) && Admissible(h, j, s, InputOf(step))
            && Decide(h, b, s, command, InputOf(step).acceptedAt) == Ok(e) && Sound(h.terms, b)
            && step.records == StepRows(h, j, s, InputOf(step), command, b.current, e)
  {
    ReadyOf(h, sizes, j, s, step);
    var input := InputOf(step);
    var command := CommandFor(h, s, input).value;
    b := StartOf(h, j, input).value;
    e := Decide(h, b, s, command, input.acceptedAt).value;
    hide Accept, Decide, CommandFor, InputOf, Ready, RowMentions, RowKeys, ReferenceTo, StoredOf, StartOf,
         StepRows, Sound, ReceiptsOk, StateSchema, TermsInSchema, InShape, LedgerOk, Admissible, CommandSays;
    ReadyParts(h, j, s, input, command, b, e);
    ReadySound(h, j, s, input, command, b, e);
    DecisionNames(h, b, s, input, command, input.acceptedAt);
    ShapedInShape(step);
    ClosesAsRead(step, input);
    CommandExact(h, s, input, command);
  }

  lemma RowsSaid(h: History, sizes: Sizes, steps: seq<VectorStep>, n: nat)
    requires n < |steps| <= |h.steps| && forall k :: 0 <= k <= n ==> InShape(steps[k])
    requires AuditSteps(h, sizes, steps[..n]).Ok?
    requires Accept(h, sizes, AuditSteps(h, sizes, steps[..n]).value, h.steps[n], steps[n]).Ok?
    ensures RowsSay(h, steps, n)
  {
    var j, s, step := AuditSteps(h, sizes, steps[..n]).value, h.steps[n], steps[n];
    AuditSound(h, sizes, steps[..n]);
    PriorExact(h, sizes, steps[..n]);
    assert InShape(step);
    var b, e := RowsWritten(h, sizes, j, s, step);
    var input, command := InputOf(step), step.records[0].body.command;
    hide AuditSteps, Accept, Decide, InputOf, StepRows, Sound, LeadingRows, TransitionFor, ReceiptFor, InShape,
         LedgerOk, ClosureAfter, Admissible, CommandSays, ObservationSays, TransitionSays, ReceiptSays, ObservationFor;
    RowsAre(h, j, s, input, command, b.current, e);
    WrittenObservation(h, j, s, input, command, b.current, step.records[0]);
    DecisionDeltas(h, b, s, command, input.acceptedAt);
    ReceiptResult(h, j, s, command, LeadingRows(h, j, s, input, command, b.current, e), e);
    ObservationBefore(h, j, s, input, command, b.current);
    WrittenTransition(h, step, b.current, e);
    WrittenReceipt(h, steps, n, j, command, e);
  }

  lemma ClosesAsRead(step: VectorStep, input: Input)
    requires Shaped(step.records) && input == InputOf(step)
    ensures var c := step.records[0].body.command;
            c.Close? ==> input.close == Some(CloseDetail(c.reason, c.expectedRevision))
  {
  }

  lemma ReceiptResult(h: History, j: Ledger, s: HistoryStep, command: Command, leading: seq<Record>, e: Effect)
    requires 1 <= |leading| <= 2
    ensures var r := ReceiptFor(h, j, s, command, leading, e); r.body.Receipt? && r.body.result == e.book.current
  {
  }

  lemma ObservationBefore(h: History, j: Ledger, s: HistoryStep, input: Input, command: Command, before: State)
    ensures var o := ObservationFor(h, j, s, input, command, before).body;
            && o.Observation? && o.before == before && o.command == command && o.acceptedAt == input.acceptedAt
            && o.registration == j.registration && o.previous == j.previous
  {
  }

  lemma BytesExact(sizes: Sizes, step: VectorStep)
    requires InShape(step)
    ensures BytesSay(sizes, step)
       <==> step.canonicalUtf8 == CanonicalTexts(step.records) && WithinLimits(sizes, step.records)
  {
    var rows := step.records;
    var n := |rows| - 1;
    assert TotalBytes(sizes, rows) == TotalBytes(sizes, rows[..n]) + sizes.record(rows[n]);
    assert TotalBytes(sizes, rows[..n]) == TotalBytes(sizes, rows[..n][..n - 1]) + sizes.record(rows[n - 1]);
    assert rows[..n][..n - 1] == rows[..n - 1];
    if n == 2 {
      assert TotalBytes(sizes, rows[..1]) == TotalBytes(sizes, rows[..1][..0]) + sizes.record(rows[0]);
    }
    var texts := CanonicalTexts(rows);
    assert |texts| == |rows| && forall k :: 0 <= k < |rows| ==> texts[k] == Canonical(rows[k]);
  }

  lemma ProducedBytes(h: History, sizes: Sizes, j: Ledger, s: HistoryStep, input: Input)
    requires Produce(h, sizes, j, s, input).Some?
    ensures var step := Produce(h, sizes, j, s, input).value.0;
            step.canonicalUtf8 == CanonicalTexts(step.records) && WithinLimits(sizes, step.records)
  {
    hide Admissible, CommandFor, StartOf, Decide, StepRows, CanonicalTexts, WithinLimits;
  }

  lemma BytesSaid(h: History, sizes: Sizes, j: Ledger, s: HistoryStep, step: VectorStep)
    requires LedgerOk(h, j) && Accept(h, sizes, j, s, step).Ok? && InShape(step)
    ensures BytesSay(sizes, step)
  {
    hide Accept, LedgerOk, Produce, InShape, BytesSay, CanonicalTexts, WithinLimits, InputOf;
    AcceptedIsProduced(h, sizes, j, s, step);
    ProducedBytes(h, sizes, j, s, InputOf(step));
    BytesExact(sizes, step);
  }

  lemma PlaceSaid(h: History, sizes: Sizes, steps: seq<VectorStep>, n: nat)
    requires n < |steps| <= |h.steps| && InShape(steps[n]) && AuditSteps(h, sizes, steps[..n]).Ok?
    requires Accept(h, sizes, AuditSteps(h, sizes, steps[..n]).value, h.steps[n], steps[n]).Ok?
    ensures PlaceSays(h, steps, n)
  {
    var j, s, step := AuditSteps(h, sizes, steps[..n]).value, h.steps[n], steps[n];
    AuditSound(h, sizes, steps[..n]);
    AuditHead(h, sizes, steps[..n]);
    ReadyOf(h, sizes, j, s, step);
    var input := InputOf(step);
    var command, b := CommandFor(h, s, input).value, StartOf(h, j, input).value;
    var e := Decide(h, b, s, command, input.acceptedAt).value;
    hide AuditSteps, Accept, Decide, CommandFor, InputOf, Ready, RowMentions, RowKeys, ReferenceTo, StoredOf,
         StepRows, Sound, ReceiptsOk, StateSchema, StateCheck, TermsInSchema, LeadingRows, TransitionFor,
         ObservationFor, ReceiptFor, RegistriesOk, InShape, LedgerOk, SortedPermissions, OpenReservation, OpeningSays,
         TermsSay, BaseState;
    ReadyParts(h, j, s, input, command, b, e);
    RowsAre(h, j, s, input, command, b.current, e);
    ObservationBefore(h, j, s, input, command, b.current);
    OpeningExact(h, b.current, input.acceptedAt);
    if n > 0 {
      assert steps[..n][0] == steps[0];
    }
  }

  lemma ResultSaid(h: History, sizes: Sizes, steps: seq<VectorStep>, n: nat)
    requires n < |steps| <= |h.steps| && AuditSteps(h, sizes, steps[..n + 1]).Ok?
    requires InShape(steps[0]) && InShape(steps[n])
    ensures ResultSays(h, steps, n)
  {
    hide AuditSteps, InShape, Run, Actions;
    AuditIsRun(h, sizes, steps[..n + 1]);
    AuditHead(h, sizes, steps[..n + 1]);
    assert steps[..n + 1][0] == steps[0];
    AcceptanceTime(steps[0]);
  }

  lemma AcceptanceTime(step: VectorStep)
    requires InShape(step)
    ensures InputOf(step).acceptedAt == step.records[0].body.acceptedAt
  {
  }

  lemma FreshSaid(h: History, sizes: Sizes, steps: seq<VectorStep>, n: nat)
    requires n < |steps| <= |h.steps| && AuditSteps(h, sizes, steps[..n + 1]).Ok?
    ensures forall k :: 0 <= k < n ==> h.steps[k].id != h.steps[n].id
  {
    hide AuditSteps, IndexedAt;
    AuditIndexed(h, sizes, steps[..n + 1]);
    forall k | 0 <= k < n ensures h.steps[k].id != h.steps[n].id {
      assert KeyAt(h, k) != KeyAt(h, n);
    }
  }

  lemma {:induction false} AllInShape(h: History, sizes: Sizes, steps: seq<VectorStep>)
    requires AuditSteps(h, sizes, steps).Ok?
    ensures forall k :: 0 <= k < |steps| ==> InShape(steps[k])
  {
    hide Accept, LedgerOk, InShape;
    if steps != [] {
      var n := |steps| - 1;
      AllInShape(h, sizes, steps[..n]);
      AuditSound(h, sizes, steps[..n]);
      CarriesBooks(h, sizes, AuditSteps(h, sizes, steps[..n]).value, h.steps[n], steps[n]);
      assert forall k :: 0 <= k < n ==> steps[k] == steps[..n][k];
    }
  }

  lemma AcceptedPrefix(h: History, sizes: Sizes, steps: seq<VectorStep>, n: nat)
    requires n < |steps| && AuditSteps(h, sizes, steps).Ok?
    ensures |steps| <= |h.steps|
    ensures AuditSteps(h, sizes, steps[..n]).Ok? && AuditSteps(h, sizes, steps[..n + 1]).Ok?
    ensures Accept(h, sizes, AuditSteps(h, sizes, steps[..n]).value, h.steps[n], steps[n]).Ok?
  {
    hide Accept;
    AuditPrefix(h, sizes, steps, n);
    AuditPrefix(h, sizes, steps, n + 1);
    assert steps[..n + 1][..n] == steps[..n];
  }

  /** Every step of an accepted vector is as described. */
  lemma AcceptedSays(h: History, sizes: Sizes, steps: seq<VectorStep>, i: nat)
    requires AuditSteps(h, sizes, steps).Ok? && i < |steps|
    ensures |steps| <= |h.steps| && Says(h, sizes, steps, i)
  {
    hide AuditSteps, Accept, InShape, RowsSay, ObservationSays, TransitionSays, ReceiptSays, ResultSays, BytesSay,
         StartSays, LinkSays, LedgerOk;
    AcceptedPrefix(h, sizes, steps, i);
    AllInShape(h, sizes, steps);
    RowsSaid(h, sizes, steps, i);
    PlaceSaid(h, sizes, steps, i);
    ResultSaid(h, sizes, steps, i);
    FreshSaid(h, sizes, steps, i);
    AuditSound(h, sizes, steps[..i]);
    BytesSaid(h, sizes, AuditSteps(h, sizes, steps[..i]).value, h.steps[i], steps[i]);
  }
}
