/** Every step the machine writes is accepted, and every accepted step is one the machine writes. */
module Completeness {
  import opened Wrappers
  import opened Records
  import opened Capacity
  import opened Accounting
  import opened Journal
  import opened Registry
  import opened Exactness

  // ----- the starting book -----

  lemma StartSound(h: History, j: Ledger, input: Input)
    requires LedgerOk(h, j) && StartOf(h, j, input).Ok?
    ensures Sound(h.terms, StartOf(h, j, input).value) && ReceiptsOk(h, StartOf(h, j, input).value)
    ensures j.book.None? ==> StartOf(h, j, input).value.original == map[]
  {
    hide Sound, RegistriesOk;
    if j.book.None? {
      RegisterSound(h.terms, input.acceptedAt);
    }
  }

  // ----- accepted implies produced -----

  lemma HeaderAdmits(h: History, j: Ledger, s: HistoryStep, step: VectorStep)
    requires Shaped(step.records) && CheckObservation(h, j, s, step.records[0].body).Pass?
    requires StartingBook(h, j, s, step.records[0].body).Ok?
    requires DeliveryOf(h, step.records[0].body) !in j.deliveries && TermsInSchema(h)
    ensures Admissible(h, j, s, InputOf(step))
  {
    hide StateCheck, OpenReservation, TermsInSchema;
  }

  lemma TermsForced(h: History, j: Ledger, s: HistoryStep, o: Body)
    requires LedgerOk(h, j) && o.Observation? && SchemaOk(o) && o.unit == h.unit && StartingBook(h, j, s, o).Ok?
    ensures TermsInSchema(h)
  {
    hide Sound, RegistriesOk, ReceiptsOk;
    if j.book.None? {
      RegisterSound(h.terms, o.acceptedAt);
      SoundInSchema(h, StartingBook(h, j, s, o).value);
    }
  }

  lemma AdmissibleForced(h: History, sizes: Sizes, j: Ledger, s: HistoryStep, step: VectorStep)
    requires LedgerOk(h, j) && Shaped(step.records) && CheckRows(h, sizes, step).Pass?
    requires DeliveryOf(h, step.records[0].body) !in j.deliveries && DecisionPasses(h, j, s, step.records)
    ensures Admissible(h, j, s, InputOf(step))
  {
    RowsForced(h, sizes, step, 0);
    HeaderForced(h, j, s, step.records[0].body);
    hide CheckRows, Decide, CheckReceipt, CheckTransition, LedgerOk, SchemaOk, CheckObservation, StartingBook,
         TermsInSchema, Admissible, InputOf;
    TermsForced(h, j, s, step.records[0].body);
    HeaderAdmits(h, j, s, step);
  }

  lemma LimitsForced(h: History, sizes: Sizes, step: VectorStep)
    requires CheckRows(h, sizes, step).Pass?
    ensures WithinLimits(sizes, step.records) && step.canonicalUtf8 == CanonicalTexts(step.records)
  {
    forall i | 0 <= i < |step.records|
      ensures sizes.body(step.records[i].body) <= MAX_BODY_BYTES
    {
      RowsForced(h, sizes, step, i);
    }
  }

  lemma InputTime(step: VectorStep)
    requires Shaped(step.records)
    ensures InputOf(step).acceptedAt == step.records[0].body.acceptedAt
  {
  }

  lemma AcceptedIsProduced(h: History, sizes: Sizes, j: Ledger, s: HistoryStep, step: VectorStep)
    requires LedgerOk(h, j) && Accept(h, sizes, j, s, step).Ok?
    ensures Produce(h, sizes, j, s, InputOf(step)) == Some((step, Accept(h, sizes, j, s, step).value))
  {
    hide Accept, CheckRows, Admissible, WithinLimits, LedgerOk, WellRowed, RegistriesOk, RegisterRows,
         FreshKeys, Consistent, CheckObservation, CheckTransition, CheckReceipt, StepRows, StartOf,
         CommandFor, Decide, StartingBook, NextLedger, ReferenceTo, RowKeys, RowMentions, InputOf, ReplayFor,
         CanonicalTexts;
    var rows, input := step.records, InputOf(step);
    AcceptUnfolds(h, sizes, j, s, step);
    AdmissibleForced(h, sizes, j, s, step);
    LimitsForced(h, sizes, step);
    AllRowsForced(h, sizes, step);
    LedgerRegistries(h, j);
    RegistriesConsistent(h, j);
    RegisterExact(h.scope, Registries(j.identities, j.references), rows);
    RecordsForced(h, j, s, step);
    InputTime(step);
  }

  // ----- produced implies accepted -----

  lemma {:induction false} RankAtLeast(ps: seq<Permission>, i: nat)
    requires SortedPermissions(ps) && i < |ps|
    ensures i <= Rank(ps[i])
  {
    if i > 0 {
      RankAtLeast(ps, i - 1);
      assert Rank(ps[i - 1]) < Rank(ps[i]);
    }
  }

  lemma SortedFits(ps: seq<Permission>)
    requires SortedPermissions(ps)
    ensures UniqueItems(ps) && |ps| <= 4
  {
    if |ps| > 4 {
      RankAtLeast(ps, 4);
    }
    forall i, k | 0 <= i < k < |ps|
      ensures ps[i] != ps[k]
    {
      assert Rank(ps[i]) < Rank(ps[k]);
    }
  }

  /** A step about to be written: admissible inputs, a sound starting book and an accepted decision. */
  ghost predicate Ready(h: History, j: Ledger, s: HistoryStep, input: Input, command: Command, b: Book, e: Effect) {
    && LedgerOk(h, j) && Admissible(h, j, s, input)
    && CommandFor(h, s, input) == Some(command) && StartOf(h, j, input) == Ok(b)
    && Decide(h, b, s, command, input.acceptedAt) == Ok(e)
  }

  lemma ReadyParts(h: History, j: Ledger, s: HistoryStep, input: Input, command: Command, b: Book, e: Effect)
    requires Ready(h, j, s, input, command, b, e)
    ensures LedgerOk(h, j) && Admissible(h, j, s, input) && StartOf(h, j, input) == Ok(b)
    ensures CommandFor(h, s, input) == Some(command) && Decide(h, b, s, command, input.acceptedAt) == Ok(e)
  {
    hide LedgerOk, Admissible, StartOf, CommandFor, Decide;
  }

  lemma ReadySound(h: History, j: Ledger, s: HistoryStep, input: Input, command: Command, b: Book, e: Effect)
    requires Ready(h, j, s, input, command, b, e)
    ensures Sound(h.terms, b) && ReceiptsOk(h, b) && Sound(h.terms, e.book) && ReceiptsOk(h, e.book)
    ensures TermsInSchema(h) && StateSchema(b.current) && StateSchema(e.book.current)
    ensures StateCheck(b.current) == Pass && StateCheck(e.book.current) == Pass
    ensures Atoms(e.consume) && Atoms(e.release)
    ensures e.book.current != b.current ==> e.book.current.revision == b.current.revision + 1
  {
    hide Ready, Decide, LedgerOk, StartOf, Sound, ReceiptsOk, StateSchema, StateCheck, CommandFor;
    ReadyParts(h, j, s, input, command, b, e);
    StartSound(h, j, input);
    DecisionSound(h, b, s, command, input.acceptedAt);
    SoundInSchema(h, b);
    SoundInSchema(h, e.book);
  }

  lemma CommandInSchema(h: History, b: Book, s: HistoryStep, command: Command, now: int)
    requires Decide(h, b, s, command, now).Ok?
    ensures command.Close? ==> 0 <= command.expectedRevision <= MAX_REVISION_DIGITS
  {
    hide ApplyClaim, ApplyCorrection, CloseAll, Settle;
  }

  lemma ObservationInSchema(h: History, j: Ledger, s: HistoryStep, input: Input, command: Command, b: Book, e: Effect)
    requires Ready(h, j, s, input, command, b, e)
    ensures SchemaOk(ObservationFor(h, j, s, input, command, b.current).body)
  {
    hide Ready, LedgerOk, Sound, ReceiptsOk, StateSchema, StateCheck, UniqueItems, Decide, CommandFor,
         StartOf;
    ReadyParts(h, j, s, input, command, b, e);
    ReadySound(h, j, s, input, command, b, e);
    CommandInSchema(h, b, s, command, input.acceptedAt);
    SortedFits(input.permissions);
    SingleUnique(EvidenceOf(h));
  }

  lemma SingleUnique<T>(x: T)
    ensures UniqueItems([x])
  {
  }

  lemma ProducedAuthority(h: History, j: Ledger, s: HistoryStep, input: Input, command: Command, before: State)
    requires Admissible(h, j, s, input)
    ensures CheckAuthority(h, ObservationFor(h, j, s, input, command, before).body.authority, s.kind).Pass?
  {
    hide SortedPermissions, TermsInSchema;
  }

  lemma ProducedStart(h: History, j: Ledger, s: HistoryStep, input: Input, command: Command, b: Book)
    requires LedgerOk(h, j) && Admissible(h, j, s, input) && StartOf(h, j, input) == Ok(b)
    ensures StartingBook(h, j, s, ObservationFor(h, j, s, input, command, b.current).body) == Ok(b)
  {
    hide Sound, ReceiptsOk, RegistriesOk, TermsInSchema, OpenReservation, SortedPermissions;
  }

  lemma CommandShape(h: History, s: HistoryStep, input: Input)
    requires CommandFor(h, s, input).Some?
    ensures var c := CommandFor(h, s, input).value;
            && c.Kind() == s.kind && c.source == SOURCE && c.externalId == s.id && c.invocationId == INVOCATION
  {
  }

  lemma ProducedHeader(h: History, j: Ledger, s: HistoryStep, input: Input, command: Command, before: State)
    requires Admissible(h, j, s, input) && StateCheck(before) == Pass
    requires command.Kind() == s.kind && command.source == SOURCE && command.externalId == s.id
    requires command.invocationId == INVOCATION
    ensures CheckObservation(h, j, s, ObservationFor(h, j, s, input, command, before).body).Pass?
  {
    ProducedAuthority(h, j, s, input, command, before);
    hide CheckAuthority, StateCheck, SortedPermissions, TermsInSchema;
  }

  lemma ProducedObservation(h: History, j: Ledger, s: HistoryStep, input: Input, command: Command, b: Book, e: Effect)
    requires Ready(h, j, s, input, command, b, e)
    ensures var o := ObservationFor(h, j, s, input, command, b.current).body;
            && CheckObservation(h, j, s, o).Pass? && StartingBook(h, j, s, o) == Ok(b)
            && DeliveryOf(h, o) !in j.deliveries && command.Kind() == s.kind && o.acceptedAt == input.acceptedAt
  {
    hide Ready, Decide, Sound, ReceiptsOk, StateSchema, StateCheck, CommandFor, CheckObservation,
         StartingBook, LedgerOk, StartOf;
    ReadyParts(h, j, s, input, command, b, e);
    ReadySound(h, j, s, input, command, b, e);
    CommandShape(h, s, input);
    ProducedHeader(h, j, s, input, command, b.current);
    ProducedStart(h, j, s, input, command, b);
  }

  lemma ProducedTransition(h: History, j: Ledger, s: HistoryStep, input: Input, command: Command, before: State,
          e: Effect)
    requires command.invocationId == INVOCATION
    ensures CheckTransition(StepRows(h, j, s, input, command, before, e), before, e).Pass?
  {
    hide ReferenceTo, ReplayFor;
    var rows, leading := StepRows(h, j, s, input, command, before, e), LeadingRows(h, j, s, input, command, before, e);
    assert rows == leading + [ReceiptFor(h, j, s, command, leading, e)];
    assert rows[0] == leading[0] && (|rows| == 3 ==> rows[1] == leading[1]);
  }

  lemma ProducedReceipt(h: History, j: Ledger, s: HistoryStep, input: Input, command: Command, before: State,
          e: Effect)
    requires CommandFor(h, s, input) == Some(command) && StateCheck(e.book.current) == Pass
    ensures CheckReceipt(h, s, StepRows(h, j, s, input, command, before, e), e.book.current).Pass?
    ensures command.invocationId == INVOCATION
  {
    hide ReferenceTo, ReplayFor, StateCheck;
    var rows, leading := StepRows(h, j, s, input, command, before, e), LeadingRows(h, j, s, input, command, before, e);
    assert rows == leading + [ReceiptFor(h, j, s, command, leading, e)];
    assert rows[0] == leading[0];
  }

  lemma ProducedDecision(h: History, j: Ledger, s: HistoryStep, input: Input, command: Command, b: Book, e: Effect)
    requires Ready(h, j, s, input, command, b, e)
    ensures var rows := StepRows(h, j, s, input, command, b.current, e);
            && rows[0] == ObservationFor(h, j, s, input, command, b.current) && rows[0].body.command == command
            && DecisionPasses(h, j, s, rows) && DecisionOf(h, j, s, rows) == e
            && StartingBook(h, j, s, rows[0].body) == Ok(b) && DeliveryOf(h, rows[0].body) !in j.deliveries
  {
    hide Ready, StepRows, LeadingRows, LedgerOk, Sound, ReceiptsOk, Admissible, StateCheck, StateSchema,
         Decide, StartOf, CommandFor, CheckObservation, CheckTransition, CheckReceipt, TransitionFor,
         ReceiptFor, StartingBook;
    ReadyParts(h, j, s, input, command, b, e);
    RowsAre(h, j, s, input, command, b.current, e);
    ReadySound(h, j, s, input, command, b, e);
    ProducedObservation(h, j, s, input, command, b, e);
    ProducedReceipt(h, j, s, input, command, b.current, e);
    ProducedTransition(h, j, s, input, command, b.current, e);
  }

  lemma TransitionInSchema(h: History, observation: Record, before: State, e: Effect)
    requires StateSchema(before) && StateSchema(e.book.current) && Atoms(e.consume) && Atoms(e.release)
    ensures SchemaOk(TransitionFor(h, observation, before, e).body)
  {
    hide StateSchema, Atoms;
  }

  lemma ReceiptInSchema(h: History, j: Ledger, s: HistoryStep, command: Command, leading: seq<Record>, e: Effect)
    requires 1 <= |leading| <= 2 && StateSchema(e.book.current)
    requires |ReceiptFor(h, j, s, command, leading, e).body.replay| <= MAX_REPLAY
    ensures SchemaOk(ReceiptFor(h, j, s, command, leading, e).body)
  {
    hide StateSchema, ReplayFor;
  }

  /** The rows of a written step, one by one. */
  lemma RowsAre(h: History, j: Ledger, s: HistoryStep, input: Input, command: Command, before: State, e: Effect)
    ensures var rows := StepRows(h, j, s, input, command, before, e);
            var leading := LeadingRows(h, j, s, input, command, before, e);
            && |rows| == |leading| + 1 && rows[..|leading|] == leading
            && rows[0] == leading[0] == ObservationFor(h, j, s, input, command, before)
            && (|rows| == 3 ==> rows[1] == leading[1] == TransitionFor(h, rows[0], before, e))
            && rows[|rows| - 1] == ReceiptFor(h, j, s, command, leading, e)
            && (|rows| == 3 <==> e.book.current != before)
  {
    hide ObservationFor, TransitionFor, ReceiptFor;
  }

  lemma RowsAreRows(h: History, j: Ledger, s: HistoryStep, input: Input, command: Command, before: State, e: Effect,
          i: nat)
    requires i < |StepRows(h, j, s, input, command, before, e)|
    ensures var r := StepRows(h, j, s, input, command, before, e)[i]; r == Row(h.scope, r.body) && r.scope == h.scope
  {
    RowsAre(h, j, s, input, command, before, e);
    hide StepRows, LeadingRows, ReferenceTo, ReplayFor;
  }

  lemma ProducedSchema(h: History, j: Ledger, s: HistoryStep, input: Input, command: Command, b: Book, e: Effect,
          i: nat)
    requires Ready(h, j, s, input, command, b, e)
    requires var rows := StepRows(h, j, s, input, command, b.current, e);
             i < |rows| && |rows[|rows| - 1].body.replay| <= MAX_REPLAY
    ensures SchemaOk(StepRows(h, j, s, input, command, b.current, e)[i].body)
  {
    hide Ready, Sound, ReceiptsOk, StateCheck, StateSchema, SchemaOk, Atoms, StepRows, LeadingRows,
         ObservationFor, ReceiptFor, TransitionFor;
    ReadySound(h, j, s, input, command, b, e);
    RowsAre(h, j, s, input, command, b.current, e);
    var leading := LeadingRows(h, j, s, input, command, b.current, e);
    if i == |leading| {
      ReceiptInSchema(h, j, s, command, leading, e);
    } else if i == 0 {
      ObservationInSchema(h, j, s, input, command, b, e);
    } else {
      TransitionInSchema(h, leading[0], b.current, e);
    }
  }

  lemma ProducedRows(h: History, sizes: Sizes, j: Ledger, s: HistoryStep, input: Input, command: Command, b: Book,
          e: Effect)
    requires Ready(h, j, s, input, command, b, e)
    requires var rows := StepRows(h, j, s, input, command, b.current, e);
             |rows[|rows| - 1].body.replay| <= MAX_REPLAY && WithinLimits(sizes, rows)
    ensures var rows := StepRows(h, j, s, input, command, b.current, e);
            CheckRows(h, sizes, VectorStep(rows, CanonicalTexts(rows))).Pass?
  {
    var rows := StepRows(h, j, s, input, command, b.current, e);
    hide StepRows, Ready, SchemaOk, Row;
    forall i | 0 <= i < |rows|
      ensures CheckRow(h, sizes, rows[i]).Pass?
    {
      ProducedSchema(h, j, s, input, command, b, e, i);
      RowsAreRows(h, j, s, input, command, b.current, e, i);
    }
    EachRowChecked(h, sizes, rows);
  }

  // ----- no produced row collides -----

  lemma StateReceiptsSynthetic(h: History, b: Book, r: Reference)
    requires FamiliesOk(h.terms, b) && ReceiptsOk(h, b) && r in StateReferences(b.current)
    ensures SyntheticOk(h, r)
  {
    var k :| k in b.current.families && b.current.families[k].ordinaryReceipt == Some(r);
    assert FamilyOk(h.terms, b, k.familyId);
  }

  /** A reference that is already registered, an external input, or one of the step's own rows. */
  ghost predicate Known(h: History, j: Ledger, rows: seq<Record>, r: Reference) {
    r in j.references || SyntheticOk(h, r) || r in RowReferences(rows)
  }

  lemma ObservationMentions(h: History, j: Ledger, s: HistoryStep, input: Input, command: Command, b: Book,
          r: Reference)
    requires LedgerOk(h, j) && FamiliesOk(h.terms, b) && ReceiptsOk(h, b)
    requires r in Mentions(ObservationFor(h, j, s, input, command, b.current).body)
    ensures r in j.references || SyntheticOk(h, r)
  {
    hide FamiliesOk, ReceiptsOk, RegistriesOk, Sound, TermsInSchema, StateReferences;
    if r in StateReferences(b.current) {
      StateReceiptsSynthetic(h, b, r);
    }
  }

  lemma TransitionMentions(h: History, observation: Record, b: Book, e: Effect, r: Reference)
    requires FamiliesOk(h.terms, b) && ReceiptsOk(h, b) && FamiliesOk(h.terms, e.book) && ReceiptsOk(h, e.book)
    requires r in Mentions(TransitionFor(h, observation, b.current, e).body)
    ensures r == ReferenceTo(observation) || SyntheticOk(h, r)
  {
    hide FamiliesOk, ReceiptsOk, StateReferences, ReferenceTo;
    if r in StateReferences(b.current) {
      StateReceiptsSynthetic(h, b, r);
    } else if r in StateReferences(e.book.current) {
      StateReceiptsSynthetic(h, e.book, r);
    }
  }

  lemma ReceiptMentions(h: History, j: Ledger, s: HistoryStep, command: Command, leading: seq<Record>, e: Effect,
          r: Reference)
    requires 1 <= |leading| <= 2 && FamiliesOk(h.terms, e.book) && ReceiptsOk(h, e.book)
    requires r in Mentions(ReceiptFor(h, j, s, command, leading, e).body)
    ensures r in j.prior || SyntheticOk(h, r) || r in RowReferences(leading)
  {
    hide FamiliesOk, ReceiptsOk, StateReferences, ReferenceTo;
    assert ReferenceTo(leading[0]) in RowReferences(leading);
    if r in StateReferences(e.book.current) {
      StateReceiptsSynthetic(h, e.book, r);
    }
  }

  lemma {:induction false} RowMentionsMember(rows: seq<Record>, r: Reference) returns (i: nat)
    requires r in RowMentions(rows)
    ensures i < |rows| && (r == ReferenceTo(rows[i]) || r in Mentions(rows[i].body))
  {
    hide Mentions, ReferenceTo;
    var n := |rows| - 1;
    if r in RowMentions(rows[..n]) {
      i := RowMentionsMember(rows[..n], r);
    } else {
      i := n;
    }
  }

  lemma ProducedKnown(h: History, j: Ledger, s: HistoryStep, input: Input, command: Command, b: Book, e: Effect,
          r: Reference)
    requires Ready(h, j, s, input, command, b, e)
    requires r in RowMentions(StepRows(h, j, s, input, command, b.current, e))
    ensures Known(h, j, StepRows(h, j, s, input, command, b.current, e), r)
  {
    hide Ready, Sound, StepRows, LeadingRows, FamiliesOk, CapacityOk, ReceiptsOk, StateSchema, StateCheck,
         Mentions, ReferenceTo, ObservationFor, TransitionFor, ReceiptFor, CommandFor, Decide, StartOf,
         Admissible, SyntheticOk, LedgerOk, RowMentions, TermsInSchema;
    var rows, leading := StepRows(h, j, s, input, command, b.current, e),
        LeadingRows(h, j, s, input, command, b.current, e);
    ReadyParts(h, j, s, input, command, b, e);
    ReadySound(h, j, s, input, command, b, e);
    SoundParts(h.terms, b);
    SoundParts(h.terms, e.book);
    RowsAre(h, j, s, input, command, b.current, e);
    var i := RowMentionsMember(rows, r);
    OwnReference(rows, i);
    OwnReference(rows, 0);
    hide RowReferences;
    if r != ReferenceTo(rows[i]) {
      if i == 0 {
        ObservationMentions(h, j, s, input, command, b, r);
      } else if i < |leading| {
        TransitionMentions(h, rows[0], b, e, r);
      } else {
        ReceiptMentions(h, j, s, command, leading, e, r);
        LeadingReferences(rows, leading);
        LedgerPrior(h, j);
      }
    }
  }

  lemma OwnReference(rows: seq<Record>, i: nat)
    requires i < |rows|
    ensures ReferenceTo(rows[i]) in RowReferences(rows)
  {
    hide ReferenceTo;
  }

  lemma LeadingReferences(rows: seq<Record>, leading: seq<Record>)
    requires |leading| <= |rows| && rows[..|leading|] == leading
    ensures RowReferences(leading) <= RowReferences(rows)
  {
    hide ReferenceTo;
    forall r | r in RowReferences(leading)
      ensures r in RowReferences(rows)
    {
      var i :| 0 <= i < |leading| && r == ReferenceTo(leading[i]);
      assert rows[i] == leading[i];
    }
  }

  lemma LedgerPrior(h: History, j: Ledger)
    requires LedgerOk(h, j)
    ensures j.prior <= j.references
  {
    hide Sound, ReceiptsOk, WellMade, IdentityUsed, Consistent, TermsInSchema;
  }

  /** What the row keys of a written step are. */
  lemma ProducedKeys(h: History, j: Ledger, s: HistoryStep, input: Input, command: Command, before: State, e: Effect,
          i: nat)
    requires CommandFor(h, s, input) == Some(command)
    requires i < |StepRows(h, j, s, input, command, before, e)|
    ensures var rows := StepRows(h, j, s, input, command, before, e); var n := |rows| - 1;
            RowKey(h.scope, rows[i]) ==
              if i == 0 then RecordKey(h.scope, OfRow(ObservationRow),
                  DeliveryIdentity(ObservationRow, h.scope, SOURCE, s.id))
              else if i < n then RecordKey(h.scope, OfRow(TransitionRow),
                  RevisionIdentity(h.scope, INVOCATION, e.book.current.revision))
              else RecordKey(h.scope, OfRow(ReceiptRow), DeliveryIdentity(ReceiptRow, h.scope, SOURCE, s.id))
  {
    CommandShape(h, s, input);
    RowsAre(h, j, s, input, command, before, e);
    hide CommandFor, StepRows, LeadingRows, ReplayFor;
  }

  lemma ProducedFresh(h: History, j: Ledger, s: HistoryStep, input: Input, command: Command, b: Book, e: Effect)
    requires Ready(h, j, s, input, command, b, e)
    ensures FreshKeys(h.scope, j.identities, StepRows(h, j, s, input, command, b.current, e))
  {
    hide Ready, StepRows, LeadingRows, Sound, ReceiptsOk, LedgerOk, StateSchema, StateCheck, Decide, StartOf,
         Admissible, TermsInSchema, CommandFor, ObservationFor, TransitionFor, ReceiptFor, RowKey;
    var rows := StepRows(h, j, s, input, command, b.current, e);
    ReadyParts(h, j, s, input, command, b, e);
    ReadySound(h, j, s, input, command, b, e);
    RowsAre(h, j, s, input, command, b.current, e);
    UnusedKeys(h, j, s, input, b, e.book.current.revision);
    forall i | 0 <= i < |rows|
      ensures RowKey(h.scope, rows[i]) !in j.identities
    {
      ProducedKeys(h, j, s, input, command, b.current, e, i);
    }
    forall i, k | 0 <= i < k < |rows|
      ensures RowKey(h.scope, rows[i]) != RowKey(h.scope, rows[k])
    {
      ProducedKeys(h, j, s, input, command, b.current, e, i);
      ProducedKeys(h, j, s, input, command, b.current, e, k);
    }
  }

  lemma UnusedKeys(h: History, j: Ledger, s: HistoryStep, input: Input, b: Book, revision: int)
    requires LedgerOk(h, j) && Admissible(h, j, s, input) && StartOf(h, j, input) == Ok(b)
    ensures forall row, scope :: RecordKey(scope, OfRow(row),
        DeliveryIdentity(row, h.scope, SOURCE, s.id)) !in j.identities
    ensures revision == b.current.revision + 1
            ==> RecordKey(h.scope, OfRow(TransitionRow),
                RevisionIdentity(h.scope, INVOCATION, revision)) !in j.identities
  {
    LedgerRegistries(h, j);
    hide LedgerOk, WellMade, Consistent, TermsInSchema, OpenReservation, SortedPermissions;
    forall row, scope
      ensures RecordKey(scope, OfRow(row), DeliveryIdentity(row, h.scope, SOURCE, s.id)) !in j.identities
    {
      var k := RecordKey(scope, OfRow(row), DeliveryIdentity(row, h.scope, SOURCE, s.id));
      assert k in j.identities ==> IdentityUsed(h, j, k);
    }
    var k := RecordKey(h.scope, OfRow(TransitionRow), RevisionIdentity(h.scope, INVOCATION, revision));
    assert k in j.identities ==> IdentityUsed(h, j, k);
  }

  lemma RegistriesConsistent(h: History, j: Ledger)
    requires RegistriesOk(h, j)
    ensures Consistent(j.references)
  {
  }

  lemma DistinctRowsConsistent(scope: Scope, used: set<RecordKey>, rows: seq<Record>)
    requires FreshKeys(scope, used, rows)
    ensures Consistent(RowReferences(rows))
    ensures forall r :: r in RowReferences(rows) ==> r.kind.OfRow? && KeyOf(scope, r) !in used
  {
    forall a, b | a in RowReferences(rows) && b in RowReferences(rows) && a.kind == b.kind && a.id == b.id
      ensures a == b
    {
      var i :| 0 <= i < |rows| && a == ReferenceTo(rows[i]);
      var k :| 0 <= k < |rows| && b == ReferenceTo(rows[k]);
      assert RowKey(scope, rows[i]) == RowKey(scope, rows[k]);
    }
    forall r | r in RowReferences(rows)
      ensures r.kind.OfRow? && KeyOf(scope, r) !in used
    {
      var i :| 0 <= i < |rows| && r == ReferenceTo(rows[i]);
      assert RowKey(scope, rows[i]) !in used;
    }
  }

  /** The registries never refuse a written step: its delivery key being new is enough. */
  lemma ProducedRegisters(h: History, j: Ledger, s: HistoryStep, input: Input, command: Command, b: Book, e: Effect)
    requires Ready(h, j, s, input, command, b, e)
    ensures var rows := StepRows(h, j, s, input, command, b.current, e);
            RegisterRows(h.scope, Registries(j.identities, j.references), rows)
            == Ok(Registries(j.identities + RowKeys(h.scope, rows), j.references + RowMentions(rows)))
    ensures Consistent(j.references + RowMentions(StepRows(h, j, s, input, command, b.current, e)))
  {
    hide Ready, StepRows, SyntheticOk, RowMentions, RowReferences, FreshKeys, RowKeys, LedgerOk, Admissible,
         StartOf, CommandFor, Decide, RegistriesOk;
    var rows := StepRows(h, j, s, input, command, b.current, e);
    ReadyParts(h, j, s, input, command, b, e);
    ProducedFresh(h, j, s, input, command, b, e);
    DistinctRowsConsistent(h.scope, j.identities, rows);
    LedgerRegistries(h, j);
    var inputs := set r | r in RowMentions(rows) && SyntheticOk(h, r);
    forall r | r in RowMentions(rows)
      ensures r in j.references + inputs + RowReferences(rows)
    {
      ProducedKnown(h, j, s, input, command, b, e, r);
    }
    NewReferencesConsistent(h, j, inputs, RowReferences(rows));
    RegistriesConsistent(h, j);
    ConsistentSubset(j.references + RowMentions(rows), j.references + inputs + RowReferences(rows));
    hide Consistent;
    RegisterExact(h.scope, Registries(j.identities, j.references), rows);
  }

  lemma {:induction false} MentionsRow(rows: seq<Record>, i: nat)
    requires i < |rows|
    ensures ReferenceTo(rows[i]) in RowMentions(rows) && Mentions(rows[i].body) <= RowMentions(rows)
  {
    hide Mentions, ReferenceTo;
    var n := |rows| - 1;
    if i < n {
      MentionsRow(rows[..n], i);
    }
  }

  lemma ContextMentioned(h: History, j: Ledger, s: HistoryStep, input: Input, command: Command, before: State)
    ensures External(h, s) <= Mentions(ObservationFor(h, j, s, input, command, before).body)
  {
    hide StateReferences;
    assert EvidenceOf(h) in [EvidenceOf(h)];
  }

  /** Everything the replay closure retains was already registered with the step's rows. */
  lemma ProducedReplay(h: History, j: Ledger, s: HistoryStep, input: Input, command: Command, b: Book, e: Effect)
    requires Ready(h, j, s, input, command, b, e)
    ensures var rows := StepRows(h, j, s, input, command, b.current, e); var n := |rows| - 1;
            && rows[n].body.replay == ReplayFor(h, j, s, rows[..n])
            && rows[n].body.replay + {ReferenceTo(rows[n])} <= j.references + RowMentions(rows)
  {
    hide Ready, StepRows, LeadingRows, Mentions, ReferenceTo, ObservationFor, TransitionFor, ReceiptFor,
         RowMentions, External, LedgerOk, Admissible, StartOf, CommandFor, Decide;
    var rows, leading := StepRows(h, j, s, input, command, b.current, e),
        LeadingRows(h, j, s, input, command, b.current, e);
    ReadyParts(h, j, s, input, command, b, e);
    RowsAre(h, j, s, input, command, b.current, e);
    LedgerPrior(h, j);
    ReceiptReplay(h, j, s, command, leading, e);
    MentionsRow(rows, 0);
    MentionsRow(rows, |rows| - 1);
    ContextMentioned(h, j, s, input, command, b.current);
    LeadingMentioned(rows, leading);
  }

  lemma LeadingMentioned(rows: seq<Record>, leading: seq<Record>)
    requires |leading| <= |rows| && rows[..|leading|] == leading
    ensures RowReferences(leading) <= RowMentions(rows)
  {
    hide ReferenceTo, RowMentions;
    forall r | r in RowReferences(leading)
      ensures r in RowMentions(rows)
    {
      var i :| 0 <= i < |leading| && r == ReferenceTo(leading[i]);
      MentionsRow(rows, i);
      assert leading[i] == rows[i];
    }
  }

  lemma ReceiptReplay(h: History, j: Ledger, s: HistoryStep, command: Command, leading: seq<Record>, e: Effect)
    requires 1 <= |leading| <= 2
    ensures ReceiptFor(h, j, s, command, leading, e).body.replay == ReplayFor(h, j, s, leading)
  {
    hide ReplayFor, ReferenceTo;
  }

  lemma ProducedReplayPasses(h: History, j: Ledger, s: HistoryStep, input: Input, command: Command, b: Book,
          e: Effect)
    requires Ready(h, j, s, input, command, b, e)
    requires var rows := StepRows(h, j, s, input, command, b.current, e); |rows[|rows| - 1].body.replay| <= MAX_REPLAY
    ensures ReplayPasses(h, j, s, StepRows(h, j, s, input, command, b.current, e))
  {
    hide Ready, StepRows, RowMentions, ReferenceTo, ReplayFor, RegisterRows, RowKeys, Consistent;
    var rows := StepRows(h, j, s, input, command, b.current, e);
    ProducedRegisters(h, j, s, input, command, b, e);
    ProducedReplay(h, j, s, input, command, b, e);
    var replay := rows[|rows| - 1].body.replay;
    ConsistentSubset(replay, j.references + RowMentions(rows));
    ConsistentSubset(replay + {ReferenceTo(rows[|rows| - 1])}, j.references + RowMentions(rows));
  }

  lemma CloseInput(h: History, s: HistoryStep, input: Input)
    requires CommandFor(h, s, input).Some? && s.kind.CloseKind?
    ensures var c := CommandFor(h, s, input).value;
            c.Close? && input.close == Some(CloseDetail(c.reason, c.expectedRevision))
  {
  }

  lemma ProducedInput(h: History, j: Ledger, s: HistoryStep, input: Input, command: Command, b: Book, e: Effect,
          texts: seq<Utf8>)
    requires Ready(h, j, s, input, command, b, e)
    ensures InputOf(VectorStep(StepRows(h, j, s, input, command, b.current, e), texts)) == input
  {
    hide Ready, StepRows, LeadingRows, LedgerOk, Decide, StartOf, SortedPermissions, TermsInSchema,
         TransitionFor, ReceiptFor, CommandFor;
    ReadyParts(h, j, s, input, command, b, e);
    RowsAre(h, j, s, input, command, b.current, e);
    CommandShape(h, s, input);
    if s.kind.CloseKind? {
      CloseInput(h, s, input);
    }
  }

  lemma ProducedIsAccepted(h: History, sizes: Sizes, j: Ledger, s: HistoryStep, input: Input)
    requires LedgerOk(h, j) && Produce(h, sizes, j, s, input).Some?
    ensures var (step, next) := Produce(h, sizes, j, s, input).value;
            Accept(h, sizes, j, s, step) == Ok(next) && InputOf(step) == input
  {
    hide Decide, LedgerOk, NextLedger, Admissible, StartOf, CommandFor, WithinLimits, StepRows, RowMentions,
         RowKeys, ReferenceTo, RegisterRows, CheckRows, DecisionPasses, ReplayPasses, InputOf, CanonicalTexts;
    var command, b := CommandFor(h, s, input).value, StartOf(h, j, input).value;
    var e := Decide(h, b, s, command, input.acceptedAt).value;
    var rows := StepRows(h, j, s, input, command, b.current, e);
    assert Ready(h, j, s, input, command, b, e);
    hide Ready, Produce;
    var step := VectorStep(rows, CanonicalTexts(rows));
    ProducedRows(h, sizes, j, s, input, command, b, e);
    ProducedDecision(h, j, s, input, command, b, e);
    ProducedRegisters(h, j, s, input, command, b, e);
    ProducedReplay(h, j, s, input, command, b, e);
    ProducedReplayPasses(h, j, s, input, command, b, e);
    ProducedInput(h, j, s, input, command, b, e, CanonicalTexts(rows));
    hide ReplayFor, Accept;
    AcceptUnfolds(h, sizes, j, s, step);
  }

  /** The checker accepts a step, and moves to a ledger, exactly when the machine writes that step
      and that ledger for the inputs the step observed. */
  lemma StepExact(h: History, sizes: Sizes, j: Ledger, s: HistoryStep, step: VectorStep, next: Ledger)
    requires LedgerOk(h, j)
    ensures Accept(h, sizes, j, s, step) == Ok(next) <==> Produce(h, sizes, j, s, InputOf(step)) == Some((step, next))
  {
    hide Accept, Produce, LedgerOk, InputOf;
    if Accept(h, sizes, j, s, step).Ok? {
      AcceptedIsProduced(h, sizes, j, s, step);
    }
    if Produce(h, sizes, j, s, InputOf(step)).Some? {
      ProducedIsAccepted(h, sizes, j, s, InputOf(step));
    }
  }
}
