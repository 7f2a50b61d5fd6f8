/** The audit as it runs: a loop over the steps that updates dictionaries and running sums in place,
    proved to compute the fold of `Journal.Accept`. */
module Validator {
  import opened Wrappers
  import opened Records
  import opened Sums
  import opened Capacity
  import opened Journal
  import opened Replays

  type ReferenceMap = map<RecordKey, Reference>

  /** Every reference is filed under its own scope, kind and identity. */
  ghost predicate Filed(scope: Scope, registry: ReferenceMap) {
    forall k :: k in registry ==> k == KeyOf(scope, registry[k])
  }

  lemma FiledConsistent(scope: Scope, registry: ReferenceMap)
    requires Filed(scope, registry)
    ensures Consistent(registry.Values)
  {
  }

  /** The running state of the audit. */
  datatype Running = Running(
    book: Option<Book>, registration: Option<Reference>, previous: Option<Reference>,
    prior: ReferenceMap, references: ReferenceMap, identities: set<RecordKey>,
    deliveries: map<DeliveryKey, Stored>, recordCount: nat)
  {
    ghost function Contents(): Ledger {
      Ledger(book, registration, previous, prior.Values, references.Values, identities, deliveries)
    }

    /** What the checks of an observation read: the book and the last receipts. */
    function Head(): Ledger {
      Ledger(book, registration, previous, {}, {}, {}, map[])
    }

    ghost predicate Valid(scope: Scope) {
      Filed(scope, prior) && Filed(scope, references)
    }
  }

  /** File one reference, unless its identity already names another one. */
  method RetainReference(registry: ReferenceMap, scope: Scope, r: Reference) returns (ok: bool, filed: ReferenceMap)
    requires Filed(scope, registry)
    ensures ok <==> Consistent(registry.Values + {r})
    ensures ok ==> Filed(scope, filed) && filed.Values == registry.Values + {r}
    ensures !ok ==> filed == registry
  {
    var key := KeyOf(scope, r);
    FiledConsistent(scope, registry);
    ok := key !in registry || registry[key] == r;
    filed := if ok then registry[key := r] else registry;
    if ok {
      forall x | x in registry.Values + {r}
        ensures x in filed.Values
      {
        if x != r {
          var k :| k in registry && registry[k] == x;
          assert filed[k] == x;
        } else {
          assert filed[key] == r;
        }
      }
      FiledConsistent(scope, filed);
    } else {
      assert registry[key] in registry.Values;
      assert registry[key].kind == r.kind && registry[key].id == r.id;
    }
  }

  lemma Retained(before: set<Reference>, refs: set<Reference>, todo: set<Reference>, x: Reference)
    requires x in todo && todo <= refs
    ensures before + (refs - (todo - {x})) == before + (refs - todo) + {x}
    ensures !Consistent(before + (refs - todo) + {x}) ==> !Consistent(before + refs)
  {
    assert before + (refs - todo) + {x} <= before + refs;
  }

  /** File every reference of a set, whatever the order; stop at the first conflict. */
  method RetainAll(registry: ReferenceMap, scope: Scope, refs: set<Reference>) returns (r: Result<ReferenceMap, Code>)
    requires Filed(scope, registry)
    ensures r.Ok? ==> Filed(scope, r.value) && Retain(registry.Values, refs) == Ok(r.value.Values)
    ensures r.Err? ==> Retain(registry.Values, refs) == Err(r.error)
  {
    hide Filed, Consistent;
    var filed, todo := registry, refs;
    while todo != {}
      invariant todo <= refs && Filed(scope, filed)
      invariant filed.Values == registry.Values + (refs - todo)
      decreases |todo|
    {
      var x :| x in todo;
      var ok, next := RetainReference(filed, scope, x);
      Retained(registry.Values, refs, todo, x);
      if !ok {
        return Err(ReferenceIdentityConflict);
      }
      filed, todo := next, todo - {x};
    }
    FiledConsistent(scope, filed);
    assert refs - {} == refs;
    return Ok(filed);
  }

  /** File the rows of a step and everything they mention. */
  method FileRows(scope: Scope, identities: set<RecordKey>, references: ReferenceMap, rows: seq<Record>)
    returns (r: Result<(set<RecordKey>, ReferenceMap), Code>)
    requires Filed(scope, references)
    ensures r.Ok? ==> Filed(scope, r.value.1)
                      && RegisterRows(scope, Registries(identities, references.Values), rows)
                         == Ok(Registries(r.value.0, r.value.1.Values))
    ensures r.Err? ==> RegisterRows(scope, Registries(identities, references.Values), rows) == Err(r.error)
  {
    hide Filed, Mentions, ReferenceTo, KeyOf;
    var used, filed, i := identities, references, 0;
    assert rows[..0] == [];
    while i < |rows|
      invariant 0 <= i <= |rows| && Filed(scope, filed)
      invariant RegisterRows(scope, Registries(identities, references.Values), rows[..i])
          == Ok(Registries(used, filed.Values))
    {
      assert rows[..i + 1][..i] == rows[..i];
      var key := KeyOf(scope, ReferenceTo(rows[i]));
      if key in used {
        RejectedPrefix(scope, Registries(identities, references.Values), rows, i + 1);
        return Err(RecordIdentityReused);
      }
      var retained := RetainAll(filed, scope, {ReferenceTo(rows[i])} + Mentions(rows[i].body));
      if retained.Err? {
        RejectedPrefix(scope, Registries(identities, references.Values), rows, i + 1);
        return Err(retained.error);
      }
      used, filed, i := used + {key}, retained.value, i + 1;
    }
    assert rows[..i] == rows;
    return Ok((used, filed));
  }

  lemma {:induction false} RejectedPrefix(scope: Scope, g: Registries, rows: seq<Record>, i: nat)
    requires i <= |rows| && RegisterRows(scope, g, rows[..i]).Err?
    ensures RegisterRows(scope, g, rows) == RegisterRows(scope, g, rows[..i])
  {
    hide RegisterRow;
    if i == |rows| {
      assert rows[..i] == rows;
    } else {
      var n := |rows| - 1;
      assert rows[..n][..i] == rows[..i];
      RejectedPrefix(scope, g, rows[..n], i);
    }
  }

  /** The positive and the negative part of the live amounts, summed over the dictionary. */
  method SumParts(live: map<string, int>) returns (gains: int, losses: int)
    ensures gains == Total(Gains(live)) && losses == Total(Losses(live))
  {
    gains, losses := 0, 0;
    var todo := live.Keys;
    ghost var done: map<string, int> := map[];
    assert Gains(done) == map[] && Losses(done) == map[];
    while todo != {}
      invariant todo <= live.Keys && done.Keys == live.Keys - todo
      invariant forall k :: k in done ==> done[k] == live[k]
      invariant gains == Total(Gains(done)) && losses == Total(Losses(done))
      decreases |todo|
    {
      var k :| k in todo;
      GainsInsert(done, k, live[k]);
      gains, losses := gains + Gain(live[k]), losses + Loss(live[k]);
      done, todo := done[k := live[k]], todo - {k};
    }
    assert done == live;
  }

  /** The capacity decision of one step, with the ceilings checked on running sums. */
  method DecideStep(h: History, b: Book, s: HistoryStep, command: Command, now: int) returns (r: Result<Effect, Code>)
    ensures r == Decide(h, b, s, command, now)
  {
    hide ApplyClose, Total, Gains, Losses;
    if command.Register? {
      return Ok(Effect(b, 0, 0));
    }
    if command.Close? {
      return ApplyClose(b, command.reason, command.expectedRevision, s.earlyAuthorized, now);
    }
    var t := h.terms;
    if s.family.None? || s.family.value !in t.families {
      return Err(MissingKey);
    }
    var f := s.family.value;
    if command.family != Key(t, f) {
      return Err(FamilyCode);
    }
    if s.amount.None? || Key(t, f) !in b.current.families {
      return Err(MissingKey);
    }
    var amount := s.amount.value;
    if !(-MAX_ATOMS <= amount <= MAX_ATOMS) {
      return Err(EconomicAtoms);
    }
    var proposed := b.live[f := amount];
    var gains, losses := SumParts(proposed);
    if !(gains <= t.premiumCeiling && losses <= t.baseConsumed) {
      return Err(EconomicCeiling);
    }
    var families, original, consume := b.current.families, b.original, 0;
    var member := families[Key(t, f)];
    if command.Ordinary? {
      if !member.status.Open? {
        return Err(OrdinaryClosed);
      }
      if member.acceptedBy < now {
        return Err(OrdinaryDeadline);
      }
      consume := Gain(amount);
      if b.current.held < consume {
        return Err(HeldCapacity);
      }
      var receipt := EconomicOf(h, s.id);
      families := families[Key(t, f) := member.(status := Claimed, ordinaryReceipt := Some(receipt))];
      original := original[f := receipt];
    } else if !(member.status.Claimed?
        && member.ordinaryReceipt == (if f in original then Some(original[f]) else None)) {
      return Err(PostHocOriginal);
    }
    var settled := Settle(b.current, families, consume, 0);
    if settled.Err? {
      return Err(settled.error);
    }
    return Ok(Effect(Book(settled.value, proposed, original, now), consume, 0));
  }

  /** One iteration of the audit loop. */
  method AcceptStep(h: History, sizes: Sizes, a: Running, s: HistoryStep,
          step: VectorStep) returns (r: Result<Running, Code>)
    requires a.Valid(h.scope)
    ensures r.Ok? ==> r.value.Valid(h.scope) && Accept(h, sizes, a.Contents(), s, step) == Ok(r.value.Contents())
                      && r.value.recordCount == a.recordCount + |step.records|
    ensures r.Err? ==> Accept(h, sizes, a.Contents(), s, step) == Err(r.error)
  {
    hide CheckRows, CheckObservation, StartingBook, Decide, CheckTransition, CheckReceipt, RegisterRows,
         Retain, Filed, External, RowReferences, ReferenceTo, StoredOf;
    var rows := step.records;
    if !(2 <= |rows| <= 3) {
      return Err(RecordSet);
    }
    if !Shaped(rows) {
      return Err(RecordOrder);
    }
    var checked := CheckRows(h, sizes, step);
    if checked.Fail? {
      return Err(checked.error);
    }
    var o, last := rows[0].body, rows[|rows| - 1];
    var delivery := DeliveryOf(h, o);
    if delivery in a.deliveries {
      return Err(DeliveryIdentityReused);
    }
    var filed := FileRows(h.scope, a.identities, a.references, rows);
    if filed.Err? {
      return Err(filed.error);
    }
    ghost var j := a.Contents();
    AuditReadsBook(h, j, a, s, o);
    var observed := CheckObservation(h, a.Head(), s, o);
    if observed.Fail? {
      return Err(observed.error);
    }
    var start := StartingBook(h, a.Head(), s, o);
    if start.Err? {
      return Err(start.error);
    }
    var decided := DecideStep(h, start.value, s, o.command, o.acceptedAt);
    if decided.Err? {
      return Err(decided.error);
    }
    var e := decided.value;
    checked := CheckTransition(rows, start.value.current, e);
    if checked.Fail? {
      return Err(checked.error);
    }
    checked := CheckReceipt(h, s, rows, e.book.current);
    if checked.Fail? {
      return Err(checked.error);
    }
    var replay := RetainAll(a.prior, h.scope, External(h, s) + RowReferences(rows[..|rows| - 1]));
    if replay.Err? {
      return Err(replay.error);
    }
    if last.body.replay != replay.value.Values {
      return Err(ReplayClosure);
    }
    if |last.body.replay| > MAX_REPLAY {
      return Err(ReplayLimit);
    }
    var prior := RetainAll(replay.value, h.scope, {ReferenceTo(last)});
    if prior.Err? {
      return Err(prior.error);
    }
    var registration := if a.registration.Some? then a.registration.value else ReferenceTo(last);
    return Ok(Running(
      Some(e.book.(clock := o.acceptedAt)), Some(registration), Some(ReferenceTo(last)), prior.value,
          filed.value.1, filed.value.0,
      a.deliveries[delivery := StoredOf(s, rows)], a.recordCount + |rows|));
  }

  /** The checks of the observation read only the head of the ledger, never its registries. */
  lemma AuditReadsBook(h: History, j: Ledger, a: Running, s: HistoryStep, o: Body)
    requires o.Observation? && j == a.Contents()
    ensures CheckObservation(h, a.Head(), s, o) == CheckObservation(h, j, s, o)
    ensures StartingBook(h, a.Head(), s, o) == StartingBook(h, j, s, o)
  {
    hide StateCheck, OpenReservation, CheckAuthority;
  }

  /** Audit a vector against its history: how many records it holds, and the delivery index. */
  method Validate(h: History, sizes: Sizes, v: Vector) returns (r: Result<(nat, map<DeliveryKey, Stored>), Code>)
    ensures r.Ok? ==>
              && Audit(h, sizes, v).Ok?
              && r.value.0 == RecordCount(v.steps) && r.value.1 == Audit(h, sizes, v).value.deliveries
    ensures r.Err? ==> Audit(h, sizes, v) == Err(r.error)
  {
    hide Accept, Filed;
    if !(v.name == h.terms.name && |v.steps| == |h.steps|) {
      return Err(Code.History);
    }
    var a := Running(None, None, None, map[], map[], {}, map[], 0);
    NothingFiled(h.scope);
    assert a.Contents() == EMPTY;
    var i := 0;
    assert v.steps[..0] == [];
    while i < |v.steps|
      invariant 0 <= i <= |v.steps| && a.Valid(h.scope)
      invariant AuditSteps(h, sizes, v.steps[..i]) == Ok(a.Contents()) && a.recordCount == RecordCount(v.steps[..i])
    {
      assert v.steps[..i + 1][..i] == v.steps[..i];
      var next := AcceptStep(h, sizes, a, h.steps[i], v.steps[i]);
      if next.Err? {
        RejectedHistory(h, sizes, v.steps, i + 1);
        return Err(next.error);
      }
      a, i := next.value, i + 1;
    }
    assert v.steps[..i] == v.steps;
    return Ok((a.recordCount, a.deliveries));
  }

  lemma NothingFiled(scope: Scope)
    ensures var none: ReferenceMap := map[]; Filed(scope, none) && none.Values == {}
  {
    var none: ReferenceMap := map[];
    assert none.Values == {};
  }

  lemma {:induction false} RejectedHistory(h: History, sizes: Sizes, steps: seq<VectorStep>, i: nat)
    requires i <= |steps| <= |h.steps| && AuditSteps(h, sizes, steps[..i]).Err?
    ensures AuditSteps(h, sizes, steps) == AuditSteps(h, sizes, steps[..i])
  {
    hide Accept;
    if i == |steps| {
      assert steps[..i] == steps;
    } else {
      var n := |steps| - 1;
      assert steps[..n][..i] == steps[..i];
      RejectedHistory(h, sizes, steps[..n], i);
    }
  }
}
