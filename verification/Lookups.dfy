/** Retries: what a lookup in the delivery index of an accepted history answers, for every command. */
module Lookups {
  import opened Wrappers
  import opened Records
  import opened Capacity
  import opened Journal
  import opened Registry
  import opened Exactness
  import opened Completeness
  import opened Histories

  datatype Reply =
    | Unauthorized
    | Absent
    | OutcomeUnknown
    | IdentityConflict
    | Duplicate(composite: Composite)

  function LookupDelivery(deliveries: map<DeliveryKey, Stored>, scope: Scope, command: Command, ingress: Ingress,
          mayRead: bool, absenceConfirmed: bool): Reply
  {
    var key := DeliveryKey(scope, command.source, command.externalId);
    if !mayRead then Unauthorized
    else if key !in deliveries then (if absenceConfirmed then Absent else OutcomeUnknown)
    else if deliveries[key].command != command || deliveries[key].ingress != ingress then IdentityConflict
    else Duplicate(deliveries[key].composite)
  }

  /** Step `i` of the history, as its vector recorded it. */
  ghost predicate Recorded(h: History, steps: seq<VectorStep>, i: nat) {
    i < |steps| <= |h.steps| && Shaped(steps[i].records)
  }

  function CommandAt(steps: seq<VectorStep>, i: nat): Command
    requires i < |steps| && Shaped(steps[i].records)
  {
    steps[i].records[0].body.command
  }

  function KeyAt(h: History, i: nat): DeliveryKey
    requires i < |h.steps|
  {
    DeliveryKey(h.scope, SyntheticSettlement, h.steps[i].id)
  }

  /** The ingress a step came with: of a close its command, of every other step the request's own members. */
  function IngressAt(s: HistoryStep, command: Command): Ingress {
    match command
    case Close(_, _, _, _, _) => CloseRequest(command)
    case _ => EconomicRequest(s.kind, s.id, s.family, s.amount)
  }

  /** What a step answers: the bytes of its last record, which is the settlement receipt, and the economic
      receipt named there. */
  function CompositeAt(rows: seq<Record>): Composite
    requires Shaped(rows)
  {
    var receipt := rows[|rows| - 1];
    Composite(Canonical(receipt), receipt.body.economicReceipt)
  }

  function Entry(s: HistoryStep, rows: seq<Record>): Stored
    requires Shaped(rows)
  {
    Stored(rows[0].body.command, IngressAt(s, rows[0].body.command), CompositeAt(rows))
  }

  /** Step `i` sits in the index under its own key, as it was accepted. */
  ghost predicate IndexedAt(h: History, steps: seq<VectorStep>, deliveries: map<DeliveryKey, Stored>, i: nat) {
    && Recorded(h, steps, i) && DeliveryOf(h, steps[i].records[0].body) == KeyAt(h, i)
    && KeyAt(h, i) in deliveries && deliveries[KeyAt(h, i)] == Entry(h.steps[i], steps[i].records)
  }

  /** The index holds exactly the steps so far, each under its own key. */
  ghost predicate Indexed(h: History, steps: seq<VectorStep>, deliveries: map<DeliveryKey, Stored>) {
    && |steps| <= |h.steps|
    && (forall i :: 0 <= i < |steps| ==> IndexedAt(h, steps, deliveries, i))
    && (forall k :: k in deliveries ==> exists i :: 0 <= i < |steps| && k == KeyAt(h, i))
    && (forall i, j :: 0 <= i < j < |steps| ==> KeyAt(h, i) != KeyAt(h, j))
  }

  lemma IndexStep(h: History, steps: seq<VectorStep>, before: map<DeliveryKey, Stored>, n: nat)
    requires n + 1 == |steps| <= |h.steps| && Indexed(h, steps[..n], before)
    requires Shaped(steps[n].records) && DeliveryOf(h, steps[n].records[0].body) == KeyAt(h, n)
        && KeyAt(h, n) !in before
    ensures Indexed(h, steps, before[KeyAt(h, n) := Entry(h.steps[n], steps[n].records)])
  {
    hide Entry, DeliveryOf, KeyAt;
    var after := before[KeyAt(h, n) := Entry(h.steps[n], steps[n].records)];
    forall i | 0 <= i < n
      ensures IndexedAt(h, steps, after, i)
    {
      assert IndexedAt(h, steps[..n], before, i) && steps[..n][i] == steps[i];
    }
    forall k | k in after
      ensures exists i :: 0 <= i < |steps| && k == KeyAt(h, i)
    {
      if k in before {
        var i :| 0 <= i < n && k == KeyAt(h, i);
      }
    }
    forall i | 0 <= i < n
      ensures KeyAt(h, i) != KeyAt(h, n)
    {
      assert IndexedAt(h, steps[..n], before, i);
    }
  }

  lemma {:induction false} AuditIndexed(h: History, sizes: Sizes, steps: seq<VectorStep>)
    requires AuditSteps(h, sizes, steps).Ok?
    ensures Indexed(h, steps, AuditSteps(h, sizes, steps).value.deliveries)
  {
    if steps != [] {
      var n := |steps| - 1;
      var j := AuditSteps(h, sizes, steps[..n]).value;
      AuditIndexed(h, sizes, steps[..n]);
      AuditSound(h, sizes, steps[..n]);
      hide Indexed;
      AcceptedDelivery(h, sizes, j, h.steps[n], steps[n]);
      hide Accept;
      IndexStep(h, steps, j.deliveries, n);
    }
  }

  lemma AcceptedDelivery(h: History, sizes: Sizes, j: Ledger, s: HistoryStep, step: VectorStep)
    requires LedgerOk(h, j) && Accept(h, sizes, j, s, step).Ok?
    ensures Shaped(step.records) && DeliveryOf(h, step.records[0].body) == DeliveryKey(h.scope, SOURCE, s.id)
    ensures DeliveryKey(h.scope, SOURCE, s.id) !in j.deliveries
    ensures Accept(h, sizes, j, s, step).value.deliveries
            == j.deliveries[DeliveryKey(h.scope, SOURCE, s.id) := Entry(s, step.records)]
  {
    hide LedgerOk, CheckRows, RegisterRows, DecisionPasses, ReplayPasses, StoredOf, InputOf, Decide, StartOf,
         CommandFor, StepRows, Ready, ReferenceTo, RowKeys, RowMentions;
    AcceptUnfolds(h, sizes, j, s, step);
    ReadyOf(h, sizes, j, s, step);
    StoredEntry(s, step.records);
  }

  lemma StoredEntry(s: HistoryStep, rows: seq<Record>)
    requires Shaped(rows)
    ensures StoredOf(s, rows) == Entry(s, rows)
  {
  }

  /** `command` and `ingress` are the very ones step `i` was accepted with. */
  ghost predicate Original(h: History, steps: seq<VectorStep>, i: nat, command: Command, ingress: Ingress) {
    Recorded(h, steps, i) && command == CommandAt(steps, i) && ingress == IngressAt(h.steps[i], command)
  }

  /** The command carries the delivery key of step `i`. */
  ghost predicate Names(h: History, i: nat, command: Command) {
    i < |h.steps| && command.source == SyntheticSettlement && command.externalId == h.steps[i].id
  }

  ghost predicate CompositeOf(h: History, steps: seq<VectorStep>, i: nat, c: Composite) {
    Recorded(h, steps, i) && c == CompositeAt(steps[i].records)
  }

  /** The answer to every command, whatever its bytes. A reader without permission learns that and nothing
      else. A reader with it gets a duplicate with a step's own composite exactly when the command and the
      ingress are that step's own, a conflict exactly when only the delivery key is, and otherwise learns
      that nothing was reserved. */
  ghost predicate AnswersRight(h: History, steps: seq<VectorStep>, command: Command, ingress: Ingress,
          mayRead: bool, absenceConfirmed: bool, reply: Reply)
  {
    && (reply == Unauthorized <==> !mayRead)
    && (forall c :: reply == Duplicate(c) <==>
          && mayRead
          && exists i :: 0 <= i < |steps| && Original(h, steps, i, command, ingress) && CompositeOf(h, steps, i, c))
    && (reply == IdentityConflict <==>
          && mayRead
          && exists i :: 0 <= i < |steps| && Names(h, i, command) && !Original(h, steps, i, command, ingress))
    && (reply == (if absenceConfirmed then Absent else OutcomeUnknown) <==>
          mayRead && forall i :: 0 <= i < |steps| ==> !Names(h, i, command))
  }

  lemma LookupExact(h: History, sizes: Sizes, steps: seq<VectorStep>, command: Command, ingress: Ingress,
          mayRead: bool, absenceConfirmed: bool)
    requires AuditSteps(h, sizes, steps).Ok?
    ensures AnswersRight(h, steps, command, ingress, mayRead, absenceConfirmed,
              LookupDelivery(AuditSteps(h, sizes, steps).value.deliveries, h.scope, command, ingress, mayRead,
                  absenceConfirmed))
  {
    hide AuditSteps, AnswersRight;
    AuditIndexed(h, sizes, steps);
    LookupIndexed(h, steps, AuditSteps(h, sizes, steps).value.deliveries, command, ingress, mayRead,
                  absenceConfirmed);
  }

  lemma LookupAt(h: History, steps: seq<VectorStep>, deliveries: map<DeliveryKey, Stored>, command: Command,
          ingress: Ingress, i: nat)
    requires Indexed(h, steps, deliveries) && i < |steps|
    ensures DeliveryKey(h.scope, command.source, command.externalId) == KeyAt(h, i) <==> Names(h, i, command)
    ensures KeyAt(h, i) in deliveries && CompositeOf(h, steps, i, deliveries[KeyAt(h, i)].composite)
    ensures forall c :: CompositeOf(h, steps, i, c) ==> c == deliveries[KeyAt(h, i)].composite
    ensures Original(h, steps, i, command, ingress)
            <==> && Names(h, i, command)
                 && deliveries[KeyAt(h, i)].command == command && deliveries[KeyAt(h, i)].ingress == ingress
  {
    assert IndexedAt(h, steps, deliveries, i);
  }

  lemma LookupIndexed(h: History, steps: seq<VectorStep>, deliveries: map<DeliveryKey, Stored>, command: Command,
          ingress: Ingress, mayRead: bool, absenceConfirmed: bool)
    requires Indexed(h, steps, deliveries)
    ensures AnswersRight(h, steps, command, ingress, mayRead, absenceConfirmed,
              LookupDelivery(deliveries, h.scope, command, ingress, mayRead, absenceConfirmed))
  {
    hide Original, Names, KeyAt, CompositeOf, IndexedAt;
    var key := DeliveryKey(h.scope, command.source, command.externalId);
    var reply := LookupDelivery(deliveries, h.scope, command, ingress, mayRead, absenceConfirmed);
    if key in deliveries {
      var i :| 0 <= i < |steps| && key == KeyAt(h, i);
      LookupAt(h, steps, deliveries, command, ingress, i);
      forall k | 0 <= k < |steps|
        ensures Names(h, k, command) <==> k == i
        ensures Original(h, steps, k, command, ingress) ==> k == i
      {
        LookupAt(h, steps, deliveries, command, ingress, k);
      }
    } else {
      forall k | 0 <= k < |steps|
        ensures !Names(h, k, command) && !Original(h, steps, k, command, ingress)
      {
        LookupAt(h, steps, deliveries, command, ingress, k);
      }
    }
  }

  /** A step's own command and ingress keep answering with its own composite, however the accepted
      history grows. */
  lemma RetryStable(h: History, sizes: Sizes, steps: seq<VectorStep>, i: nat, absenceConfirmed: bool)
    requires AuditSteps(h, sizes, steps).Ok? && i < |steps|
    ensures Recorded(h, steps, i) && AuditSteps(h, sizes, steps[..i + 1]).Ok?
    ensures var command := CommandAt(steps, i); var ingress := IngressAt(h.steps[i], command);
            var own := Duplicate(CompositeAt(steps[i].records));
            && LookupDelivery(AuditSteps(h, sizes, steps[..i + 1]).value.deliveries, h.scope, command, ingress,
               true, absenceConfirmed) == own
            && LookupDelivery(AuditSteps(h, sizes, steps).value.deliveries, h.scope, command, ingress, true,
               absenceConfirmed) == own
  {
    hide AuditSteps;
    AuditPrefix(h, sizes, steps, i + 1);
    AuditIndexed(h, sizes, steps);
    AuditIndexed(h, sizes, steps[..i + 1]);
    assert steps[..i + 1][i] == steps[i];
    assert IndexedAt(h, steps, AuditSteps(h, sizes, steps).value.deliveries, i);
    assert IndexedAt(h, steps[..i + 1], AuditSteps(h, sizes, steps[..i + 1]).value.deliveries, i);
  }
}
