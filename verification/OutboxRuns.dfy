/** What the outbox guarantees over whole runs: one request, one acceptance, one receipt. */
module OutboxRuns {
  import opened Wrappers
  import opened Outbox
  import opened OutboxSafety

  // ----- history only grows -----

  ghost predicate Extends(w: World, v: World) {
    w.sent <= v.sent && w.acknowledged <= v.acknowledged && w.ledger <= v.ledger
  }

  lemma StepExtends(w: World, a: Action)
    ensures Extends(w, Next(w, a))
  {
    hide Answered, Told, Get, Put, SyncDirectory, AfterFailure, Parsed, Verified;
  }

  lemma {:induction false} RunExtends(w: World, actions: seq<Action>)
    ensures Extends(w, Run(w, actions))
    decreases |actions|
  {
    hide Next;
    if actions != [] {
      StepExtends(w, actions[0]);
      RunExtends(Next(w, actions[0]), actions[1..]);
    }
  }

  lemma {:induction false} NothingTrusted(w: World, actions: seq<Action>)
    ensures TrustedRun(Nothing, w, actions)
    decreases |actions|
  {
    hide Next;
    if actions != [] {
      NothingTrusted(Next(w, actions[0]), actions[1..]);
    }
  }

  /** What any run keeps, whatever is claimed and explained. */
  lemma AnyRunSafe(w: World, actions: seq<Action>)
    requires Safe(Nothing, w)
    ensures Safe(Nothing, Run(w, actions))
  {
    NothingTrusted(w, actions);
    RunSafe(Nothing, w, actions);
  }

  // ----- one request -----

  /** Whatever was sent, at any time, is the request file and the marker that are on disk for good. */
  lemma OneRequest(actions: seq<Action>)
    ensures var w := Run(START, actions);
            forall i :: 0 <= i < |w.sent| ==>
              && w.sent[i] == w.sent[0] && w.sent[i].bytes.EventText?
              && Durable(w.disk.request, w.sent[i].bytes) && Durable(w.disk.marker, ScopeLines(w.sent[i].scope))
  {
    hide Run, SavedSound;
    StartSafe(Nothing);
    AnyRunSafe(START, actions);
    var w := Run(START, actions);
    if w.sent != [] {
      var s, e :| Bound(Nothing, w, s, e);
    }
  }

  // ----- one acceptance -----

  /** The ledger holds an acceptance of the very event that this outbox sends. */
  ghost predicate SentBooked(w: World) {
    && w.sent != [] && w.sent[0].bytes.EventText?
    && Acceptance(w.sent[0].scope, w.sent[0].bytes.event) in w.ledger
  }

  /** How many submissions of this outbox made the ledger grow. */
  ghost function OwnBookings(w: World, actions: seq<Action>): nat
    decreases |actions|
  {
    if actions == [] then 0
    else
      (if actions[0].Send? && Next(w, actions[0]).ledger != w.ledger then 1 else 0)
      + OwnBookings(Next(w, actions[0]), actions[1..])
  }

  lemma BookedStays(w: World, v: World)
    requires SentBooked(w) && Extends(w, v)
    ensures SentBooked(v)
  {
    var i :| 0 <= i < |w.ledger| && w.ledger[i] == Acceptance(w.sent[0].scope, w.sent[0].bytes.event);
    assert v.sent[0] == w.sent[0] && v.ledger[i] == w.ledger[i];
  }

  /** A submission that makes the ledger grow leaves the sent event booked; once it is, none does. */
  lemma SendBooks(w: World, delivery: Delivery)
    requires Safe(Nothing, w)
    ensures Next(w, Send(delivery)).ledger != w.ledger ==> !SentBooked(w) && SentBooked(Next(w, Send(delivery)))
  {
    hide SavedSound, SavedFile, DirectorySound;
    if w.caller.Some? && w.caller.value.stage == Submit && w.disk.request.now.Some? {
      var c := w.caller.value;
      assert Bound(Nothing, w, c.job.scope, c.job.event);
      FindExact(w.ledger, c.job.scope, c.job.event);
      var booked := Booked(w.ledger, c.job.scope, c.job.event);
      assert booked != w.ledger ==> booked[|w.ledger|] == Acceptance(c.job.scope, c.job.event);
      assert w.sent != [] ==> w.sent[0] == Sent(c.job.scope, EventText(c.job.event));
    }
  }

  lemma {:induction false} BookingsFrom(w: World, actions: seq<Action>)
    requires Safe(Nothing, w)
    ensures OwnBookings(w, actions) <= if SentBooked(w) then 0 else 1
    decreases |actions|
  {
    hide Safe, Next, SentBooked;
    if actions != [] {
      var v := Next(w, actions[0]);
      StepSafe(Nothing, w, actions[0]);
      StepExtends(w, actions[0]);
      BookingsFrom(v, actions[1..]);
      if SentBooked(w) {
        BookedStays(w, v);
      }
      if actions[0].Send? {
        SendBooks(w, actions[0].delivery);
      }
    }
  }

  /** However often an outbox submits its request, at most one of its submissions is booked. */
  lemma OneBooking(actions: seq<Action>)
    ensures OwnBookings(START, actions) <= 1
  {
    StartSafe(Nothing);
    BookingsFrom(START, actions);
  }

  /** `i` is where the ledger accepted what this outbox sent. */
  ghost predicate AcceptedAt(w: World, i: nat) {
    && w.sent != [] && w.sent[0].bytes.EventText? && i < |w.ledger|
    && SameWork(w.ledger[i], w.sent[0].scope, w.sent[0].bytes.event)
  }

  /** What the outbox sent is accepted at most once, and when the ledger's answers are its own, every
      receipt saved or acknowledged is the one of that acceptance. */
  lemma OneAcceptance(actions: seq<Action>)
    ensures var w := Run(START, actions);
            && (forall i, j :: AcceptedAt(w, i) && AcceptedAt(w, j) ==> i == j)
            && (TrustedRun(Answers, START, actions) ==>
                  && (w.disk.saved.now.Some? ==>
                        && w.disk.saved.now.value.bytes.ReceiptText?
                        && AcceptedAt(w, w.disk.saved.now.value.bytes.receipt.serial))
                  && (forall i :: 0 <= i < |w.acknowledged| ==> AcceptedAt(w, w.acknowledged[i].serial)))
  {
    hide Run, Safe, TrustedRun;
    StartSafe(Nothing);
    AnyRunSafe(START, actions);
    var w := Run(START, actions);
    SafeLedger(Nothing, w);
    forall i, j | AcceptedAt(w, i) && AcceptedAt(w, j) ensures i == j {
      RetainedUnique(w.ledger, w.sent[0].scope, w.sent[0].bytes.event, Receipt(i), Receipt(j));
    }
    if TrustedRun(Answers, START, actions) {
      StartSafe(Answers);
      RunSafe(Answers, START, actions);
      if w.disk.saved.now.Some? {
        SavedKept(Answers, w, w.disk.saved.now.value);
      }
      forall i | 0 <= i < |w.acknowledged| ensures AcceptedAt(w, w.acknowledged[i].serial) {
        AcknowledgedKept(Answers, w, i);
      }
    }
  }

  /** Two acceptances share an identity with this event. */
  ghost predicate TwoShare(ledger: Ledger, scope: Scope, event: Event) {
    exists i, j :: && 0 <= i < j < |ledger|
      && SharesIdentity(ledger[i], scope, event) && SharesIdentity(ledger[j], scope, event)
  }

  /** Two acceptances share an identity with one event exactly when one took its delivery identifier for
      another operation and the other its operation under another delivery identifier. */
  lemma IdentitiesExact(ledger: Ledger, scope: Scope, event: Event)
    requires LedgerSound(ledger)
    ensures TwoShare(ledger, scope, event)
       <==> (exists i :: 0 <= i < |ledger| && TakesDelivery(ledger[i], scope, event))
            && (exists i :: 0 <= i < |ledger| && TakesOperation(ledger[i], scope, event))
  {
    if TwoShare(ledger, scope, event) {
      var i, j :| && 0 <= i < j < |ledger|
        && SharesIdentity(ledger[i], scope, event) && SharesIdentity(ledger[j], scope, event);
      assert !SharesIdentity(ledger[i], ledger[j].scope, ledger[j].event);
      assert TakesDelivery(ledger[i], scope, event) || TakesDelivery(ledger[j], scope, event);
      assert TakesOperation(ledger[i], scope, event) || TakesOperation(ledger[j], scope, event);
    }
    if (exists i :: 0 <= i < |ledger| && TakesDelivery(ledger[i], scope, event))
      && exists i :: 0 <= i < |ledger| && TakesOperation(ledger[i], scope, event) {
      var i :| 0 <= i < |ledger| && TakesDelivery(ledger[i], scope, event);
      var j :| 0 <= j < |ledger| && TakesOperation(ledger[j], scope, event);
      assert SharesIdentity(ledger[i], scope, event) && SharesIdentity(ledger[j], scope, event);
      assert i < j || j < i;
    }
  }

  predicate TakesDelivery(a: Acceptance, scope: Scope, event: Event) {
    a.scope == scope && a.event.id == event.id && a.event.operation != event.operation
  }

  predicate TakesOperation(a: Acceptance, scope: Scope, event: Event) {
    a.scope == scope && a.event.id != event.id && a.event.operation == event.operation
  }

  // ----- one receipt -----

  /** What is known of a receipt that this outbox saved or acknowledged: with trusted answers it is the one
      that the ledger keeps for what the outbox sent, with honest explanations the ledger keeps it for that
      operation of the account. */
  ghost predicate KeptReceipt(k: Trust, w: World, r: Receipt) {
    && w.sent != [] && w.sent[0].bytes.EventText?
    && Good(k, w.ledger, w.sent[0].scope, w.sent[0].bytes.event, r)
  }

  lemma SavedKept(k: Trust, w: World, f: File)
    requires Safe(k, w) && w.disk.saved.now == Some(f)
    ensures f.bytes.ReceiptText? && f.synced && KeptReceipt(k, w, f.bytes.receipt)
  {
    hide Good;
    var s, e :| Bound(k, w, s, e);
    assert w.disk.saved.now in w.disk.saved.past + {w.disk.saved.now};
    assert w.sent[0] == Sent(s, EventText(e));
  }

  lemma AcknowledgedKept(k: Trust, w: World, i: nat)
    requires Safe(k, w) && i < |w.acknowledged|
    ensures Durable(w.disk.saved, ReceiptText(w.acknowledged[i])) && KeptReceipt(k, w, w.acknowledged[i])
  {
    hide Good;
    var s, e :| Bound(k, w, s, e);
    assert w.sent[0] == Sent(s, EventText(e));
  }

  lemma KeptUnique(w: World, v: World, r: Receipt, s: Receipt)
    requires Extends(w, v) && LedgerSound(v.ledger) && KeptReceipt(Answers, w, r) && KeptReceipt(Answers, v, s)
    ensures r == s
  {
    var scope, event := w.sent[0].scope, w.sent[0].bytes.event;
    assert v.sent[0] == w.sent[0];
    assert v.ledger[r.serial] == w.ledger[r.serial];
    RetainedUnique(v.ledger, scope, event, r, s);
  }

  /** The receipt file is never partial: if it is there, it is a whole receipt, already safe from a power
      failure's damage, and what the run may rely on says of which acceptance. */
  lemma ReceiptWhole(k: Trust, actions: seq<Action>)
    requires TrustedRun(k, START, actions)
    ensures var w := Run(START, actions);
            w.disk.saved.now.Some? ==>
              exists r :: w.disk.saved.now == Some(File(ReceiptText(r), true)) && KeptReceipt(k, w, r)
  {
    hide Run, Safe, KeptReceipt, TrustedRun;
    StartSafe(k);
    RunSafe(k, START, actions);
    var w := Run(START, actions);
    if w.disk.saved.now.Some? {
      SavedKept(k, w, w.disk.saved.now.value);
      assert w.disk.saved.now == Some(File(ReceiptText(w.disk.saved.now.value.bytes.receipt), true));
    }
  }

  /** With honest explanations, whatever receipts are claimed, every receipt saved or acknowledged is kept
      by the ledger for the operation of the request, under the marker's account. */
  lemma ReceiptsVouched(actions: seq<Action>)
    requires TrustedRun(Explanations, START, actions)
    ensures var w := Run(START, actions);
            && (w.disk.saved.now.Some? ==>
                  && w.disk.saved.now.value.bytes.ReceiptText?
                  && VouchedFor(w, w.disk.saved.now.value.bytes.receipt))
            && (forall i :: 0 <= i < |w.acknowledged| ==> VouchedFor(w, w.acknowledged[i]))
  {
    hide Run, Safe, TrustedRun;
    StartSafe(Explanations);
    RunSafe(Explanations, START, actions);
    var w := Run(START, actions);
    OneRequest(actions);
    if w.disk.saved.now.Some? {
      SavedKept(Explanations, w, w.disk.saved.now.value);
    }
    forall i | 0 <= i < |w.acknowledged| ensures VouchedFor(w, w.acknowledged[i]) {
      AcknowledgedKept(Explanations, w, i);
    }
  }

  /** The ledger keeps this receipt for the operation of the request file, under the marker's account. */
  ghost predicate VouchedFor(w: World, r: Receipt) {
    exists scope, event ::
      && Durable(w.disk.marker, ScopeLines(scope)) && Durable(w.disk.request, EventText(event))
      && KeptForOperation(w.ledger, scope.account, event.operation, r)
  }

  /** The receipt file never changes once present: whatever happens next, if it is there it has the
      same contents. */
  lemma ReceiptNeverChanges(before: seq<Action>, after: seq<Action>)
    requires TrustedRun(Answers, START, before) && TrustedRun(Answers, Run(START, before), after)
    ensures var w := Run(START, before);
            var v := Run(w, after);
            w.disk.saved.now.Some? && v.disk.saved.now.Some? ==> w.disk.saved.now.value == v.disk.saved.now.value
  {
    hide Run, Safe, KeptReceipt, LedgerSound, TrustedRun;
    StartSafe(Answers);
    RunSafe(Answers, START, before);
    var w := Run(START, before);
    RunSafe(Answers, w, after);
    RunExtends(w, after);
    var v := Run(w, after);
    if w.disk.saved.now.Some? && v.disk.saved.now.Some? {
      SavedKept(Answers, w, w.disk.saved.now.value);
      SavedKept(Answers, v, v.disk.saved.now.value);
      SafeLedger(Answers, v);
      KeptUnique(w, v, w.disk.saved.now.value.bytes.receipt, v.disk.saved.now.value.bytes.receipt);
    }
  }

  lemma SealedStays(w: World, a: Action, r: Receipt)
    requires Safe(Nothing, w) && w.disk.kept && Durable(w.disk.saved, ReceiptText(r))
    ensures Next(w, a).disk.kept && Next(w, a).disk.saved == w.disk.saved
  {
    hide HistorySound, Told, After, Verified, Bound;
  }

  /** Once the receipt file and its name are on disk it never changes, whatever is claimed or explained. */
  lemma {:induction false} SealedForever(w: World, actions: seq<Action>, r: Receipt)
    requires Safe(Nothing, w) && w.disk.kept && Durable(w.disk.saved, ReceiptText(r))
    ensures Durable(Run(w, actions).disk.saved, ReceiptText(r))
    decreases |actions|
  {
    hide Safe, Next;
    if actions != [] {
      SealedStays(w, actions[0], r);
      StepSafe(Nothing, w, actions[0]);
      SealedForever(Next(w, actions[0]), actions[1..], r);
    }
  }

  lemma SafeLedger(k: Trust, w: World)
    requires Safe(k, w)
    ensures LedgerSound(w.ledger)
  {
  }

  /** An acknowledged receipt stays acknowledged and on disk for good through every later kill, power
      failure, retry and submission elsewhere, and what is known of it stays known. */
  lemma AcknowledgedForever(k: Trust, before: seq<Action>, after: seq<Action>, i: nat)
    requires TrustedRun(k, START, before) && TrustedRun(k, Run(START, before), after)
    requires i < |Run(START, before).acknowledged|
    ensures var w := Run(START, before);
            var v := Run(w, after);
            && KeptReceipt(k, w, w.acknowledged[i]) && KeptReceipt(k, v, w.acknowledged[i])
            && Durable(v.disk.saved, ReceiptText(w.acknowledged[i]))
  {
    hide Run, Safe, KeptReceipt, Durable, TrustedRun;
    StartSafe(k);
    RunSafe(k, START, before);
    var w := Run(START, before);
    RunSafe(k, w, after);
    RunExtends(w, after);
    AcknowledgedKept(k, w, i);
    AcknowledgedKept(k, Run(w, after), i);
  }
}
