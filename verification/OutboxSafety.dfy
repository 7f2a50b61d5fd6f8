/** What holds after every step of the outbox, whatever is killed, lost or submitted elsewhere. */
module OutboxSafety {
  import opened Wrappers
  import opened Outbox

  // ----- the ledger -----

  /** No two acceptances of one scope share a delivery or an operation. */
  ghost predicate LedgerSound(ledger: Ledger) {
    forall i, j :: 0 <= i < j < |ledger| ==> !SharesIdentity(ledger[i], ledger[j].scope, ledger[j].event)
  }

  /** The ledger keeps this receipt for this event: it accepted that delivery, or the same operation with
      the same facts. */
  ghost predicate Retained(ledger: Ledger, scope: Scope, event: Event, r: Receipt) {
    r.serial < |ledger| && SameWork(ledger[r.serial], scope, event)
  }

  lemma {:induction false} FindExact(ledger: Ledger, scope: Scope, event: Event)
    ensures match Find(ledger, scope, event)
            case Some(at) => at < |ledger| && SameWork(ledger[at], scope, event)
            case None => forall i :: 0 <= i < |ledger| ==> !SameWork(ledger[i], scope, event)
  {
    if ledger != [] {
      FindExact(ledger[..|ledger| - 1], scope, event);
    }
  }

  lemma BookedSound(ledger: Ledger, scope: Scope, event: Event)
    requires LedgerSound(ledger)
    ensures LedgerSound(Booked(ledger, scope, event)) && ledger <= Booked(ledger, scope, event)
  {
  }

  /** An answer that is not a conflict names the receipt kept for the event. */
  lemma AnswerRetained(ledger: Ledger, scope: Scope, event: Event)
    ensures !Answered(ledger, scope, event).Conflict? ==>
      Retained(Booked(ledger, scope, event), scope, event, Answered(ledger, scope, event).receipt)
  {
    FindExact(ledger, scope, event);
  }

  lemma RetainedUnique(ledger: Ledger, scope: Scope, event: Event, r: Receipt, s: Receipt)
    requires LedgerSound(ledger) && Retained(ledger, scope, event, r) && Retained(ledger, scope, event, s)
    ensures r == s
  {
    var i, j := r.serial, s.serial;
    assert i < j ==> !SharesIdentity(ledger[i], ledger[j].scope, ledger[j].event);
    assert j < i ==> !SharesIdentity(ledger[j], ledger[i].scope, ledger[i].event);
  }

  // ----- what a run may rely on -----

  /** Nothing; that explanations are honest, while receipts may be claimed at will; or that the ledger's
      answers are its own. */
  datatype Trust = Nothing | Explanations | Answers

  /** The ledger keeps this receipt for this operation of the account, under whatever source. */
  ghost predicate KeptForOperation(ledger: Ledger, account: nat, operation: nat, r: Receipt) {
    r.serial < |ledger| && ledger[r.serial].scope.account == account && ledger[r.serial].event.operation == operation
  }

  /** An explanation lists acceptances of the account. */
  ghost predicate Honest(lines: seq<Line>, ledger: Ledger, account: nat) {
    forall l :: l in lines ==> KeptForOperation(ledger, account, l.operation, l.receipt)
  }

  ghost predicate Trusted(k: Trust, w: World, a: Action) {
    match k
    case Nothing => true
    case Explanations =>
      a.Explain? && a.lines.Some? && w.caller.Some? ==>
        Honest(a.lines.value, w.ledger, w.caller.value.job.scope.account)
    case Answers => !(a.Send? && a.delivery.Claimed?)
  }

  ghost predicate TrustedRun(k: Trust, w: World, actions: seq<Action>)
    decreases |actions|
  {
    actions != [] ==> Trusted(k, w, actions[0]) && TrustedRun(k, Next(w, actions[0]), actions[1..])
  }

  /** What is then known of a receipt that the caller saves. */
  ghost predicate Good(k: Trust, ledger: Ledger, scope: Scope, event: Event, r: Receipt) {
    match k
    case Nothing => true
    case Explanations => KeptForOperation(ledger, scope.account, event.operation, r)
    case Answers => Retained(ledger, scope, event, r)
  }

  lemma {:induction false} MatchIn(lines: seq<Line>, receipt: Receipt, operation: nat)
    ensures Matches(lines, receipt, operation) >= 1 <==> Line(receipt, operation) in lines
  {
    if lines != [] {
      MatchIn(lines[1..], receipt, operation);
    }
  }

  /** Whatever receipt is claimed, one that an honest explanation verifies is kept for the operation
      under some source of the account. */
  lemma VerifiedKept(lines: seq<Line>, ledger: Ledger, account: nat, claim: Receipt, operation: nat)
    requires Honest(lines, ledger, account) && Verified(lines, claim, operation)
    ensures KeptForOperation(ledger, account, operation, claim)
  {
    MatchIn(lines, claim, operation);
    assert Line(claim, operation) in lines;
  }

  // ----- the disk -----

  /** These contents survive a power failure. */
  ghost predicate Durable(slot: Slot, bytes: Bytes) { slot == Slot(Some(File(bytes, true)), {}) }

  ghost predicate DirectorySound(disk: Disk) {
    && (disk.kept ==> disk.made)
    && (!disk.kept ==> disk.marker == EMPTY && disk.request == EMPTY && disk.pending == EMPTY && disk.saved == EMPTY)
  }

  /** Every version of the receipt file is absent or the whole kept receipt. */
  ghost predicate SavedSound(k: Trust, slot: Slot, ledger: Ledger, scope: Scope, event: Event) {
    forall v :: v in slot.past + {slot.now} ==> v == None || SavedFile(k, v.value, ledger, scope, event)
  }

  ghost predicate SavedFile(k: Trust, f: File, ledger: Ledger, scope: Scope, event: Event) {
    f.synced && f.bytes.ReceiptText? && Good(k, ledger, scope, event, f.bytes.receipt)
  }

  /** The marker and the request are on disk for good, and everything sent carried them. */
  ghost predicate Bound(k: Trust, w: World, scope: Scope, event: Event) {
    && w.disk.kept
    && Durable(w.disk.marker, ScopeLines(scope)) && Durable(w.disk.request, EventText(event))
    && (forall i :: 0 <= i < |w.sent| ==> w.sent[i] == Sent(scope, EventText(event)))
    && SavedSound(k, w.disk.saved, w.ledger, scope, event)
    && (forall i :: 0 <= i < |w.acknowledged| ==>
         Durable(w.disk.saved, ReceiptText(w.acknowledged[i]))
             && Good(k, w.ledger, scope, event, w.acknowledged[i]))
  }

  ghost predicate Untouched(w: World) {
    w.sent == [] && w.acknowledged == [] && w.disk.saved == EMPTY
  }

  // ----- the caller -----

  ghost predicate PhaseSound(slot: Slot, phase: Phase, data: Bytes) {
    match phase
    case Check => true
    case Write => slot.now.Some?
    case Flush => slot.now == Some(File(data, false))
    case List => slot.now == Some(File(data, true))
    case Sync => slot.now.Some? && slot.now.value.bytes == data
    case Settle => slot.now == Some(File(data, true))
  }

  ghost predicate HasMarker(w: World, c: Caller) {
    w.disk.kept && Durable(w.disk.marker, ScopeLines(c.job.scope))
  }

  ghost predicate HasClaim(k: Trust, w: World, c: Caller) {
    Bound(k, w, c.job.scope, c.job.event) && w.sent != []
        && Good(k, w.ledger, c.job.scope, c.job.event, c.claim)
  }

  /** The caller was told a receipt; whether it is the kept one is still open, unless answers are trusted. */
  ghost predicate WasTold(k: Trust, w: World, c: Caller) {
    Bound(k, w, c.job.scope, c.job.event) && w.sent != []
        && (k.Answers? ==> Good(k, w.ledger, c.job.scope, c.job.event, c.claim))
  }

  ghost predicate StageSound(k: Trust, w: World, c: Caller) {
    match c.stage
    case Enter => true
    case EnterSync => w.disk.made
    case Saving(name, phase) =>
      && PhaseSound(Get(w.disk, name), phase, Data(c, name))
      && (phase.Write? || phase.Flush? || phase.List? ==> name == Pending || w.sent == [])
      && (match name
          case Marker => w.disk.kept
          case Request => HasMarker(w, c)
          case Pending => HasClaim(k, w, c) && w.disk.saved.now == None
          case Saved => false)
    case Submit => Bound(k, w, c.job.scope, c.job.event)
    case Verify => WasTold(k, w, c)
    case Recall => HasClaim(k, w, c)
    case Replace => HasClaim(k, w, c) && w.disk.saved.now == None && Durable(w.disk.pending, ReceiptText(c.claim))
    case SealFile => HasClaim(k, w, c) && w.disk.saved.now == Some(File(ReceiptText(c.claim), true))
    case SealName => HasClaim(k, w, c) && w.disk.saved.now == Some(File(ReceiptText(c.claim), true))
    case Acknowledge => HasClaim(k, w, c) && Durable(w.disk.saved, ReceiptText(c.claim))
  }

  /** Nothing has been sent yet, or everything is bound to one scope and one event. */
  ghost predicate HistorySound(k: Trust, w: World) {
    Untouched(w) || (w.sent != [] && exists scope, event :: Bound(k, w, scope, event))
  }

  ghost predicate Safe(k: Trust, w: World) {
    && LedgerSound(w.ledger) && DirectorySound(w.disk) && HistorySound(k, w)
    && (w.caller.Some? ==> StageSound(k, w, w.caller.value))
  }

  // ----- every step is safe -----

  /** What the ledger gained elsewhere takes nothing away. */
  lemma BoundGrows(k: Trust, w: World, ledger: Ledger, scope: Scope, event: Event)
    requires Bound(k, w, scope, event) && w.ledger <= ledger
    ensures Bound(k, w.(ledger := ledger), scope, event)
  {
    forall i | 0 <= i < |w.ledger| ensures w.ledger[i] == ledger[i] {
    }
  }

  lemma ElsewhereSafe(k: Trust, w: World, scope: Scope, event: Event)
    requires Safe(k, w)
    ensures Safe(k, Next(w, Elsewhere(scope, event)))
  {
    var ledger := Booked(w.ledger, scope, event);
    BookedSound(w.ledger, scope, event);
    LedgerSafe(k, w, ledger);
  }

  lemma LedgerSafe(k: Trust, w: World, ledger: Ledger)
    requires Safe(k, w) && LedgerSound(ledger) && w.ledger <= ledger
    ensures Safe(k, w.(ledger := ledger))
  {
    hide Bound;
    forall s, e | Bound(k, w, s, e) ensures Bound(k, w.(ledger := ledger), s, e) {
      BoundGrows(k, w, ledger, s, e);
    }
    if !Untouched(w) {
      var s, e :| Bound(k, w, s, e);
      assert Bound(k, w.(ledger := ledger), s, e);
    }
  }

  lemma StopSafe(k: Trust, w: World)
    requires Safe(k, w)
    ensures Safe(k, Stop(w))
  {
    hide Bound;
    StoppedHistory(k, w);
  }

  lemma StoppedHistory(k: Trust, w: World)
    requires HistorySound(k, w)
    ensures HistorySound(k, Stop(w))
  {
    if !Untouched(w) {
      var s, e :| Bound(k, w, s, e);
      assert Bound(k, Stop(w), s, e);
    }
  }

  lemma SurvivorDurable(slot: Slot, bytes: Bytes, loss: Loss)
    requires Durable(slot, bytes)
    ensures Survivor(slot, loss) == slot
  {
  }

  lemma SurvivorSaved(k: Trust, slot: Slot, loss: Loss, ledger: Ledger, scope: Scope, event: Event)
    requires SavedSound(k, slot, ledger, scope, event)
    ensures SavedSound(k, Survivor(slot, loss), ledger, scope, event)
  {
  }

  /** A power failure keeps what was bound. */
  lemma BoundSurvives(k: Trust, w: World, failure: Failure, scope: Scope, event: Event)
    requires Bound(k, w, scope, event) && DirectorySound(w.disk)
    ensures Bound(k, Stop(w.(disk := AfterFailure(w.disk, failure))), scope, event)
  {
    hide Survivor, SavedSound, SavedFile;
    SurvivorDurable(w.disk.marker, ScopeLines(scope), failure.marker);
    SurvivorDurable(w.disk.request, EventText(event), failure.request);
    SurvivorSaved(k, w.disk.saved, failure.saved, w.ledger, scope, event);
    if w.acknowledged != [] {
      SurvivorDurable(w.disk.saved, ReceiptText(w.acknowledged[0]), failure.saved);
    }
  }

  lemma FailureSafe(k: Trust, w: World, failure: Failure)
    requires Safe(k, w)
    ensures Safe(k, Next(w, PowerFail(failure)))
  {
    hide Bound;
    if !Untouched(w) {
      var s, e :| Bound(k, w, s, e);
      BoundSurvives(k, w, failure, s, e);
    }
  }

  /** Changing files other than the marker, the request and the saved receipt touches nothing bound. */
  lemma HistoryFrame(k: Trust, w: World, v: World)
    requires HistorySound(k, w) && v.ledger == w.ledger && v.sent == w.sent && v.acknowledged == w.acknowledged
    requires v.disk.saved == w.disk.saved
    requires w.sent != []
        ==> v.disk.kept == w.disk.kept && v.disk.marker == w.disk.marker && v.disk.request == w.disk.request
    ensures HistorySound(k, v)
    ensures forall s, e :: Bound(k, w, s, e) && w.sent != [] ==> Bound(k, v, s, e)
  {
    hide SavedSound;
    if w.sent != [] {
      var s, e :| Bound(k, w, s, e);
      assert Bound(k, v, s, e);
    }
  }

  lemma BeginSafe(k: Trust, w: World, job: Job)
    requires Safe(k, w)
    ensures Safe(k, Next(w, Begin(job)))
  {
    hide Bound, Untouched;
    var v := w.(caller := Some(Caller(job, Enter, Receipt(0))));
    HistoryFrame(k, w, v);
  }

  lemma TearSafe(k: Trust, w: World, length: nat)
    requires Safe(k, w)
    ensures Safe(k, Next(w, Tear(length)))
  {
    hide Bound, Untouched, HistorySound;
    var v := Next(w, Tear(length));
    if w.caller.Some? && w.caller.value.stage.Saving? && w.caller.value.stage.phase == Write {
      HistoryFrame(k, w, v);
    }
  }

  /** An honest explanation settles whether the told receipt is kept. */
  lemma ExplainSafe(k: Trust, w: World, lines: Option<seq<Line>>)
    requires Safe(k, w) && Trusted(k, w, Explain(lines))
    ensures Safe(k, Next(w, Explain(lines)))
  {
    hide Bound, Untouched, HistorySound;
    var v := Next(w, Explain(lines));
    if v != w {
      HistoryFrame(k, w, v);
      if v.caller.Some? {
        CallerFree(k, w, w.caller.value);
        ExplainedGood(k, w, w.caller.value, lines.value);
      }
    }
  }

  lemma ExplainedGood(k: Trust, w: World, c: Caller, lines: seq<Line>)
    requires w.caller == Some(c) && WasTold(k, w, c) && Trusted(k, w, Explain(Some(lines)))
    requires Verified(lines, c.claim, c.job.event.operation)
    ensures Good(k, w.ledger, c.job.scope, c.job.event, c.claim)
  {
    hide Bound, Verified;
    if k.Explanations? {
      VerifiedKept(lines, w.ledger, c.job.scope.account, c.claim, c.job.event.operation);
    }
  }

  // ----- the submission -----

  lemma SentBound(k: Trust, w: World, c: Caller)
    requires w.disk.request.now.Some? && Bound(k, w, c.job.scope, c.job.event)
    ensures Carried(w.disk.request.now.value.bytes) == Some(c.job.event)
    ensures Bound(k, w.(sent := w.sent + [Sent(c.job.scope, w.disk.request.now.value.bytes)]), c.job.scope, c.job.event)
  {
    hide SavedSound, SavedFile;
  }

  lemma TookSound(ledger: Ledger, scope: Scope, event: Event, delivery: Delivery)
    requires LedgerSound(ledger)
    ensures LedgerSound(After(ledger, scope, event, delivery)) && ledger <= After(ledger, scope, event, delivery)
  {
    hide LedgerSound, Booked;
    BookedSound(ledger, scope, event);
  }

  /** What the caller is told in the ledger's own answer is retained. */
  lemma ToldRetained(ledger: Ledger, scope: Scope, event: Event, delivery: Delivery)
    requires !delivery.Claimed? && Told(ledger, scope, event, delivery).Some?
    ensures Retained(After(ledger, scope, event, delivery), scope, event, Told(ledger, scope, event, delivery).value)
  {
    hide Answered, Booked, Retained;
    AnswerRetained(ledger, scope, event);
  }

  lemma RetainedGood(ledger: Ledger, scope: Scope, event: Event, r: Receipt)
    requires Retained(ledger, scope, event, r)
    ensures Good(Answers, ledger, scope, event, r)
  {
  }

  /** What a submission leaves is bound to the caller's job, and an answer makes its claim. */
  lemma SubmissionBound(k: Trust, w: World, c: Caller, delivery: Delivery)
    requires Safe(k, w) && w.caller == Some(c) && c.stage == Submit && w.disk.request.now.Some?
    requires Trusted(k, w, Send(delivery))
    ensures var v := Submission(w, c, w.disk.request.now.value.bytes, delivery);
            && Bound(k, v, c.job.scope, c.job.event) && v.sent != [] && v.disk == w.disk && LedgerSound(v.ledger)
               && w.ledger <= v.ledger
            && (v.caller.Some? ==>
                 && v.caller.value.job == c.job && v.caller.value.stage == Verify
                 && (k.Answers? ==> Good(k, v.ledger, c.job.scope, c.job.event, v.caller.value.claim)))
  {
    hide Bound, SavedSound, Good, Told, After, LedgerSound;
    SentBound(k, w, c);
    var sent := w.(sent := w.sent + [Sent(c.job.scope, w.disk.request.now.value.bytes)]);
    TookSound(w.ledger, c.job.scope, c.job.event, delivery);
    if k.Answers? && Told(w.ledger, c.job.scope, c.job.event, delivery).Some? {
      ToldRetained(w.ledger, c.job.scope, c.job.event, delivery);
      RetainedGood(After(w.ledger, c.job.scope, c.job.event, delivery), c.job.scope, c.job.event,
                   Told(w.ledger, c.job.scope, c.job.event, delivery).value);
    }
    var ledger := After(w.ledger, c.job.scope, c.job.event, delivery);
    BoundGrows(k, sent, ledger, c.job.scope, c.job.event);
    CallerFree(k, sent, c);
    CallerFree(k, sent.(ledger := ledger), c);
  }

  /** Nothing bound depends on the caller. */
  lemma CallerFree(k: Trust, w: World, c: Caller)
    requires Bound(k, w, c.job.scope, c.job.event)
    ensures forall caller :: Bound(k, w.(caller := caller), c.job.scope, c.job.event)
  {
  }

  lemma SendSafe(k: Trust, w: World, delivery: Delivery)
    requires Safe(k, w)
    requires Trusted(k, w, Send(delivery))
    ensures Safe(k, Next(w, Send(delivery)))
  {
    hide Bound, Untouched, Good, LedgerSound, Submission;
    if w.caller.Some? && w.caller.value.stage == Submit && w.disk.request.now.Some? {
      SubmissionBound(k, w, w.caller.value, delivery);
    }
  }

  // ----- the caller's file operations -----

  /** Syncing a name or a file changes nothing bound, and moving on changes nothing at all. */
  lemma BoundSync(k: Trust, w: World, scope: Scope, event: Event)
    requires Bound(k, w, scope, event)
    ensures Bound(k, w.(disk := SyncDirectory(w.disk)), scope, event)
    ensures forall name :: Bound(k, w.(disk := Put(w.disk, name, SyncData(Get(w.disk, name)))), scope, event)
  {
    forall name ensures Bound(k, w.(disk := Put(w.disk, name, SyncData(Get(w.disk, name)))), scope, event) {
      assert name == Saved ==> SyncData(w.disk.saved) == w.disk.saved;
    }
  }

  lemma HistorySync(k: Trust, w: World)
    requires HistorySound(k, w)
    ensures HistorySound(k, w.(disk := SyncDirectory(w.disk)))
    ensures forall name :: HistorySound(k, w.(disk := Put(w.disk, name, SyncData(Get(w.disk, name)))))
  {
    hide Bound;
    if !Untouched(w) {
      var s, e :| Bound(k, w, s, e);
      BoundSync(k, w, s, e);
    }
  }

  lemma MovedHistory(k: Trust, w: World, c: Caller, stage: Stage)
    requires HistorySound(k, w)
    ensures HistorySound(k, GoTo(w, c, stage))
  {
    HistoryFrame(k, w, GoTo(w, c, stage));
  }

  lemma CheckSafe(k: Trust, w: World, c: Caller, name: Name)
    requires Safe(k, w) && w.caller == Some(c) && c.stage == Saving(name, Check)
    ensures Safe(k, SaveStep(w, c, name, Check))
  {
    hide SavedSound, SavedFile, Good, LedgerSound;
    var v := SaveStep(w, c, name, Check);
    StopSafe(k, w);
    if v.caller.Some? {
      if w.sent != [] {
        var s, e :| Bound(k, w, s, e);
      }
      HistoryFrame(k, w, v);
    }
  }

  lemma WriteSafe(k: Trust, w: World, c: Caller, name: Name)
    requires Safe(k, w) && w.caller == Some(c) && c.stage == Saving(name, Write)
    ensures Safe(k, SaveStep(w, c, name, Write))
  {
    hide SavedSound, SavedFile, Good, LedgerSound;
    HistoryFrame(k, w, SaveStep(w, c, name, Write));
  }

  lemma FlushSafe(k: Trust, w: World, c: Caller, name: Name)
    requires Safe(k, w) && w.caller == Some(c) && c.stage == Saving(name, Flush)
    ensures Safe(k, SaveStep(w, c, name, Flush))
  {
    hide SavedSound, SavedFile, Good, LedgerSound;
    HistoryFrame(k, w, SaveStep(w, c, name, Flush));
  }

  lemma SyncSafe(k: Trust, w: World, c: Caller, name: Name)
    requires Safe(k, w) && w.caller == Some(c) && c.stage == Saving(name, Sync)
    ensures Safe(k, SaveStep(w, c, name, Sync))
  {
    hide SavedSound, SavedFile, Good, LedgerSound, HistorySound;
    var disk := Put(w.disk, name, SyncData(Get(w.disk, name)));
    HistorySync(k, w);
    MovedHistory(k, w.(disk := disk), c, Saving(name, Settle));
  }

  lemma ListSafe(k: Trust, w: World, c: Caller, name: Name)
    requires Safe(k, w) && w.caller == Some(c) && c.stage == Saving(name, List)
    ensures Safe(k, SaveStep(w, c, name, List))
  {
    hide SavedFile, Good, LedgerSound, HistorySound;
    HistorySync(k, w);
    MovedHistory(k, w.(disk := SyncDirectory(w.disk)), c, Saving(name, Sync));
  }

  /** Once its name is synced, a request that was looked up or written binds the run to the job. */
  lemma RequestBinds(k: Trust, w: World, c: Caller)
    requires HistorySound(k, w) && HasMarker(w, c) && Durable(w.disk.request, EventText(c.job.event))
    ensures Bound(k, w, c.job.scope, c.job.event)
  {
    hide SavedFile;
    if w.sent != [] {
      var s, e :| Bound(k, w, s, e);
      assert s == c.job.scope && e == c.job.event;
    }
  }

  lemma SettleSafe(k: Trust, w: World, c: Caller, name: Name)
    requires Safe(k, w) && w.caller == Some(c) && c.stage == Saving(name, Settle)
    ensures Safe(k, SaveStep(w, c, name, Settle))
  {
    hide SavedFile, Good, LedgerSound, HistorySound, Bound;
    var v := w.(disk := SyncDirectory(w.disk));
    HistorySync(k, w);
    MovedHistory(k, v, c, AfterSaving(name));
    if name == Request {
      RequestBinds(k, v, c);
      CallerFree(k, v, c);
    } else if name == Pending {
      BoundSync(k, w, c.job.scope, c.job.event);
      CallerFree(k, v, c);
    }
  }

  lemma SaveStepSafe(k: Trust, w: World, c: Caller, name: Name, phase: Phase)
    requires Safe(k, w) && w.caller == Some(c) && c.stage == Saving(name, phase)
    ensures Safe(k, SaveStep(w, c, name, phase))
  {
    hide Safe, SaveStep;
    match phase
    case Check => CheckSafe(k, w, c, name);
    case Write => WriteSafe(k, w, c, name);
    case Flush => FlushSafe(k, w, c, name);
    case List => ListSafe(k, w, c, name);
    case Sync => SyncSafe(k, w, c, name);
    case Settle => SettleSafe(k, w, c, name);
  }

  lemma EnterSafe(k: Trust, w: World, c: Caller)
    requires Safe(k, w) && w.caller == Some(c) && (c.stage == Enter || c.stage == EnterSync)
    ensures Safe(k, Proceed(w, c))
  {
    hide SavedSound, LedgerSound;
    HistoryFrame(k, w, Proceed(w, c));
    if w.sent != [] {
      var s, e :| Bound(k, w, s, e);
    }
  }

  /** A receipt file that parses to the claim holds the claim's own text. */
  lemma RecallSafe(k: Trust, w: World, c: Caller)
    requires Safe(k, w) && w.caller == Some(c) && c.stage == Recall
    ensures Safe(k, Proceed(w, c))
  {
    hide LedgerSound, Good;
    StopSafe(k, w);
    HistoryFrame(k, w, Proceed(w, c));
    CallerFree(k, w, c);
  }

  lemma ReplaceBound(k: Trust, w: World, c: Caller)
    requires Safe(k, w) && w.caller == Some(c) && c.stage == Replace
    ensures Bound(k, Proceed(w, c), c.job.scope, c.job.event)
  {
    var v := Proceed(w, c);
    assert v.disk.saved.past == w.disk.saved.past + {None};
    assert w.acknowledged != [] ==> Durable(w.disk.saved, ReceiptText(w.acknowledged[0]));
  }

  lemma ReplaceSafe(k: Trust, w: World, c: Caller)
    requires Safe(k, w) && w.caller == Some(c) && c.stage == Replace
    ensures Safe(k, Proceed(w, c))
  {
    hide LedgerSound, Good, Bound, SavedSound;
    ReplaceBound(k, w, c);
    KeptDirectory(k, w, c);
  }

  lemma KeptDirectory(k: Trust, w: World, c: Caller)
    requires Bound(k, w, c.job.scope, c.job.event)
    ensures w.disk.kept
  {
  }

  lemma SealSafe(k: Trust, w: World, c: Caller)
    requires Safe(k, w) && w.caller == Some(c) && (c.stage == SealFile || c.stage == SealName)
    ensures Safe(k, Proceed(w, c))
  {
    hide LedgerSound, Good, Bound, SavedSound, SavedFile;
    BoundSync(k, w, c.job.scope, c.job.event);
    var v := if c.stage == SealFile
        then w.(disk := Put(w.disk, Saved, SyncData(Get(w.disk, Saved)))) else w.(disk := SyncDirectory(w.disk));
    assert Bound(k, v, c.job.scope, c.job.event);
    CallerFree(k, v, c);
    KeptDirectory(k, w, c);
  }

  lemma AcknowledgeSafe(k: Trust, w: World, c: Caller)
    requires Safe(k, w) && w.caller == Some(c) && c.stage == Acknowledge
    ensures Safe(k, Proceed(w, c))
  {
    hide LedgerSound, Good, SavedSound, SavedFile;
    assert Bound(k, Proceed(w, c), c.job.scope, c.job.event);
  }

  lemma ContinueSafe(k: Trust, w: World)
    requires Safe(k, w)
    ensures Safe(k, Next(w, Continue))
  {
    hide Safe, Proceed;
    if w.caller.Some? {
      var c := w.caller.value;
      match c.stage
      case Enter => EnterSafe(k, w, c);
      case EnterSync => EnterSafe(k, w, c);
      case Saving(name, phase) => SavingProceeds(k, w, c, name, phase);
      case Submit => WaitProceeds(k, w, c);
      case Verify => WaitProceeds(k, w, c);
      case Recall => RecallSafe(k, w, c);
      case Replace => ReplaceSafe(k, w, c);
      case SealFile => SealSafe(k, w, c);
      case SealName => SealSafe(k, w, c);
      case Acknowledge => AcknowledgeSafe(k, w, c);
    }
  }

  lemma WaitProceeds(k: Trust, w: World, c: Caller)
    requires Safe(k, w) && (c.stage == Submit || c.stage == Verify)
    ensures Safe(k, Proceed(w, c))
  {
  }

  lemma SavingProceeds(k: Trust, w: World, c: Caller, name: Name, phase: Phase)
    requires Safe(k, w) && w.caller == Some(c) && c.stage == Saving(name, phase)
    ensures Safe(k, Proceed(w, c))
  {
    hide Safe, SaveStep;
    SaveStepSafe(k, w, c, name, phase);
  }

  // ----- every run -----

  lemma StepSafe(k: Trust, w: World, a: Action)
    requires Safe(k, w) && Trusted(k, w, a)
    ensures Safe(k, Next(w, a))
  {
    hide Safe, Next;
    match a
    case Begin(job) => BeginSafe(k, w, job);
    case Continue => ContinueSafe(k, w);
    case Tear(length) => TearSafe(k, w, length);
    case Send(delivery) => SendSafe(k, w, delivery);
    case Explain(lines) => ExplainSafe(k, w, lines);
    case Kill => KillSafe(k, w);
    case PowerFail(failure) => FailureSafe(k, w, failure);
    case Elsewhere(scope, event) => ElsewhereSafe(k, w, scope, event);
  }

  lemma KillSafe(k: Trust, w: World)
    requires Safe(k, w)
    ensures Safe(k, Next(w, Kill))
  {
    StopSafe(k, w);
  }

  lemma StartSafe(k: Trust)
    ensures Safe(k, START)
  {
  }

  lemma {:induction false} RunSafe(k: Trust, w: World, actions: seq<Action>)
    requires Safe(k, w) && TrustedRun(k, w, actions)
    ensures Safe(k, Run(w, actions))
    decreases |actions|
  {
    hide Safe, Next, Trusted;
    if actions != [] {
      StepSafe(k, w, actions[0]);
      RunSafe(k, Next(w, actions[0]), actions[1..]);
    }
  }
}
