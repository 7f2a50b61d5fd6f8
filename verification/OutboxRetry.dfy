/** An undisturbed retry of the outbox: exactly when it acknowledges. */
module OutboxRetry {
  import opened Wrappers
  import opened Outbox
  import opened OutboxSafety
  import opened OutboxRuns

  /** The caller takes `n` file operations with nothing in between. */
  function Steps(w: World, n: nat): World
    decreases n
  {
    if n == 0 then w else Steps(Next(w, Continue), n - 1)
  }

  lemma {:induction false} StepsAdd(w: World, m: nat, n: nat)
    ensures Steps(w, m + n) == Steps(Steps(w, m), n)
    decreases m
  {
    if m > 0 {
      StepsAdd(Next(w, Continue), m - 1, n);
    }
  }

  lemma Unfold3(w: World)
    ensures Steps(w, 3) == Next(Next(Next(w, Continue), Continue), Continue)
  {
    hide Next;
    var a := Next(w, Continue);
    var b := Next(a, Continue);
    assert Steps(b, 1) == Steps(Next(b, Continue), 0);
    assert Steps(a, 2) == Steps(b, 1);
  }

  lemma {:induction false} StepsIdle(w: World, n: nat)
    requires w.caller == None
    ensures Steps(w, n) == w
    decreases n
  {
    if n > 0 {
      StepsIdle(Next(w, Continue), n - 1);
    }
  }

  // ----- saving a file -----

  /** A file that already holds the data is synced, under its name too. */
  lemma SaveFound(w: World, c: Caller, name: Name)
    requires w.caller == Some(c.(stage := Saving(name, Check))) && Get(w.disk, name).now.Some?
    requires Get(w.disk, name).now.value.bytes == Data(c, name)
    ensures Steps(w, 3) == GoTo(w.(disk := SyncDirectory(Put(w.disk, name, SyncData(Get(w.disk, name))))), c,
        AfterSaving(name))
  {
    Unfold3(w);
  }

  lemma SaveOther(w: World, c: Caller, name: Name)
    requires w.caller == Some(c.(stage := Saving(name, Check))) && Get(w.disk, name).now.Some?
    requires Get(w.disk, name).now.value.bytes != Data(c, name)
    ensures Steps(w, 6) == Stop(w) && Steps(w, 3) == Stop(w)
  {
    assert Next(w, Continue) == Stop(w);
    StepsIdle(Stop(w), 5);
    StepsIdle(Stop(w), 2);
  }

  lemma WrittenFile(w: World, c: Caller, name: Name)
    requires w.caller == Some(c.(stage := Saving(name, Check))) && Get(w.disk, name).now == None
    ensures Steps(w, 3)
         == GoTo(w.(disk := Put(w.disk, name,
             Slot(Some(File(Data(c, name), true)), Get(w.disk, name).past + {None}))), c, Saving(name, List))
  {
    hide Steps;
    Unfold3(w);
  }

  lemma ListedFile(w: World, c: Caller, name: Name)
    requires w.caller == Some(c.(stage := Saving(name, List)))
        && Get(w.disk, name).now == Some(File(Data(c, name), true))
    ensures Steps(w, 3) == GoTo(w.(disk := SyncDirectory(w.disk)), c, AfterSaving(name))
  {
    hide Steps;
    Unfold3(w);
  }

  /** A file that is absent is created, written, flushed and synced. */
  lemma SaveAbsent(w: World, c: Caller, name: Name)
    requires w.caller == Some(c.(stage := Saving(name, Check))) && Get(w.disk, name).now == None
    ensures Steps(w, 6)
         == GoTo(w.(disk := SyncDirectory(Put(w.disk, name, Slot(Some(File(Data(c, name), true)), {})))), c,
             AfterSaving(name))
  {
    hide Steps, Next;
    StepsAdd(w, 3, 3);
    WrittenFile(w, c, name);
    ListedFile(Steps(w, 3), c, name);
  }

  // ----- a retry -----

  const TO_SUBMIT := 8
  const TO_ACKNOWLEDGE := 11

  /** One whole run of the caller: the submission ends in some way, and an explanation is asked for. */
  function Retry(w: World, job: Job, delivery: Delivery, lines: Option<seq<Line>>): World {
    var submitting := Steps(Next(w, Begin(job)), TO_SUBMIT);
    Steps(Next(Next(submitting, Send(delivery)), Explain(lines)), TO_ACKNOWLEDGE)
  }

  /** The request was sent before, by a caller that is gone. */
  ghost predicate Unsettled(k: Trust, w: World, job: Job) {
    Safe(k, w) && w.caller == None && w.sent != [] && w.sent[0] == Sent(job.scope, EventText(job.event))
  }

  lemma UnsettledBound(k: Trust, w: World, job: Job)
    requires Unsettled(k, w, job)
    ensures Bound(k, w, job.scope, job.event) && w.disk.made && w.disk.kept
  {
    hide SavedSound, LedgerSound;
    var s, e :| Bound(k, w, s, e);
    assert w.sent[0] == Sent(s, EventText(e));
  }

  lemma Unfold2(w: World)
    ensures Steps(w, 2) == Next(Next(w, Continue), Continue)
  {
    hide Next;
    assert Steps(Next(w, Continue), 1) == Steps(Next(Next(w, Continue), Continue), 0);
  }

  lemma ReachesMarker(k: Trust, w: World, job: Job)
    requires Unsettled(k, w, job)
    ensures Steps(Next(w, Begin(job)), 2) == w.(caller := Some(Caller(job, Saving(Marker, Check), Receipt(0))))
  {
    hide Safe;
    UnsettledBound(k, w, job);
    Unfold2(Next(w, Begin(job)));
  }

  lemma SyncSettled(disk: Disk, name: Name, bytes: Bytes)
    requires Durable(Get(disk, name), bytes)
    ensures Put(disk, name, SyncData(Get(disk, name))) == disk && Get(SyncDirectory(disk), name) == Get(disk, name)
  {
  }

  /** Finding its marker and request on disk, the caller gets to the submission and has synced the rest. */
  lemma ReachesSubmit(k: Trust, w: World, job: Job)
    requires Unsettled(k, w, job)
    ensures Steps(Next(w, Begin(job)), TO_SUBMIT)
         == w.(disk := SyncDirectory(w.disk), caller := Some(Caller(job, Submit, Receipt(0))))
  {
    hide Safe, Next, Steps, SyncDirectory, Bound;
    UnsettledBound(k, w, job);
    var begun := Next(w, Begin(job));
    ReachesMarker(k, w, job);
    StepsAdd(begun, 2, 6);
    StepsAdd(Steps(begun, 2), 3, 3);
    MarkerThenRequest(k, w, job);
  }

  lemma MarkerThenRequest(k: Trust, w: World, job: Job)
    requires Bound(k, w, job.scope, job.event)
    ensures Steps(Steps(w.(caller := Some(Caller(job, Saving(Marker, Check), Receipt(0)))), 3), 3)
         == w.(disk := SyncDirectory(w.disk), caller := Some(Caller(job, Submit, Receipt(0))))
  {
    hide Steps, SavedSound;
    var c := Caller(job, Saving(Marker, Check), Receipt(0));
    var marking := w.(caller := Some(c));
    SyncSettled(w.disk, Marker, ScopeLines(job.scope));
    SaveFound(marking, c, Marker);
    var d := SyncDirectory(w.disk);
    var requesting := w.(disk := d, caller := Some(c.(stage := Saving(Request, Check))));
    assert Steps(marking, 3) == requesting;
    SyncSettled(w.disk, Request, EventText(job.event));
    SyncSettled(d, Request, EventText(job.event));
    SaveFound(requesting, c, Request);
    assert SyncDirectory(d) == d;
  }

  // ----- the receipt of the retry -----

  lemma SealsThenAcknowledges(w: World, c: Caller)
    requires w.caller == Some(c.(stage := SealFile))
    ensures Steps(w, 3).acknowledged == w.acknowledged + [c.claim] && Steps(w, 3).caller == None
  {
    Unfold3(w);
  }

  lemma SavedAcknowledges(w: World, c: Caller)
    requires w.caller == Some(c) && c.stage == Recall
    requires w.disk.saved.now.Some? && Parsed(w.disk.saved.now.value.bytes) == Some(c.claim)
    ensures Steps(w, TO_ACKNOWLEDGE).acknowledged == w.acknowledged + [c.claim]
        && Steps(w, TO_ACKNOWLEDGE).caller == None
  {
    hide Steps;
    One(w);
    StepsAdd(w, 1, 10);
    StepsAdd(Steps(w, 1), 3, 7);
    SealsThenAcknowledges(Steps(w, 1), c);
    StepsIdle(Steps(Steps(w, 1), 3), 7);
  }

  lemma One(w: World)
    ensures Steps(w, 1) == Next(w, Continue)
  {
    hide Next;
    assert Steps(w, 1) == Steps(Next(w, Continue), 0);
  }

  /** From the pending receipt on, when its file has become the claim's text. */
  lemma ReplacesThenAcknowledges(w: World, c: Caller)
    requires w.caller == Some(c.(stage := Replace))
    ensures Steps(w, 4).acknowledged == w.acknowledged + [c.claim] && Steps(w, 4).caller == None
  {
    hide Steps;
    One(w);
    StepsAdd(w, 1, 3);
    SealsThenAcknowledges(Steps(w, 1), c);
  }

  lemma PendingAcknowledges(w: World, c: Caller)
    requires w.caller == Some(c.(stage := Saving(Pending, Check)))
    ensures var z := Steps(w, 10);
            && z.caller == None
            && z.acknowledged
            == if w.disk.pending.now == None || w.disk.pending.now.value.bytes == ReceiptText(c.claim)
                then w.acknowledged + [c.claim] else w.acknowledged
  {
    hide Steps, Next, SyncDirectory;
    if w.disk.pending.now == None {
      SaveAbsent(w, c, Pending);
      StepsAdd(w, 6, 4);
      ReplacesThenAcknowledges(Steps(w, 6), c);
    } else if w.disk.pending.now.value.bytes == ReceiptText(c.claim) {
      SaveFound(w, c, Pending);
      StepsAdd(w, 3, 7);
      StepsAdd(Steps(w, 3), 4, 3);
      ReplacesThenAcknowledges(Steps(w, 3), c);
      StepsIdle(Steps(Steps(w, 3), 4), 3);
    } else {
      SaveOther(w, c, Pending);
      StepsAdd(w, 6, 4);
      StepsIdle(Stop(w), 4);
    }
  }

  lemma RecallAcknowledges(w: World, c: Caller)
    requires w.caller == Some(c) && c.stage == Recall
    ensures var z := Steps(w, TO_ACKNOWLEDGE);
            && z.caller == None
            && z.acknowledged == if ReceiptFits(w.disk, c.claim) then w.acknowledged + [c.claim] else w.acknowledged
  {
    hide Steps;
    if w.disk.saved.now.Some? {
      if ReceiptFits(w.disk, c.claim) {
        SavedAcknowledges(w, c);
      } else {
        One(w);
        StepsAdd(w, 1, 10);
        StepsIdle(Stop(w), 10);
      }
    } else {
      One(w);
      StepsAdd(w, 1, 10);
      PendingAcknowledges(Steps(w, 1), c);
    }
  }

  /** A retry of a request that was sent before acknowledges exactly when it is told a receipt, the
      explanation verifies it, and it can be saved; whoever's answer and whatever explanation that is. */
  lemma RetryExact(w: World, job: Job, delivery: Delivery, lines: Option<seq<Line>>)
    requires Unsettled(Nothing, w, job)
    ensures var z := Retry(w, job, delivery, lines);
            var told := Told(w.ledger, job.scope, job.event, delivery);
            && z.caller == None && z.ledger == After(w.ledger, job.scope, job.event, delivery)
            && z.acknowledged ==
                 if told.Some? && lines.Some? && Verified(lines.value, told.value, job.event.operation)
                    && ReceiptFits(w.disk, told.value)
                 then w.acknowledged + [told.value] else w.acknowledged
  {
    hide Safe, Steps, Told, After, Verified, SyncDirectory, Bound;
    ReachesSubmit(Nothing, w, job);
    var submitting := Steps(Next(w, Begin(job)), TO_SUBMIT);
    UnsettledBound(Nothing, w, job);
    RequestThere(Nothing, w, job);
    var recalling := Next(Next(submitting, Send(delivery)), Explain(lines));
    SameFiles(w.disk);
    StepsKeep(recalling, TO_ACKNOWLEDGE);
    if recalling.caller.Some? {
      RecallAcknowledges(recalling, recalling.caller.value);
    } else {
      StepsIdle(recalling, TO_ACKNOWLEDGE);
    }
  }

  lemma {:induction false} StepsKeep(w: World, n: nat)
    ensures Steps(w, n).sent == w.sent && Steps(w, n).ledger == w.ledger
    decreases n
  {
    if n > 0 {
      assert Next(w, Continue).sent == w.sent && Next(w, Continue).ledger == w.ledger;
      hide Next;
      StepsKeep(Next(w, Continue), n - 1);
    }
  }

  /** In its own answer the ledger names the one acceptance of the work, and conflicts are all it keeps
      silent about. */
  lemma ToldExact(ledger: Ledger, scope: Scope, event: Event, r: Receipt)
    requires LedgerSound(ledger)
    ensures Told(ledger, scope, event, Replied) == Some(r)
       <==> Retained(After(ledger, scope, event, Replied), scope, event, r)
  {
    hide LedgerSound;
    FindExact(ledger, scope, event);
    var told, after := Told(ledger, scope, event, Replied), After(ledger, scope, event, Replied);
    TookSound(ledger, scope, event, Replied);
    if told.Some? && Retained(after, scope, event, r) {
      ToldRetained(ledger, scope, event, Replied);
      RetainedUnique(after, scope, event, told.value, r);
    }
  }

  /** The ledger answers a submission exactly unless others took one of its identities for other work. */
  lemma ToldUnlessTaken(ledger: Ledger, scope: Scope, event: Event)
    ensures Told(ledger, scope, event, Replied) == None
       <==> && (exists i :: 0 <= i < |ledger| && SharesIdentity(ledger[i], scope, event))
            && (forall i :: 0 <= i < |ledger| ==> !SameWork(ledger[i], scope, event))
  {
    FindExact(ledger, scope, event);
  }

  /** When the ledger's answers have always been its own, its answer to the retry fits a receipt that was
      saved before, so only the explanation and a foreign pending file can keep it from acknowledging. */
  lemma AnswerFits(w: World, job: Job)
    requires Unsettled(Answers, w, job) && Told(w.ledger, job.scope, job.event, Replied).Some?
    ensures var told := Told(w.ledger, job.scope, job.event, Replied).value;
            ReceiptFits(w.disk, told) <==> w.disk.saved.now.Some? || Fits(w.disk.pending, ReceiptText(told))
  {
    hide Told, After;
    var told := Told(w.ledger, job.scope, job.event, Replied).value;
    UnsettledBound(Answers, w, job);
    if w.disk.saved.now.Some? {
      var v := w.disk.saved.now;
      assert v in w.disk.saved.past + {v};
      var after := After(w.ledger, job.scope, job.event, Replied);
      TookSound(w.ledger, job.scope, job.event, Replied);
      ToldRetained(w.ledger, job.scope, job.event, Replied);
      assert after[v.value.bytes.receipt.serial] == w.ledger[v.value.bytes.receipt.serial];
      RetainedUnique(after, job.scope, job.event, v.value.bytes.receipt, told);
    }
  }

  lemma SameFiles(disk: Disk)
    ensures forall name :: Get(SyncDirectory(disk), name).now == Get(disk, name).now
    ensures forall receipt :: ReceiptFits(SyncDirectory(disk), receipt) == ReceiptFits(disk, receipt)
  {
  }

  lemma RequestThere(k: Trust, w: World, job: Job)
    requires Bound(k, w, job.scope, job.event)
    ensures SyncDirectory(w.disk).request.now == Some(File(EventText(job.event), true))
  {
  }

  // ----- progress -----

  /** Once the ledger holds the work, however the reply was lost, an undisturbed retry that the ledger
      answers acknowledges the receipt of that acceptance: all it takes is an explanation with that one
      line and no other file under the pending name. */
  lemma RetryProgresses(w: World, job: Job, i: nat, lines: seq<Line>)
    requires Unsettled(Answers, w, job) && i < |w.ledger| && SameWork(w.ledger[i], job.scope, job.event)
    requires Verified(lines, Receipt(i), job.event.operation)
    requires w.disk.saved.now.Some? || Fits(w.disk.pending, ReceiptText(Receipt(i)))
    ensures var z := Retry(w, job, Replied, Some(lines));
            && z.caller == None && z.acknowledged == w.acknowledged + [Receipt(i)] && z.ledger == w.ledger
    ensures w.disk.saved.now.Some? ==> w.disk.saved.now.value.bytes == ReceiptText(Receipt(i))
  {
    hide Retry, Safe, Verified, Fits;
    NothingNeeded(w, job);
    SafeLedger(Answers, w);
    HeldAnswer(w.ledger, job.scope, job.event, i);
    RetryExact(w, job, Replied, Some(lines));
    AnswerFits(w, job);
    if w.disk.saved.now.Some? {
      SavedKept(Answers, w, w.disk.saved.now.value);
      RetainedUnique(w.ledger, job.scope, job.event, w.disk.saved.now.value.bytes.receipt, Receipt(i));
    }
  }

  /** What the ledger holds it answers with, and booking it again changes nothing. */
  lemma HeldAnswer(ledger: Ledger, scope: Scope, event: Event, i: nat)
    requires LedgerSound(ledger) && i < |ledger| && SameWork(ledger[i], scope, event)
    ensures Told(ledger, scope, event, Replied) == Some(Receipt(i)) && After(ledger, scope, event, Replied) == ledger
  {
    hide LedgerSound;
    FindExact(ledger, scope, event);
    RetainedUnique(ledger, scope, event, Receipt(Find(ledger, scope, event).value), Receipt(i));
  }

  lemma NothingNeeded(w: World, job: Job)
    requires Unsettled(Answers, w, job)
    ensures Unsettled(Nothing, w, job)
  {
    forall scope, event | Bound(Answers, w, scope, event) ensures Bound(Nothing, w, scope, event) {
      BoundWeakens(w, scope, event);
    }
  }

  lemma BoundWeakens(w: World, scope: Scope, event: Event)
    requires Bound(Answers, w, scope, event)
    ensures Bound(Nothing, w, scope, event)
  {
  }
}
