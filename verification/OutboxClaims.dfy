/** What a false claim can do to an outbox whose explanations are honest. */
module OutboxClaims {
  import opened Wrappers
  import opened Outbox
  import opened OutboxSafety
  import opened OutboxRuns
  import opened OutboxRetry
  import opened OutboxStuck

  function Verifying(job: Job, r: Receipt): Option<seq<Line>> { Some([Line(r, job.event.operation)]) }

  lemma VerifyingHonest(ledger: Ledger, job: Job, r: Receipt)
    requires KeptForOperation(ledger, job.scope.account, job.event.operation, r)
    ensures Honest(Verifying(job, r).value, ledger, job.scope.account)
    ensures Verified(Verifying(job, r).value, r, job.event.operation)
  {
    assert Verifying(job, r).value[1..] == [];
  }

  function Settled(job: Job): Disk {
    MADE.(marker := On(ScopeLines(job.scope)), request := On(EventText(job.event)))
  }

  /** Told a receipt that the account keeps for the operation, a caller gets past the explanation. */
  lemma ReachRecall(ledger: Ledger, job: Job, r: Receipt)
    requires Leads(Explanations, START, START.(ledger := ledger))
    requires KeptForOperation(ledger, job.scope.account, job.event.operation, r)
    ensures Leads(Explanations, START,
              Fresh(ledger, Settled(job), job, Recall, r, [Sent(job.scope, EventText(job.event))]))
  {
    hide Leads, Verified, KeptForOperation, Honest;
    ReachSubmit(Explanations, ledger, job);
    var w := Submitting(ledger, job);
    LeadsNext(Explanations, START, w, Send(Claimed(false, r)));
    var v := Next(w, Send(Claimed(false, r)));
    assert [] + [Sent(job.scope, EventText(job.event))] == [Sent(job.scope, EventText(job.event))];
    assert v == Fresh(ledger, Settled(job), job, Verify, r, [Sent(job.scope, EventText(job.event))]);
    VerifyingHonest(ledger, job, r);
    LeadsNext(Explanations, START, v, Explain(Verifying(job, r)));
  }

  /** An acknowledged receipt that the ledger does not keep for what was sent. */
  ghost predicate Misled(w: World) {
    w.acknowledged != [] && !AcceptedAt(w, w.acknowledged[0].serial)
  }

  lemma TookElsewhere(ledger: Ledger, a: Acceptance)
    requires Leads(Explanations, START, START.(ledger := ledger)) && Answered(ledger, a.scope, a.event).Accepted?
    ensures Leads(Explanations, START, START.(ledger := ledger + [a]))
  {
    hide Leads, Answered;
    var w := START.(ledger := ledger);
    LeadsNext(Explanations, START, w, Elsewhere(a.scope, a.event));
    assert Next(w, Elsewhere(a.scope, a.event)) == START.(ledger := ledger + [a]);
  }

  const EVENT := Event(0, 0, 0)
  const JOB := Job(Scope(0, 0), EVENT)

  /** Two other sources of the account had their own events of that operation accepted. */
  const OTHERS := [Acceptance(Scope(0, 1), EVENT), Acceptance(Scope(0, 2), EVENT)]

  lemma ReachOthers()
    ensures Leads(Explanations, START, START.(ledger := OTHERS))
  {
    hide Leads;
    LeadsSelf(Explanations, START);
    assert START.(ledger := []) == START && [] + [OTHERS[0]] == [OTHERS[0]] && [OTHERS[0]] + [OTHERS[1]] == OTHERS;
    TookElsewhere([], OTHERS[0]);
    FindExact([OTHERS[0]], OTHERS[1].scope, OTHERS[1].event);
    TookElsewhere([OTHERS[0]], OTHERS[1]);
  }

  /** An honest explanation does not tell which source an operation came from: with a false claim an outbox
      may acknowledge the receipt of another source's event, and its own was never accepted. */
  lemma SourceMayDiffer()
    ensures exists actions :: TrustedRun(Explanations, START, actions) && Misled(Run(START, actions))
  {
    hide Leads, Steps;
    ReachOthers();
    ReachRecall(OTHERS, JOB, Receipt(0));
    var u := Fresh(OTHERS, Settled(JOB), JOB, Recall, Receipt(0), [Sent(JOB.scope, EventText(EVENT))]);
    RecallAcknowledges(u, u.caller.value);
    StepsKeep(u, TO_ACKNOWLEDGE);
    LeadsSteps(Explanations, START, u, TO_ACKNOWLEDGE);
    LeadsRun(Explanations, Steps(u, TO_ACKNOWLEDGE));
  }

  // ----- a receipt that was not sealed -----

  /** The receipt file is in place, but its name is not on disk yet. */
  lemma ReachUnsealed(ledger: Ledger, job: Job, r: Receipt) returns (w: World)
    requires Leads(Explanations, START, START.(ledger := ledger))
    requires KeptForOperation(ledger, job.scope.account, job.event.operation, r)
    ensures Leads(Explanations, START, w) && w.acknowledged == [] && w.ledger == ledger
    ensures w.sent == [Sent(job.scope, EventText(job.event))]
    ensures w.disk == Settled(job).(saved := Slot(Some(File(ReceiptText(r), true)), {None}),
                                    pending := Slot(None, {Some(File(ReceiptText(r), true))}))
  {
    hide Leads, Steps, KeptForOperation;
    ReachRecall(ledger, job, r);
    var u := Fresh(ledger, Settled(job), job, Recall, r, [Sent(job.scope, EventText(job.event))]);
    LeadsNext(Explanations, START, u, Continue);
    var v := Next(u, Continue);
    SaveAbsent(v, v.caller.value, Pending);
    LeadsSteps(Explanations, START, v, 6);
    LeadsNext(Explanations, START, Steps(v, 6), Continue);
    w := Next(Steps(v, 6), Continue);
  }

  /** The power fails, and the directory still has neither of the two receipt names. */
  function Forgetting(disk: Disk): Failure {
    Failure(true, Loss(disk.marker.now, Torn(0)), Loss(disk.request.now, Torn(0)), Loss(None, Torn(0)),
            Loss(None, Torn(0)))
  }

  lemma LeadsSafe(w: World)
    requires Leads(Explanations, START, w)
    ensures Safe(Nothing, w)
  {
    hide Run, Safe;
    var actions :| TrustedRun(Explanations, START, actions) && Run(START, actions) == w;
    StartSafe(Nothing);
    AnyRunSafe(START, actions);
  }

  lemma LeadsRetry(w: World, v: World, job: Job, r: Receipt)
    requires Leads(Explanations, w, v) && Unsettled(Nothing, v, job)
    requires KeptForOperation(v.ledger, job.scope.account, job.event.operation, r)
    ensures Leads(Explanations, w, Retry(v, job, Claimed(false, r), Verifying(job, r)))
  {
    hide Leads, Steps, KeptForOperation, Honest, Verified, Bound, Safe;
    UnsettledBound(Nothing, v, job);
    RequestThere(Nothing, v, job);
    ReachesSubmit(Nothing, v, job);
    LeadsNext(Explanations, w, v, Begin(job));
    LeadsSteps(Explanations, w, Next(v, Begin(job)), TO_SUBMIT);
    var submitting := Steps(Next(v, Begin(job)), TO_SUBMIT);
    LeadsNext(Explanations, w, submitting, Send(Claimed(false, r)));
    var verifying := Next(submitting, Send(Claimed(false, r)));
    VerifyingHonest(v.ledger, job, r);
    LeadsNext(Explanations, w, verifying, Explain(Verifying(job, r)));
    LeadsSteps(Explanations, w, Next(verifying, Explain(Verifying(job, r))), TO_ACKNOWLEDGE);
  }

  /** The receipt file holds one thing at one point of a run and something else at a later one. */
  ghost predicate Changes(before: seq<Action>, after: seq<Action>) {
    var w := Run(START, before);
    var v := Run(w, after);
    && TrustedRun(Explanations, START, before) && TrustedRun(Explanations, w, after)
    && w.disk.saved.now.Some? && v.disk.saved.now.Some? && w.disk.saved.now.value != v.disk.saved.now.value
  }

  /** Told one receipt and, after a power failure, another one, an outbox replaces a receipt file whose name
      was not on disk yet. */
  lemma ReceiptMayChange()
    ensures exists before, after :: Changes(before, after)
  {
    hide Leads, Retry, Safe, Run, TrustedRun;
    ReachOthers();
    var w := ReachUnsealed(OTHERS, JOB, Receipt(0));
    var v := Next(w, PowerFail(Forgetting(w.disk)));
    LeadsNext(Explanations, START, w, PowerFail(Forgetting(w.disk)));
    LeadsSafe(v);
    assert v.disk == Settled(JOB);
    LeadsSelf(Explanations, w);
    LeadsNext(Explanations, w, w, PowerFail(Forgetting(w.disk)));
    LeadsRetry(START, v, JOB, Receipt(1));
    LeadsRetry(w, v, JOB, Receipt(1));
    VerifyingHonest(OTHERS, JOB, Receipt(1));
    RetryExact(v, JOB, Claimed(false, Receipt(1)), Verifying(JOB, Receipt(1)));
    var z := Retry(v, JOB, Claimed(false, Receipt(1)), Verifying(JOB, Receipt(1)));
    LeadsSafe(z);
    AcknowledgedKept(Nothing, z, 0);
    LeadsFrom(START, w);
    var before :| TrustedRun(Explanations, START, before) && Run(START, before) == w;
    LeadsFrom(w, z);
    var after :| TrustedRun(Explanations, w, after) && Run(w, after) == z;
    assert Changes(before, after);
  }

  lemma LeadsFrom(w: World, v: World)
    requires Leads(Explanations, w, v)
    ensures exists actions :: TrustedRun(Explanations, w, actions) && Run(w, actions) == v
  {
  }
}
