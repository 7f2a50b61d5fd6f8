/** How an outbox may end up. A file that a power failure left torn under one of the caller's names stops it
    for good: marker, request and pending receipt alike, and each of them can be reached. Others may have
    taken its identities. */
module OutboxStuck {
  import opened Wrappers
  import opened Outbox
  import opened OutboxSafety
  import opened OutboxRuns
  import opened OutboxRetry

  /** On disk for good, and nothing the caller would ever write under the name. */
  ghost predicate Foreign(slot: Slot, name: Name) {
    && slot.past == {} && slot.now.Some? && slot.now.value.synced
    && match name
       case Marker => !slot.now.value.bytes.ScopeLines?
       case Request => !slot.now.value.bytes.EventText?
       case Pending => !slot.now.value.bytes.ReceiptText?
       case Saved => false
  }

  predicate Precedes(n: Name, name: Name) {
    (n == Marker && name != Marker) || (n == Request && name == Pending)
  }

  /** The caller has not got past its look at the foreign file. */
  ghost predicate Before(c: Caller, name: Name) {
    match c.stage
    case Enter => true
    case EnterSync => true
    case Saving(n, phase) => Precedes(n, name) || (n == name && phase == Check)
    case Submit => name == Pending
    case Verify => name == Pending
    case Recall => name == Pending
    case _ => false
  }

  ghost predicate Stuck(w: World, name: Name) {
    && w.disk.kept && w.disk.made && Foreign(Get(w.disk, name), name)
    && (name == Pending ==> w.disk.saved == EMPTY)
    && (w.caller.Some? ==> Before(w.caller.value, name))
  }

  lemma StuckStep(w: World, a: Action, name: Name)
    requires Stuck(w, name)
    ensures Stuck(Next(w, a), name)
    ensures Next(w, a).acknowledged == w.acknowledged
    ensures name != Pending ==> Next(w, a).sent == w.sent
  {
    hide Answered, Booked, Verified, Parsed;
  }

  lemma StuckSame(w: World, a: Action, name: Name)
    requires Stuck(w, name)
    ensures Get(Next(w, a).disk, name) == Get(w.disk, name)
  {
    hide Answered, Booked, Verified, Parsed;
  }

  /** With a torn marker or request nothing is submitted any more, and with a torn pending receipt and
      no saved one nothing is acknowledged: all wait for the operator, whatever happens. */
  lemma {:induction false} StuckForever(w: World, actions: seq<Action>, name: Name)
    requires Stuck(w, name)
    ensures var v := Run(w, actions);
            && Get(v.disk, name) == Get(w.disk, name) && v.acknowledged == w.acknowledged
            && (name != Pending ==> v.sent == w.sent)
    decreases |actions|
  {
    hide Next, Stuck;
    if actions != [] {
      StuckStep(w, actions[0], name);
      StuckSame(w, actions[0], name);
      StuckForever(Next(w, actions[0]), actions[1..], name);
    }
  }

  // ----- runs of a fresh outbox -----

  lemma {:induction false} RunAppend(w: World, a: seq<Action>, b: seq<Action>)
    ensures Run(w, a + b) == Run(Run(w, a), b)
    decreases |a|
  {
    hide Next;
    if a == [] {
      assert a + b == b;
    } else {
      assert (a + b)[1..] == a[1..] + b;
      RunAppend(Next(w, a[0]), a[1..], b);
    }
  }

  lemma RunOne(w: World, a: Action)
    ensures Run(w, [a]) == Next(w, a)
  {
    hide Next;
    assert [a][1..] == [];
    assert Run(Next(w, a), []) == Next(w, a);
  }

  lemma {:induction false} TrustedAppend(k: Trust, w: World, a: seq<Action>, b: Action)
    requires TrustedRun(k, w, a) && Trusted(k, Run(w, a), b)
    ensures TrustedRun(k, w, a + [b])
    decreases |a|
  {
    hide Next, Trusted;
    if a == [] {
      assert ([] + [b])[1..] == [];
    } else {
      assert (a + [b])[1..] == a[1..] + [b];
      TrustedAppend(k, Next(w, a[0]), a[1..], b);
    }
  }

  /** Some run with this much trust leads from one world to another. */
  ghost predicate Leads(k: Trust, w: World, v: World) {
    exists actions :: TrustedRun(k, w, actions) && Run(w, actions) == v
  }

  lemma LeadsNext(k: Trust, w: World, v: World, a: Action)
    requires Leads(k, w, v) && Trusted(k, v, a)
    ensures Leads(k, w, Next(v, a))
  {
    hide Next, Run, TrustedRun, Trusted;
    var actions :| TrustedRun(k, w, actions) && Run(w, actions) == v;
    RunAppend(w, actions, [a]);
    RunOne(v, a);
    TrustedAppend(k, w, actions, a);
  }

  lemma LeadsSelf(k: Trust, w: World)
    ensures Leads(k, w, w)
  {
    assert TrustedRun(k, w, []) && Run(w, []) == w;
  }

  lemma {:induction false} LeadsSteps(k: Trust, w: World, v: World, n: nat)
    requires Leads(k, w, v)
    ensures Leads(k, w, Steps(v, n))
    decreases n
  {
    hide Next, Leads;
    if n > 0 {
      LeadsNext(k, w, v, Continue);
      LeadsSteps(k, w, Next(v, Continue), n - 1);
    }
  }

  const MADE := Disk(true, true, EMPTY, EMPTY, EMPTY, EMPTY)

  function On(bytes: Bytes): Slot { Slot(Some(File(bytes, true)), {}) }

  /** A world with this ledger in which only the caller of this job has acted. */
  function Fresh(ledger: Ledger, disk: Disk, job: Job, stage: Stage, claim: Receipt, sent: seq<Sent>): World {
    World(disk, ledger, Some(Caller(job, stage, claim)), sent, [])
  }

  function Requesting(ledger: Ledger, job: Job): World {
    Fresh(ledger, MADE.(marker := On(ScopeLines(job.scope))), job, Saving(Request, Check), Receipt(0), [])
  }

  function Submitting(ledger: Ledger, job: Job): World {
    var disk := MADE.(marker := On(ScopeLines(job.scope)), request := On(EventText(job.event)));
    Fresh(ledger, disk, job, Submit, Receipt(0), [])
  }

  lemma ReachMarker(k: Trust, ledger: Ledger, job: Job)
    requires Leads(k, START, START.(ledger := ledger))
    ensures Leads(k, START, Fresh(ledger, MADE, job, Saving(Marker, Check), Receipt(0), []))
  {
    hide Leads;
    var w := START.(ledger := ledger);
    LeadsNext(k, START, w, Begin(job));
    LeadsSteps(k, START, Next(w, Begin(job)), 2);
    Unfold2(Next(w, Begin(job)));
  }

  lemma ReachRequest(k: Trust, ledger: Ledger, job: Job)
    requires Leads(k, START, START.(ledger := ledger))
    ensures Leads(k, START, Requesting(ledger, job))
  {
    hide Leads, Steps;
    ReachMarker(k, ledger, job);
    var w := Fresh(ledger, MADE, job, Saving(Marker, Check), Receipt(0), []);
    SaveAbsent(w, w.caller.value, Marker);
    LeadsSteps(k, START, w, 6);
  }

  lemma ReachSubmit(k: Trust, ledger: Ledger, job: Job)
    requires Leads(k, START, START.(ledger := ledger))
    ensures Leads(k, START, Submitting(ledger, job))
  {
    hide Leads, Steps;
    ReachRequest(k, ledger, job);
    var w := Requesting(ledger, job);
    SaveAbsent(w, w.caller.value, Request);
    LeadsSteps(k, START, w, 6);
  }

  lemma ReachPending(k: Trust, job: Job)
    ensures exists w ::
              && Leads(k, START, w) && w.disk.saved == EMPTY && w.disk.pending == EMPTY && w.disk.kept && w.disk.made
              && w.caller == Some(Caller(job, Saving(Pending, Check), Receipt(0)))
  {
    hide Leads;
    LeadsSelf(k, START);
    assert START.(ledger := []) == START;
    ReachSubmit(k, [], job);
    var w := Submitting([], job);
    LeadsNext(k, START, w, Send(Replied));
    var v := Next(w, Send(Replied));
    assert Answered([], job.scope, job.event) == Accepted(Receipt(0));
    var line := Line(Receipt(0), job.event.operation);
    assert [line][1..] == [] && Matches([line], Receipt(0), job.event.operation) == 1;
    assert Honest([line], v.ledger, job.scope.account);
    LeadsNext(k, START, v, Explain(Some([line])));
    var u := Next(v, Explain(Some([line])));
    LeadsNext(k, START, u, Continue);
    var z := Next(u, Continue);
    assert z.caller == Some(Caller(job, Saving(Pending, Check), Receipt(0)));
  }

  /** The power fails while every name keeps what it shows, and unsynced contents are torn. */
  function Tearing(disk: Disk): Failure {
    Failure(true, Loss(disk.marker.now, Torn(0)), Loss(disk.request.now, Torn(0)), Loss(disk.pending.now, Torn(0)),
            Loss(disk.saved.now, Torn(0)))
  }

  /** A power failure just after a file was created leaves it torn for good. */
  lemma TornThenStuck(k: Trust, w: World, job: Job, name: Name, claim: Receipt)
    requires Leads(k, START, w) && w.caller == Some(Caller(job, Saving(name, Check), claim)) && name != Saved
    requires Get(w.disk, name) == EMPTY && w.disk.saved == EMPTY && w.disk.kept && w.disk.made
    ensures exists actions :: TrustedRun(k, START, actions) && Stuck(Run(START, actions), name)
  {
    hide Leads;
    var v := Next(w, Continue);
    LeadsNext(k, START, w, Continue);
    var u := Next(v, PowerFail(Tearing(v.disk)));
    LeadsNext(k, START, v, PowerFail(Tearing(v.disk)));
    assert Stuck(u, name);
    LeadsRun(k, u);
  }

  lemma LeadsRun(k: Trust, u: World)
    requires Leads(k, START, u)
    ensures exists actions :: TrustedRun(k, START, actions) && Run(START, actions) == u
  {
  }

  /** Each of the three names can get stuck, even when all answers and explanations are in order. */
  lemma StuckReached(k: Trust, name: Name)
    requires name != Saved
    ensures exists actions :: TrustedRun(k, START, actions) && Stuck(Run(START, actions), name)
  {
    hide Leads, Stuck, Run;
    var job := Job(Scope(0, 0), Event(0, 0, 0));
    LeadsSelf(k, START);
    assert START.(ledger := []) == START;
    match name
    case Marker =>
      ReachMarker(k, [], job);
      TornThenStuck(k, Fresh([], MADE, job, Saving(Marker, Check), Receipt(0), []), job, Marker, Receipt(0));
    case Request =>
      ReachRequest(k, [], job);
      TornThenStuck(k, Requesting([], job), job, Request, Receipt(0));
    case Pending =>
      ReachPending(k, job);
      var w :| Leads(k, START, w) && w.disk.saved == EMPTY && w.disk.pending == EMPTY && w.disk.kept && w.disk.made
        && w.caller == Some(Caller(job, Saving(Pending, Check), Receipt(0)));
      TornThenStuck(k, w, job, Pending, Receipt(0));
  }

  // ----- two acceptances that share an identity with what was sent -----

  /** The ledger may hold two acceptances that share an identity with the sent event: others took its
      delivery identifier and its operation for different work. The submission is then a conflict. */
  lemma IdentitiesMayBeTaken()
    ensures exists actions :: TwiceTaken(Run(START, actions))
  {
    hide Leads;
    var scope, event := Scope(0, 0), Event(1, 2, 0);
    var first, second := Event(1, 5, 0), Event(7, 2, 9);
    LeadsSelf(Answers, START);
    LeadsNext(Answers, START, START, Elsewhere(scope, first));
    var one := Next(START, Elsewhere(scope, first));
    LeadsNext(Answers, START, one, Elsewhere(scope, second));
    var ledger := [Acceptance(scope, first), Acceptance(scope, second)];
    assert Next(one, Elsewhere(scope, second)) == START.(ledger := ledger);
    ReachSubmit(Answers, ledger, Job(scope, event));
    var w := Submitting(ledger, Job(scope, event));
    LeadsNext(Answers, START, w, Send(Lost(false)));
    var v := Next(w, Send(Lost(false)));
    assert v.ledger == ledger && v.sent == [Sent(scope, EventText(event))];
    assert SharesIdentity(v.ledger[0], scope, event) && SharesIdentity(v.ledger[1], scope, event);
    LeadsRun(Answers, v);
  }

  ghost predicate TwiceTaken(w: World) {
    && w.sent != [] && w.sent[0].bytes.EventText?
    && TwoShare(w.ledger, w.sent[0].scope, w.sent[0].bytes.event)
  }
}
