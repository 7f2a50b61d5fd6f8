/** The caller outbox as a machine: every file operation of the caller is one step, the process may be
    killed or the power may fail between any two of them, and the ledger serves other callers too. */
module Outbox {
  import opened Wrappers

  // ----- what travels -----

  /** `account` is the installation and customer that an explanation is asked for. */
  datatype Scope = Scope(account: nat, source: nat)

  datatype Event = Event(id: nat, operation: nat, facts: nat)

  /** A receipt names its place in the ledger. */
  datatype Receipt = Receipt(serial: nat)

  /** A whole file's contents. `Reformatted` is other text that parses to the same receipt. */
  datatype Bytes =
    | ScopeLines(scope: Scope)
    | EventText(event: Event)
    | ReceiptText(receipt: Receipt)
    | Reformatted(receipt: Receipt, variant: nat)
    | Torn(length: nat)

  function Parsed(b: Bytes): Option<Receipt> {
    match b
    case ReceiptText(r) => Some(r)
    case Reformatted(r, _) => Some(r)
    case _ => None
  }

  // ----- the ledger -----

  datatype Acceptance = Acceptance(scope: Scope, event: Event)

  type Ledger = seq<Acceptance>

  /** The same delivery, or the same operation with the same facts. */
  predicate SameWork(a: Acceptance, scope: Scope, event: Event) {
    a.scope == scope && (a.event == event || (a.event.operation == event.operation && a.event.facts == event.facts))
  }

  predicate SharesIdentity(a: Acceptance, scope: Scope, event: Event) {
    a.scope == scope && (a.event.id == event.id || a.event.operation == event.operation)
  }

  datatype Answer = Accepted(receipt: Receipt) | Duplicate(receipt: Receipt) | Conflict

  function Find(ledger: Ledger, scope: Scope, event: Event): Option<nat> {
    if ledger == [] then None
    else
      var last := |ledger| - 1;
      if SameWork(ledger[last], scope, event) then Some(last) else Find(ledger[..last], scope, event)
  }

  function Answered(ledger: Ledger, scope: Scope, event: Event): Answer {
    match Find(ledger, scope, event)
    case Some(at) => Duplicate(Receipt(at))
    case None =>
      if exists i | 0 <= i < |ledger| :: SharesIdentity(ledger[i], scope, event) then Conflict
      else Accepted(Receipt(|ledger|))
  }

  function Booked(ledger: Ledger, scope: Scope, event: Event): Ledger {
    if Answered(ledger, scope, event).Accepted? then ledger + [Acceptance(scope, event)] else ledger
  }

  /** One line of an explanation: a retained receipt and the operation of its event record. */
  datatype Line = Line(receipt: Receipt, operation: nat)

  function Matches(lines: seq<Line>, receipt: Receipt, operation: nat): nat {
    if lines == [] then 0
    else (if lines[0] == Line(receipt, operation) then 1 else 0) + Matches(lines[1..], receipt, operation)
  }

  /** Exactly one line retains this receipt for this operation. */
  predicate Verified(lines: seq<Line>, receipt: Receipt, operation: nat) {
    Matches(lines, receipt, operation) == 1
  }

  // ----- the disk -----

  /** A file's contents, and whether they would survive a power failure. */
  datatype File = File(bytes: Bytes, synced: bool)

  /** What a name shows now, and what else the directory on disk may still hold for it. */
  datatype Slot = Slot(now: Option<File>, past: set<Option<File>>)

  function Rename(slot: Slot, now: Option<File>): Slot { Slot(now, slot.past + {slot.now}) }

  function SyncName(slot: Slot): Slot { Slot(slot.now, {}) }

  function SyncData(slot: Slot): Slot {
    match slot.now
    case Some(f) => slot.(now := Some(File(f.bytes, true)))
    case None => slot
  }

  datatype Name = Marker | Request | Pending | Saved

  datatype Disk = Disk(made: bool, kept: bool, marker: Slot, request: Slot, pending: Slot, saved: Slot)

  function Get(disk: Disk, name: Name): Slot {
    match name
    case Marker => disk.marker
    case Request => disk.request
    case Pending => disk.pending
    case Saved => disk.saved
  }

  function Put(disk: Disk, name: Name, slot: Slot): Disk {
    match name
    case Marker => disk.(marker := slot)
    case Request => disk.(request := slot)
    case Pending => disk.(pending := slot)
    case Saved => disk.(saved := slot)
  }

  const EMPTY := Slot(None, {})
  const BLANK := Disk(false, false, EMPTY, EMPTY, EMPTY, EMPTY)

  function SyncDirectory(disk: Disk): Disk {
    disk.(marker := SyncName(disk.marker), request := SyncName(disk.request),
          pending := SyncName(disk.pending), saved := SyncName(disk.saved))
  }

  // ----- what a power failure leaves -----

  /** For one name: the version that survives, and what unsynced contents turn into. */
  datatype Loss = Loss(version: Option<File>, garbage: Bytes)

  function Survivor(slot: Slot, loss: Loss): Slot {
    var version := if loss.version in slot.past + {slot.now} then loss.version else slot.now;
    match version
    case None => EMPTY
    case Some(f) => Slot(Some(File(if f.synced then f.bytes else loss.garbage, true)), {})
  }

  datatype Failure = Failure(keep: bool, marker: Loss, request: Loss, pending: Loss, saved: Loss)

  function AfterFailure(disk: Disk, failure: Failure): Disk {
    if !disk.kept && !failure.keep then BLANK
    else
      Disk(disk.made, disk.made, Survivor(disk.marker, failure.marker), Survivor(disk.request, failure.request),
           Survivor(disk.pending, failure.pending), Survivor(disk.saved, failure.saved))
  }

  // ----- the caller -----

  datatype Job = Job(scope: Scope, event: Event)

  /** Where saving one file stands: look for it, finish writing, flush it, sync its new name; then,
      whoever wrote it, sync the file and its name. */
  datatype Phase = Check | Write | Flush | List | Sync | Settle

  datatype Stage =
    | Enter
    | EnterSync
    | Saving(name: Name, phase: Phase)
    | Submit
    | Verify
    | Recall
    | Replace
    | SealFile
    | SealName
    | Acknowledge

  /** `claim` is the receipt that the caller was told, once there is one. */
  datatype Caller = Caller(job: Job, stage: Stage, claim: Receipt)

  datatype Sent = Sent(scope: Scope, bytes: Bytes)

  /** `sent` and `acknowledged` record what the outside has seen. */
  datatype World = World(disk: Disk, ledger: Ledger, caller: Option<Caller>, sent: seq<Sent>,
      acknowledged: seq<Receipt>)

  const START := World(BLANK, [], None, [], [])

  /** What the caller writes under a name. */
  function Data(c: Caller, name: Name): Bytes {
    match name
    case Marker => ScopeLines(c.job.scope)
    case Request => EventText(c.job.event)
    case _ => ReceiptText(c.claim)
  }

  function Stop(w: World): World { w.(caller := None) }

  function GoTo(w: World, c: Caller, stage: Stage): World { w.(caller := Some(c.(stage := stage))) }

  function AfterSaving(name: Name): Stage {
    match name
    case Marker => Saving(Request, Check)
    case Request => Submit
    case _ => Replace
  }

  function SaveStep(w: World, c: Caller, name: Name, phase: Phase): World {
    var slot := Get(w.disk, name);
    match phase
    case Check =>
      (match slot.now
       case Some(f) => if f.bytes == Data(c, name) then GoTo(w, c, Saving(name, Sync)) else Stop(w)
       case None => GoTo(w.(disk := Put(w.disk, name, Rename(slot, Some(File(Torn(0), false))))), c,
           Saving(name, Write)))
    case Write => GoTo(w.(disk := Put(w.disk, name, slot.(now := Some(File(Data(c, name), false))))), c,
        Saving(name, Flush))
    case Flush => GoTo(w.(disk := Put(w.disk, name, SyncData(slot))), c, Saving(name, List))
    case List => GoTo(w.(disk := SyncDirectory(w.disk)), c, Saving(name, Sync))
    case Sync => GoTo(w.(disk := Put(w.disk, name, SyncData(slot))), c, Saving(name, Settle))
    case Settle => GoTo(w.(disk := SyncDirectory(w.disk)), c, AfterSaving(name))
  }

  /** The caller's next file operation; nothing while it waits for the ledger. */
  function Proceed(w: World, c: Caller): World {
    match c.stage
    case Enter => GoTo(w.(disk := w.disk.(made := true)), c, EnterSync)
    case EnterSync => GoTo(w.(disk := w.disk.(kept := true)), c, Saving(Marker, Check))
    case Saving(name, phase) => SaveStep(w, c, name, phase)
    case Submit => w
    case Verify => w
    case Recall =>
      (match w.disk.saved.now
       case Some(f) => if Parsed(f.bytes) == Some(c.claim) then GoTo(w, c, SealFile) else Stop(w)
       case None => GoTo(w, c, Saving(Pending, Check)))
    case Replace =>
      var disk := w.disk.(saved := Rename(w.disk.saved, w.disk.pending.now), pending := Rename(w.disk.pending, None));
      GoTo(w.(disk := disk), c, SealFile)
    case SealFile => GoTo(w.(disk := Put(w.disk, Saved, SyncData(w.disk.saved))), c, SealName)
    case SealName => GoTo(w.(disk := SyncDirectory(w.disk)), c, Acknowledge)
    case Acknowledge => Stop(w.(acknowledged := w.acknowledged + [c.claim]))
  }

  /** Nothing else is under the name. */
  predicate Fits(slot: Slot, data: Bytes) { slot.now == None || slot.now.value.bytes == data }

  /** The saved receipt says the same, or there is none and the pending one is in nobody's way. */
  predicate ReceiptFits(disk: Disk, claim: Receipt) {
    if disk.saved.now.Some? then Parsed(disk.saved.now.value.bytes) == Some(claim)
    else Fits(disk.pending, ReceiptText(claim))
  }

  // ----- runs -----

  /** How the submission ends: answered by the ledger; answered with a receipt that need not be the
      ledger's; lost; or turned away. The ledger may have taken the event in the second and third case. */
  datatype Delivery = Replied | Claimed(booked: bool, receipt: Receipt) | Lost(booked: bool) | Refused

  datatype Action =
    | Begin(job: Job)
    | Continue
    | Tear(length: nat)
    | Send(delivery: Delivery)
    | Explain(lines: Option<seq<Line>>)
    | Kill
    | PowerFail(failure: Failure)
    | Elsewhere(scope: Scope, event: Event)

  /** The event that the bytes of the request file carry to the ledger. */
  function Carried(b: Bytes): Option<Event> {
    match b
    case EventText(e) => Some(e)
    case _ => None
  }

  predicate Takes(delivery: Delivery) {
    match delivery
    case Replied => true
    case Claimed(booked, _) => booked
    case Lost(booked) => booked
    case Refused => false
  }

  function After(ledger: Ledger, scope: Scope, event: Event, delivery: Delivery): Ledger {
    if Takes(delivery) then Booked(ledger, scope, event) else ledger
  }

  /** The receipt that the caller is told, if any. */
  function Told(ledger: Ledger, scope: Scope, event: Event, delivery: Delivery): Option<Receipt> {
    match delivery
    case Replied =>
      (match Answered(ledger, scope, event)
       case Conflict => None
       case Accepted(r) => Some(r)
       case Duplicate(r) => Some(r))
    case Claimed(_, r) => Some(r)
    case Lost(_) => None
    case Refused => None
  }

  function Submission(w: World, c: Caller, bytes: Bytes, delivery: Delivery): World {
    var sent := w.(sent := w.sent + [Sent(c.job.scope, bytes)]);
    match Carried(bytes)
    case None => Stop(sent)
    case Some(event) =>
      var after := sent.(ledger := After(w.ledger, c.job.scope, event, delivery));
      match Told(w.ledger, c.job.scope, event, delivery)
      case None => Stop(after)
      case Some(r) => after.(caller := Some(c.(stage := Verify, claim := r)))
  }

  /** One step of the world; an action that does not apply leaves it alone. */
  function Next(w: World, a: Action): World {
    match a
    case Elsewhere(scope, event) => w.(ledger := Booked(w.ledger, scope, event))
    case PowerFail(failure) => Stop(w.(disk := AfterFailure(w.disk, failure)))
    case Kill => Stop(w)
    case Begin(job) => if w.caller.Some? then w else w.(caller := Some(Caller(job, Enter, Receipt(0))))
    case Continue => if w.caller.None? then w else Proceed(w, w.caller.value)
    case Tear(length) =>
      if w.caller.Some? && w.caller.value.stage.Saving? && w.caller.value.stage.phase == Write then
        var name := w.caller.value.stage.name;
        w.(disk := Put(w.disk, name, Get(w.disk, name).(now := Some(File(Torn(length), false)))))
      else w
    case Send(delivery) =>
      if w.caller.Some? && w.caller.value.stage == Submit && w.disk.request.now.Some?
      then Submission(w, w.caller.value, w.disk.request.now.value.bytes, delivery) else w
    case Explain(lines) =>
      if w.caller.Some? && w.caller.value.stage == Verify then
        var c := w.caller.value;
        if lines.Some? && Verified(lines.value, c.claim, c.job.event.operation) then GoTo(w, c, Recall) else Stop(w)
      else w
  }

  function Run(w: World, actions: seq<Action>): World
    decreases |actions|
  {
    if actions == [] then w else Run(Next(w, actions[0]), actions[1..])
  }
}
