/** The caller as the program it is: files created, flushed and renamed in order. Every operation it
    performs is one step of the outbox machine, so killing it anywhere leaves a state of that machine. */
module OutboxCaller {
  import opened Wrappers
  import opened Outbox
  import opened OutboxSafety

  lemma {:induction false} RunSnoc(w: World, actions: seq<Action>, a: Action)
    ensures Run(w, actions + [a]) == Next(Run(w, actions), a)
    decreases |actions|
  {
    hide Next;
    if actions == [] {
      assert ([] + [a])[1..] == [];
      assert Run(Next(w, a), []) == Next(w, a);
    } else {
      assert (actions + [a])[1..] == actions[1..] + [a];
      RunSnoc(Next(w, actions[0]), actions[1..], a);
    }
  }

  class Process {
    const job: Job
    var disk: Disk
    var ledger: Ledger
    ghost var world: World
    ghost var taken: seq<Action>
    ghost const origin: World

    /** What the program holds is the machine after the steps taken so far. */
    ghost predicate Valid()
      reads this
    {
      world == Run(origin, taken) && disk == world.disk && ledger == world.ledger
    }

    ghost predicate At(stage: Stage, claim: Receipt)
      reads this
    {
      Valid() && world.caller == Some(Caller(job, stage, claim))
    }

    /** The program has ended without acknowledging anything since it began. */
    ghost predicate Over()
      reads this
    {
      Valid() && world.caller == None && world.acknowledged == origin.acknowledged
    }

    ghost predicate Quiet()
      reads this
    {
      world.acknowledged == origin.acknowledged
    }

    constructor (job: Job, start: World)
      requires start.caller == None
      ensures At(Enter, Receipt(0)) && Quiet() && fresh(this)
      ensures this.job == job && origin == start && taken == [Begin(job)]
    {
      this.job := job;
      disk := start.disk;
      ledger := start.ledger;
      origin := start;
      world := Next(start, Begin(job));
      taken := [Begin(job)];
      new;
      RunSnoc(start, [], Begin(job));
      assert [] + [Begin(job)] == [Begin(job)];
      assert Run(start, []) == start;
    }

    /** One step is recorded together with the change of the files that it makes. */
    ghost method Took(a: Action)
      requires world == Run(origin, taken)
      modifies this`world, this`taken
      ensures world == Next(old(world), a) && world == Run(origin, taken) && taken == old(taken) + [a]
    {
      RunSnoc(origin, taken, a);
      world := Next(world, a);
      taken := taken + [a];
    }

    method Create(name: Name, ghost claim: Receipt)
      requires At(Saving(name, Check), claim) && Get(disk, name).now == None
      modifies this`disk, this`world, this`taken
      ensures At(Saving(name, Write), claim) && world.acknowledged == old(world.acknowledged)
      ensures disk == Put(old(disk), name, Slot(Some(File(Torn(0), false)), old(Get(disk, name).past) + {None}))
      ensures taken == old(taken) + [Continue]
    {
      disk := Put(disk, name, Rename(Get(disk, name), Some(File(Torn(0), false))));
      Took(Continue);
    }

    method WriteAll(name: Name, data: Bytes, ghost claim: Receipt)
      requires At(Saving(name, Write), claim) && data == Data(Caller(job, Saving(name, Write), claim), name)
      modifies this`disk, this`world, this`taken
      ensures At(Saving(name, Flush), claim) && world.acknowledged == old(world.acknowledged)
      ensures disk == Put(old(disk), name, old(Get(disk, name)).(now := Some(File(data, false))))
      ensures taken == old(taken) + [Continue]
    {
      disk := Put(disk, name, Get(disk, name).(now := Some(File(data, false))));
      Took(Continue);
    }

    method SyncFile(name: Name, phase: Phase, ghost claim: Receipt)
      requires At(Saving(name, phase), claim) && (phase == Flush || phase == Sync)
      modifies this`disk, this`world, this`taken
      ensures At(Saving(name, if phase == Flush then List else Settle), claim)
          && world.acknowledged == old(world.acknowledged)
      ensures disk == Put(old(disk), name, SyncData(old(Get(disk, name))))
      ensures taken == old(taken) + [Continue]
    {
      disk := Put(disk, name, SyncData(Get(disk, name)));
      Took(Continue);
    }

    method SyncNames(name: Name, phase: Phase, ghost claim: Receipt)
      requires At(Saving(name, phase), claim) && (phase == List || phase == Settle)
      modifies this`disk, this`world, this`taken
      ensures At(if phase == List then Saving(name, Sync) else AfterSaving(name), claim)
          && world.acknowledged == old(world.acknowledged)
      ensures disk == SyncDirectory(old(disk))
      ensures taken == old(taken) + [Continue]
    {
      disk := SyncDirectory(disk);
      Took(Continue);
    }

    /** Create, write, flush and sync a file that is not there. */
    method SaveNew(name: Name, data: Bytes, ghost claim: Receipt)
      requires At(Saving(name, Check), claim) && Quiet() && name != Saved && Get(disk, name).now == None
      requires data == Data(Caller(job, Saving(name, Check), claim), name)
      modifies this`disk, this`world, this`taken
      ensures At(Saving(name, Sync), claim) && Quiet()
      ensures taken == old(taken) + [Continue, Continue, Continue, Continue]
      ensures Get(disk, name) == Slot(Some(File(data, true)), {})
      ensures forall other :: other != name ==> Get(disk, other) == SyncName(old(Get(disk, other)))
    {
      hide Run, Next;
      Create(name, claim);
      WriteAll(name, data, claim);
      SyncFile(name, Flush, claim);
      SyncNames(name, List, claim);
    }

    /** Keep a file that holds the data already, write one that is absent, stop at any other; then sync
        the file and its name. */
    method Ensure(name: Name, data: Bytes, ghost claim: Receipt) returns (ok: bool)
      requires At(Saving(name, Check), claim) && Quiet() && name != Saved
      requires data == Data(Caller(job, Saving(name, Check), claim), name)
      modifies this`disk, this`world, this`taken
      ensures ok == Fits(old(Get(disk, name)), data)
      ensures if ok then At(AfterSaving(name), claim) && Quiet() else Over()
      ensures ok ==> Durable(Get(disk, name), data)
      ensures ok ==> forall other :: other != name ==> Get(disk, other) == SyncName(old(Get(disk, other)))
    {
      match Get(disk, name).now {
        case Some(f) =>
          if f.bytes != data {
            Took(Continue);
            return false;
          }
          Took(Continue);
        case None =>
          SaveNew(name, data, claim);
      }
      SyncFile(name, Sync, claim);
      SyncNames(name, Settle, claim);
      ok := true;
    }

    /** Sync the receipt file and its name, and acknowledge. */
    method Seal(claim: Receipt)
      requires At(SealFile, claim) && Quiet()
      modifies this`disk, this`world, this`taken
      ensures Valid() && world.caller == None && world.acknowledged == origin.acknowledged + [claim]
    {
      disk := Put(disk, Saved, SyncData(disk.saved));
      Took(Continue);
      disk := SyncDirectory(disk);
      Took(Continue);
      Took(Continue);
    }

    /** Keep a receipt file that says the same, or put a complete one in place by renaming. */
    method SaveReceipt(claim: Receipt) returns (ok: bool)
      requires At(Recall, claim) && Quiet()
      modifies this`disk, this`world, this`taken
      ensures ok == ReceiptFits(old(disk), claim)
      ensures if ok then Valid() && world.caller == None
          && world.acknowledged == origin.acknowledged + [claim] else Over()
    {
      match disk.saved.now {
        case Some(f) =>
          if Parsed(f.bytes) != Some(claim) {
            Took(Continue);
            return false;
          }
          Took(Continue);
        case None =>
          Took(Continue);
          ok := Ensure(Pending, ReceiptText(claim), claim);
          if !ok {
            return;
          }
          disk := disk.(saved := Rename(disk.saved, disk.pending.now), pending := Rename(disk.pending, None));
          Took(Continue);
      }
      Seal(claim);
      ok := true;
    }

    /** Hand the request file to the ledger, and hear which receipt it is answered with. */
    method Accept(bytes: Bytes, delivery: Delivery) returns (told: Option<Receipt>)
      requires At(Submit, Receipt(0)) && Quiet() && disk.request.now == Some(File(bytes, true))
          && bytes == EventText(job.event)
      modifies this`ledger, this`world, this`taken
      ensures told == Told(old(ledger), job.scope, job.event, delivery)
      ensures if told.Some? then At(Verify, told.value) && Quiet() else Over()
      ensures ledger == After(old(ledger), job.scope, job.event, delivery)
    {
      told := Told(ledger, job.scope, job.event, delivery);
      ledger := After(ledger, job.scope, job.event, delivery);
      Took(Send(delivery));
    }

    /** Make and sync the directory, the marker and the request. */
    method Prepare() returns (ok: bool)
      requires At(Enter, Receipt(0)) && Quiet()
      modifies this`disk, this`world, this`taken
      ensures ok == (Fits(old(disk.marker), ScopeLines(job.scope)) && Fits(old(disk.request), EventText(job.event)))
      ensures if ok then At(Submit, Receipt(0)) && Quiet() else Over()
      ensures ok ==>
        && Durable(disk.request, EventText(job.event)) && Durable(disk.marker, ScopeLines(job.scope))
        && disk.saved.now == old(disk.saved.now) && disk.pending.now == old(disk.pending.now)
    {
      hide SyncDirectory, Run;
      disk := disk.(made := true);
      Took(Continue);
      disk := disk.(kept := true);
      Took(Continue);
      ok := Ensure(Marker, ScopeLines(job.scope), Receipt(0));
      if ok {
        assert disk.request == Get(disk, Request) && disk.saved == Get(disk, Saved)
            && disk.pending == Get(disk, Pending);
        ok := Ensure(Request, EventText(job.event), Receipt(0));
        assert disk.marker == Get(disk, Marker) && disk.saved == Get(disk, Saved) && disk.pending == Get(disk, Pending);
      }
    }

    /** Have the answer explained, and save the receipt that the explanation verifies. */
    method Confirm(claim: Receipt, lines: Option<seq<Line>>) returns (ok: bool)
      requires At(Verify, claim) && Quiet()
      modifies this`disk, this`world, this`taken
      ensures ok == (lines.Some? && Verified(lines.value, claim, job.event.operation) && ReceiptFits(old(disk), claim))
      ensures if ok then Valid() && world.caller == None
          && world.acknowledged == origin.acknowledged + [claim] else Over()
    {
      hide Run, Verified;
      Took(Explain(lines));
      if lines.None? || !Verified(lines.value, claim, job.event.operation) {
        return false;
      }
      ok := SaveReceipt(claim);
    }

    /** The whole program. The ledger's delivery and its explanation come from outside; the result is
        the exit code: 0 acknowledged, 8 outcome unknown, 1 stopped. */
    method Deliver(delivery: Delivery, lines: Option<seq<Line>>) returns (code: nat)
      requires At(Enter, Receipt(0)) && Quiet()
      modifies this`disk, this`ledger, this`world, this`taken
      ensures Valid() && world.caller == None
      ensures var told := Told(old(ledger), job.scope, job.event, delivery);
              && (code == 0 <==>
                    && Fits(old(disk.marker), ScopeLines(job.scope)) && Fits(old(disk.request), EventText(job.event))
                    && told.Some? && lines.Some? && Verified(lines.value, told.value, job.event.operation)
                    && ReceiptFits(old(disk), told.value))
              && world.acknowledged == origin.acknowledged + (if code == 0 then [told.value] else [])
      ensures ledger ==
                if Fits(old(disk.marker), ScopeLines(job.scope)) && Fits(old(disk.request), EventText(job.event))
                then After(old(ledger), job.scope, job.event, delivery) else old(ledger)
      ensures code == 8 <==>
                && delivery.Lost?
                && Fits(old(disk.marker), ScopeLines(job.scope)) && Fits(old(disk.request), EventText(job.event))
      ensures code == 8 ==>
                && Durable(disk.request, EventText(job.event)) && Durable(disk.marker, ScopeLines(job.scope))
    {
      hide Run, Next, Told, After, Verified;
      var ok := Prepare();
      if !ok {
        return 1;
      }
      var told := Accept(EventText(job.event), delivery);
      if delivery.Lost? {
        LostUntold(old(ledger), job.scope, job.event, delivery);
        return 8;
      }
      if told.None? {
        return 1;
      }
      ok := Confirm(told.value, lines);
      code := if ok then 0 else 1;
    }
  }

  lemma LostUntold(ledger: Ledger, scope: Scope, event: Event, delivery: Delivery)
    requires delivery.Lost?
    ensures Told(ledger, scope, event, delivery) == None
  {
  }
}
