/** The world around the outbox, told outright: what the ledger answers, what an explanation verifies, and
    what a power failure can leave. */
module OutboxWorld {
  import opened Wrappers
  import opened Outbox
  import opened OutboxSafety

  // ----- the ledger's answer -----

  /** The same delivery again, or the same operation with the same facts under a new delivery. */
  predicate Repeated(a: Acceptance, scope: Scope, event: Event) {
    && a.scope.account == scope.account && a.scope.source == scope.source && a.event.operation == event.operation
    && a.event.facts == event.facts
  }

  /** The delivery or the operation is taken by something else. */
  predicate Taken(a: Acceptance, scope: Scope, event: Event) {
    && a.scope.account == scope.account && a.scope.source == scope.source && !Repeated(a, scope, event)
    && (a.event.id == event.id || a.event.operation == event.operation)
  }

  /** A repetition is answered with the receipt of what it repeats; otherwise a taken identity is a conflict,
      and everything else is accepted at the end. */
  lemma AnswerExact(ledger: Ledger, scope: Scope, event: Event)
    requires LedgerSound(ledger)
    ensures forall r :: Answered(ledger, scope, event) == Answer.Duplicate(r)
                   <==> r.serial < |ledger| && Repeated(ledger[r.serial], scope, event)
    ensures Answered(ledger, scope, event) == Conflict
       <==> && (forall i :: 0 <= i < |ledger| ==> !Repeated(ledger[i], scope, event))
            && (exists i :: 0 <= i < |ledger| && Taken(ledger[i], scope, event))
    ensures forall r :: Answered(ledger, scope, event) == Accepted(r)
                   <==> && r.serial == |ledger|
                        && forall i :: 0 <= i < |ledger| ==>
                             !Repeated(ledger[i], scope, event) && !Taken(ledger[i], scope, event)
  {
    hide LedgerSound;
    FindExact(ledger, scope, event);
    forall i, j | 0 <= i < |ledger| && 0 <= j < |ledger| && SameWork(ledger[i], scope, event)
        && SameWork(ledger[j], scope, event)
      ensures i == j
    {
      RetainedUnique(ledger, scope, event, Receipt(i), Receipt(j));
    }
  }

  /** A submission adds one acceptance, at the end, exactly when the ledger takes it and it is neither a
      repetition nor a conflict; a reply that was lost may have been taken or not. */
  lemma TakenExact(ledger: Ledger, scope: Scope, event: Event, delivery: Delivery)
    requires LedgerSound(ledger)
    ensures var unseen := forall i :: 0 <= i < |ledger| ==>
                           !Repeated(ledger[i], scope, event) && !Taken(ledger[i], scope, event);
            var reached := match delivery
                           case Replied => true
                           case Claimed(booked, _) => booked
                           case Lost(booked) => booked
                           case Refused => false;
            After(ledger, scope, event, delivery)
              == if reached && unseen then ledger + [Acceptance(scope, event)] else ledger
  {
    hide LedgerSound, Answered;
    AnswerExact(ledger, scope, event);
  }

  // ----- explanations and receipt files -----

  /** Line `i` is for the receipt and the operation, and no other line is. */
  ghost predicate OnlyAt(lines: seq<Line>, receipt: Receipt, operation: nat, i: nat) {
    && i < |lines| && lines[i] == Line(receipt, operation)
    && forall k :: 0 <= k < |lines| && k != i ==> lines[k] != Line(receipt, operation)
  }

  lemma OnlyFirst(lines: seq<Line>, receipt: Receipt, operation: nat)
    requires lines != [] && lines[0] == Line(receipt, operation)
    ensures Line(receipt, operation) !in lines[1..] <==> exists i: nat :: OnlyAt(lines, receipt, operation, i)
  {
    if Line(receipt, operation) !in lines[1..] {
      forall k | 0 < k < |lines| ensures lines[k] != Line(receipt, operation) {
        assert lines[k] == lines[1..][k - 1];
      }
      assert OnlyAt(lines, receipt, operation, 0);
    }
    if i: nat :| OnlyAt(lines, receipt, operation, i) {
      assert i == 0;
      forall k | 0 <= k < |lines[1..]| ensures lines[1..][k] != Line(receipt, operation) {
        assert lines[1..][k] == lines[k + 1];
      }
    }
  }

  lemma OnlyLater(lines: seq<Line>, receipt: Receipt, operation: nat)
    requires lines != [] && lines[0] != Line(receipt, operation)
    ensures (exists i: nat :: OnlyAt(lines[1..], receipt, operation, i))
       <==> exists i: nat :: OnlyAt(lines, receipt, operation, i)
  {
    if i: nat :| OnlyAt(lines[1..], receipt, operation, i) {
      forall k | 0 <= k < |lines| && k != i + 1 ensures lines[k] != Line(receipt, operation) {
        assert k > 0 ==> lines[k] == lines[1..][k - 1];
      }
      assert OnlyAt(lines, receipt, operation, i + 1);
    }
    if i: nat :| OnlyAt(lines, receipt, operation, i) {
      forall k | 0 <= k < |lines[1..]| && k != i - 1 ensures lines[1..][k] != Line(receipt, operation) {
        assert lines[1..][k] == lines[k + 1];
      }
      assert i > 0 && OnlyAt(lines[1..], receipt, operation, i - 1);
    }
  }

  /** An explanation verifies a receipt with exactly one line for it: none does not, and neither do two. */
  lemma {:induction false} VerifiedExact(lines: seq<Line>, receipt: Receipt, operation: nat)
    ensures Verified(lines, receipt, operation) <==> exists i: nat :: OnlyAt(lines, receipt, operation, i)
  {
    hide OnlyAt;
    if lines == [] {
      NothingOnly(receipt, operation);
    } else {
      VerifiedExact(lines[1..], receipt, operation);
      MatchIn(lines[1..], receipt, operation);
      if lines[0] == Line(receipt, operation) {
        OnlyFirst(lines, receipt, operation);
      } else {
        OnlyLater(lines, receipt, operation);
      }
    }
  }

  lemma NothingOnly(receipt: Receipt, operation: nat)
    ensures forall i: nat :: !OnlyAt([], receipt, operation, i)
  {
  }

  /** A receipt can be saved over a file that says the same in whatever layout, or beside none, if the
      pending name is free or holds its very text. */
  lemma ReceiptFitsExact(disk: Disk, receipt: Receipt)
    ensures ReceiptFits(disk, receipt) ==
              match disk.saved.now
              case Some(File(ReceiptText(r), _)) => r == receipt
              case Some(File(Reformatted(r, _), _)) => r == receipt
              case Some(_) => false
              case None =>
                match disk.pending.now
                case None => true
                case Some(f) => f.bytes == ReceiptText(receipt)
  {
  }

  // ----- what a power failure can leave -----

  /** What one version of a file may be found as: contents that were not synced turn into anything. */
  predicate FoundAs(version: Option<File>, left: Option<File>) {
    match (version, left)
    case (None, None) => true
    case (Some(f), Some(g)) => g.synced && (f.synced ==> g.bytes == f.bytes)
    case _ => false
  }

  ghost predicate Held(slot: Slot, version: Option<File>) { version == slot.now || version in slot.past }

  /** A name may fall back to any version that its directory was not synced past. */
  lemma SurvivorsExact(slot: Slot, left: Option<File>)
    ensures (exists loss :: Survivor(slot, loss) == Slot(left, {}))
       <==> exists version :: Held(slot, version) && FoundAs(version, left)
  {
    if loss :| Survivor(slot, loss) == Slot(left, {}) {
      var version := if loss.version in slot.past + {slot.now} then loss.version else slot.now;
      assert Held(slot, version) && FoundAs(version, left);
    }
    if version :| Held(slot, version) && FoundAs(version, left) {
      var loss := Loss(version, if left.Some? then left.value.bytes else Torn(0));
      assert Survivor(slot, loss) == Slot(left, {});
    }
  }

  /** The directory itself may be gone exactly as long as its own name was not synced. */
  lemma DirectoryLost(disk: Disk)
    requires disk.made
    ensures (exists failure :: !AfterFailure(disk, failure).made) <==> !disk.kept
  {
    if !disk.kept {
      var loss := Loss(None, Torn(0));
      assert !AfterFailure(disk, Failure(false, loss, loss, loss, loss)).made;
    }
  }

  /** Every name is left in one of its surviving versions. */
  lemma FailureLeaves(disk: Disk, failure: Failure)
    requires disk.kept || failure.keep
    ensures var after := AfterFailure(disk, failure);
            && after.marker == Survivor(disk.marker, failure.marker)
            && after.request == Survivor(disk.request, failure.request)
            && after.pending == Survivor(disk.pending, failure.pending)
            && after.saved == Survivor(disk.saved, failure.saved)
            && after.made == disk.made && after.kept == disk.made
  {
  }
}
