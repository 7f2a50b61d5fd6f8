/** Why the replay closure never reports an identity conflict: whatever it retains was registered with
    the step's rows before, also for a step that is refused later. */
module Conflicts {
  import opened Wrappers
  import opened Records
  import opened Capacity
  import opened Accounting
  import opened Journal
  import opened Registry
  import opened Exactness
  import opened Completeness

  /** An observation that passed its checks mentions the context it was checked against. */
  lemma CheckedContext(h: History, j: Ledger, s: HistoryStep, o: Body)
    requires o.Observation? && CheckObservation(h, j, s, o).Pass?
    ensures AnchorReferences(AnchorOf(h)) + {GrantOf(h), EvidenceOf(h)} <= Mentions(o)
    ensures o.command.Kind() == s.kind
  {
    hide StateReferences;
    assert EvidenceOf(h) in [EvidenceOf(h)];
  }

  /** A receipt that passed its checks names the step's economic receipt, which the observation mentions. */
  lemma CheckedEconomics(h: History, s: HistoryStep, rows: seq<Record>, result: State)
    requires Shaped(rows) && CheckReceipt(h, s, rows, result).Pass? && rows[0].body.command.Kind() == s.kind
    ensures s.kind.CloseKind? || EconomicOf(h, s.id) in Mentions(rows[0].body)
  {
    hide StateReferences;
  }

  lemma ClosureRegistered(h: History, j: Ledger, s: HistoryStep, rows: seq<Record>, result: State)
    requires Shaped(rows) && RegistriesOk(h, j)
    requires CheckObservation(h, j, s, rows[0].body).Pass? && CheckReceipt(h, s, rows, result).Pass?
    ensures var n := |rows| - 1;
            j.prior + (External(h, s) + RowReferences(rows[..n])) + {ReferenceTo(rows[n])} <= j.references
                + RowMentions(rows)
  {
    var n := |rows| - 1;
    CheckedContext(h, j, s, rows[0].body);
    CheckedEconomics(h, s, rows, result);
    hide Mentions, ReferenceTo, RowMentions, CheckObservation, CheckReceipt, Shaped;
    MentionsRow(rows, 0);
    MentionsRow(rows, n);
    LeadingMentioned(rows, rows[..n]);
  }

  /** The answer to a stated closure: it has to be the expected one, and within the limit. */
  function Verdict(closure: set<Reference>, last: Record): Result<set<Reference>, Code> {
    if !last.body.Receipt? || last.body.replay != closure then Err(ReplayClosure)
    else if |closure| > MAX_REPLAY then Err(ReplayLimit)
    else Ok(closure + {ReferenceTo(last)})
  }

  lemma ReplayOutcome(h: History, j: Ledger, s: HistoryStep, rows: seq<Record>)
    requires Shaped(rows)
    requires Consistent(ReplayFor(h, j, s, rows[..|rows| - 1]) + {ReferenceTo(rows[|rows| - 1])})
    ensures Replay(h, j, s, rows) == Verdict(ReplayFor(h, j, s, rows[..|rows| - 1]), rows[|rows| - 1])
  {
    hide External, RowReferences, ReferenceTo;
    var closure := ReplayFor(h, j, s, rows[..|rows| - 1]);
    ConsistentSubset(closure, closure + {ReferenceTo(rows[|rows| - 1])});
    hide Consistent;
  }

  /** On a sound ledger, once a step's registrations, observation and receipt have passed, the closure
      can be refused only for not being stated exactly or for its size. */
  lemma ReplayNeverConflicts(h: History, j: Ledger, s: HistoryStep, rows: seq<Record>, result: State)
    requires LedgerOk(h, j) && Shaped(rows)
    requires RegisterRows(h.scope, Registries(j.identities, j.references), rows).Ok?
    requires CheckObservation(h, j, s, rows[0].body).Pass? && CheckReceipt(h, s, rows, result).Pass?
    ensures Replay(h, j, s, rows) == Verdict(ReplayFor(h, j, s, rows[..|rows| - 1]), rows[|rows| - 1])
    ensures Replay(h, j, s, rows) != Err(ReferenceIdentityConflict)
  {
    hide LedgerOk, CheckObservation, CheckReceipt, RowMentions, RegisterRows, Consistent, RegistriesOk,
         Replay;
    LedgerRegistered(h, j, rows);
    ClosureRegistered(h, j, s, rows, result);
    ConsistentSubset(ReplayFor(h, j, s, rows[..|rows| - 1]) + {ReferenceTo(rows[|rows| - 1])}, j.references
        + RowMentions(rows));
    ReplayOutcome(h, j, s, rows);
  }

  lemma LedgerRegistered(h: History, j: Ledger, rows: seq<Record>)
    requires LedgerOk(h, j) && RegisterRows(h.scope, Registries(j.identities, j.references), rows).Ok?
    ensures RegistriesOk(h, j) && Consistent(j.references + RowMentions(rows))
  {
    hide RegisterRows, RowMentions, Consistent, Sound;
    EmptyOk(h);
    RegistriesConsistent(h, j);
    RegisterExact(h.scope, Registries(j.identities, j.references), rows);
  }
}
