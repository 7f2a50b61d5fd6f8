/** The capacity machine of one reservation: what registration, an ordinary claim, a post-hoc
    correction and a close do to the capacity state, the family table and the live amounts. */
module Capacity {
  import opened Wrappers
  import opened Records
  import opened Sums

  const MAX_ATOMS: int := 999_999_999_999_999_999_999_999_999_999
  const MAX_REVISION: int := 9_223_372_036_854_775_807
  const MAX_FAMILIES: int := 32

  /** The frozen terms of a history; `families` gives each family's inclusive ordinary deadline. */
  datatype Terms = Terms(
    name: string, maximum: int, baseConsumed: int, baseReleased: int, premiumCeiling: int,
    families: map<string, int>)

  datatype Action =
    | Claim(family: string, amount: int, receipt: Reference)
    | Correct(family: string, amount: int)
    | CloseWindow(reason: Reason, expectedRevision: int, earlyAuthorized: bool)

  datatype Timed = Timed(action: Action, at: int)

  datatype Book = Book(current: State, live: map<string, int>, original: map<string, Reference>, clock: int)

  datatype Effect = Effect(book: Book, consume: int, release: int)

  function Key(t: Terms, id: string): FamilyKey {
    FamilyKey(SupplierAgreement, id, t.name)
  }

  predicate Atoms(x: int) { 0 <= x <= MAX_ATOMS }

  function BaseState(t: Terms): State {
    State(0, t.maximum, t.baseConsumed, t.maximum - t.baseConsumed - t.baseReleased, t.baseReleased,
          map id | id in t.families :: Key(t, id) := Family(t.families[id], Open, None))
  }

  /** Registration: the checks on the frozen terms, and the first checkpoint. */
  function OpenReservation(t: Terms, now: int): Result<Book, Code> {
    var held := t.maximum - t.baseConsumed - t.baseReleased;
    :- Need(Atoms(t.baseConsumed) && Atoms(t.baseReleased) && Atoms(t.maximum), IntegerCode);
    :- Need(0 <= held, BaseCapacity);
    :- Need(Atoms(t.premiumCeiling), IntegerCode);
    :- Need(t.premiumCeiling <= held, FrozenCeiling);
    Ok(Book(BaseState(t), map[], map[], now))
  }

  /** The new state of a step: the revision moves exactly when something else does. */
  function Settle(s: State, families: map<FamilyKey, Family>, consume: int, release: int): Result<State, Code> {
    var result := s.(consumed := s.consumed + consume, held := s.held - consume - release,
                     released := s.released + release, families := families);
    if result == s then Ok(s)
    else if s.revision >= MAX_REVISION then Err(RevisionExhausted)
    else Ok(result.(revision := s.revision + 1))
  }

  ghost predicate WithinCeilings(t: Terms, live: map<string, int>) {
    Total(Gains(live)) <= t.premiumCeiling && Total(Losses(live)) <= t.baseConsumed
  }

  function CloseFamily(f: Family): Family {
    if f.status.Open? then f.(status := Closed) else f
  }

  function CloseAll(families: map<FamilyKey, Family>): map<FamilyKey, Family> {
    map k | k in families :: CloseFamily(families[k])
  }

  ghost function ApplyClaim(t: Terms, b: Book, f: string, amount: int, receipt: Reference,
          now: int): Result<Effect, Code>
  {
    var proposed := b.live[f := amount];
    :- Need(f in t.families && Key(t, f) in b.current.families, MissingKey);
    :- Need(-MAX_ATOMS <= amount <= MAX_ATOMS, EconomicAtoms);
    :- Need(WithinCeilings(t, proposed), EconomicCeiling);
    var member := b.current.families[Key(t, f)];
    :- Need(member.status.Open?, OrdinaryClosed);
    :- Need(now <= member.acceptedBy, OrdinaryDeadline);
    :- Need(Gain(amount) <= b.current.held, HeldCapacity);
    var claimed := member.(status := Claimed, ordinaryReceipt := Some(receipt));
    var s :- Settle(b.current, b.current.families[Key(t, f) := claimed], Gain(amount), 0);
    Ok(Effect(Book(s, proposed, b.original[f := receipt], now), Gain(amount), 0))
  }

  ghost function ApplyCorrection(t: Terms, b: Book, f: string, amount: int, now: int): Result<Effect, Code> {
    var proposed := b.live[f := amount];
    :- Need(f in t.families && Key(t, f) in b.current.families, MissingKey);
    :- Need(-MAX_ATOMS <= amount <= MAX_ATOMS, EconomicAtoms);
    :- Need(WithinCeilings(t, proposed), EconomicCeiling);
    var member := b.current.families[Key(t, f)];
    :- Need(member.status.Claimed?
            && member.ordinaryReceipt == (if f in b.original then Some(b.original[f]) else None), PostHocOriginal);
    var s :- Settle(b.current, b.current.families, 0, 0);
    Ok(Effect(Book(s, proposed, b.original, now), 0, 0))
  }

  function ApplyClose(b: Book, reason: Reason, expectedRevision: int, earlyAuthorized: bool,
          now: int): Result<Effect, Code>
  {
    var s := b.current;
    :- Need(0 <= expectedRevision <= MAX_REVISION, IntegerCode);
    :- Need(expectedRevision == s.revision, ExpectedRevision);
    :- Need(reason.Deadline? ==> forall k | k in s.families :: s.families[k].acceptedBy < now, CloseDeadline);
    :- Need(reason.Authorized? ==> earlyAuthorized, CloseAuthority);
    var after :- Settle(s, CloseAll(s.families), 0, s.held);
    Ok(Effect(b.(current := after, clock := now), 0, s.held))
  }

  ghost function Apply(t: Terms, b: Book, a: Action, now: int): Result<Effect, Code> {
    match a
    case Claim(f, amount, receipt) => ApplyClaim(t, b, f, amount, receipt, now)
    case Correct(f, amount) => ApplyCorrection(t, b, f, amount, now)
    case CloseWindow(reason, revision, early) => ApplyClose(b, reason, revision, early, now)
  }

  /** One accepted-history step: time never runs backwards. */
  ghost function Advance(t: Terms, b: Book, step: Timed): Result<Effect, Code> {
    if step.at < b.clock then Err(TimeOrder) else Apply(t, b, step.action, step.at)
  }

  /** The machine folded over a whole history that was registered at time `start`. */
  ghost function Run(t: Terms, start: int, steps: seq<Timed>): Result<Book, Code> {
    if steps == [] then OpenReservation(t, start)
    else
      var b :- Run(t, start, steps[..|steps| - 1]);
      var e :- Advance(t, b, steps[|steps| - 1]);
      Ok(e.book)
  }

  /** The checks every recorded state must pass on its own. */
  function StateCheck(s: State): Outcome<Code> {
    if !(0 <= s.revision <= MAX_REVISION && Atoms(s.maximum) && Atoms(s.consumed) && Atoms(s.held) && Atoms(s.released))
    then Fail(IntegerCode)
    else if s.maximum != s.consumed + s.held + s.released then Fail(Conservation)
    else if exists k | k in s.families :: s.families[k].ordinaryReceipt.Some? != s.families[k].status.Claimed?
    then Fail(FamilyReceipt)
    else Pass
  }
}
