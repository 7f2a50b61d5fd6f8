/** Which refusal: every group of checks reports the first of its conditions that fails. The conditions are
    spelled on the records and the terms, in the order in which they are tried. */
module Refusals {
  import opened Wrappers
  import opened Records
  import opened Capacity
  import opened Journal
  import opened Vectors
  import opened VectorSteps

  /** The first failure of two. */
  function Then(first: Outcome<Code>, next: Outcome<Code>): Outcome<Code> {
    if first.Fail? then first else next
  }

  const MOST_ATOMS := 999_999_999_999_999_999_999_999_999_999

  predicate InRange(x: int) { 0 <= x <= MOST_ATOMS }

  // ----- one record -----

  function IdentityOf(r: Record): Identity {
    match r.body
    case Observation(command, _, _, _, _, _, _, _, _, _, _) =>
      DeliveryIdentity(ObservationRow, r.scope, command.source, command.externalId)
    case Transition(invocationId, _, _, after, _, _) => RevisionIdentity(r.scope, invocationId, after.revision)
    case Receipt(source, externalId, _, _, _, _, _, _, _) => DeliveryIdentity(ReceiptRow, r.scope, source, externalId)
  }

  predicate StateBounded(s: State) {
    && 1 <= |s.families| <= 32
    && (forall k | k in s.families :: s.families[k].ordinaryReceipt.Some? <==> s.families[k].status == Claimed)
    && 0 <= s.revision <= 9_999_999_999_999_999_999
    && InRange(s.maximum) && InRange(s.consumed) && InRange(s.held) && InRange(s.released)
  }

  predicate Repeats<T(==)>(s: seq<T>) {
    exists i, j | 0 <= i < |s| && 0 <= j < |s| :: i != j && s[i] == s[j]
  }

  predicate BodyBounded(body: Body) {
    match body
    case Observation(command, _, _, unit, before, authority, _, _, _, _, _) =>
      && (command.Close? ==> 0 <= command.expectedRevision <= 9_999_999_999_999_999_999)
      && 0 <= unit.scale <= 18 && StateBounded(before) && 0 <= authority.grantRevision <= 9_999_999_999_999_999_999
      && 1 <= |authority.permissions| <= 4 && !Repeats(authority.permissions)
      && 1 <= |authority.evidence| <= 16 && !Repeats(authority.evidence)
    case Transition(_, _, before, after, consume, release) =>
      StateBounded(before) && StateBounded(after) && InRange(consume) && InRange(release)
    case Receipt(_, _, _, _, _, _, result, replay, _) => StateBounded(result) && |replay| <= 1024
  }

  lemma RowRefusal(h: History, sizes: Sizes, r: Record)
    ensures CheckRow(h, sizes, r) ==
              Then(Need(BodyBounded(r.body), Schema),
              Then(Need(r.id == IdentityOf(r) && r.contentHash == ContentHash(r.body), HashId),
              Then(Need(r.scope == h.scope, ScopeCode),
                   Need(sizes.body(r.body) <= 262_144, BodyLimit))))
  {
    BoundedExact(r.body);
    hide BodyBounded, SchemaOk;
  }

  lemma BoundedExact(body: Body)
    ensures BodyBounded(body) <==> SchemaOk(body)
  {
  }

  // ----- references -----

  /** The body mentions the reference, in whatever member. */
  ghost predicate Occurs(r: Reference, body: Body) {
    match body
    case Observation(_, _, anchor, _, before, authority, _, _, registration, previous, economic) =>
      || r == anchor.baseAcceptance || r == anchor.bindingSnapshot || r == anchor.targetSnapshot
      || r == anchor.invocationAuthorization || r == authority.grant || r in authority.evidence
      || Some(r) == registration || Some(r) == previous || Some(r) == economic || OccursIn(r, before)
    case Transition(_, observation, before, after, _, _) =>
      r == observation || OccursIn(r, before) || OccursIn(r, after)
    case Receipt(_, _, _, _, observation, transition, result, replay, economic) =>
      r == observation || Some(r) == transition || OccursIn(r, result) || r in replay || Some(r) == economic
  }

  ghost predicate OccursIn(r: Reference, s: State) {
    exists k :: k in s.families && s.families[k].ordinaryReceipt == Some(r)
  }

  lemma MentionsExact(body: Body, r: Reference)
    ensures r in Mentions(body) <==> Occurs(r, body)
  {
  }

  /** Filing a record is refused for a used identity, or else for two references that share a kind and an
      identity among those filed, its own and those it mentions. */
  lemma FilingRefusal(scope: Scope, g: Registries, r: Record)
    ensures RegisterRow(scope, g, r) == Err(RecordIdentityReused)
       <==> RecordKey(scope, OfRow(r.body.Kind()), r.id) in g.identities
    ensures RegisterRow(scope, g, r) == Err(ReferenceIdentityConflict)
       <==> && RecordKey(scope, OfRow(r.body.Kind()), r.id) !in g.identities
            && exists x, y :: Gathered(g, r, x) && Gathered(g, r, y) && x.kind == y.kind && x.id == y.id && x != y
  {
    hide Mentions, Occurs;
    forall x ensures x in g.references + ({ReferenceTo(r)} + Mentions(r.body)) <==> Gathered(g, r, x) {
      MentionsExact(r.body, x);
    }
  }

  ghost predicate Gathered(g: Registries, r: Record, x: Reference) {
    x in g.references || x == Reference(OfRow(r.body.Kind()), r.id, r.contentHash) || Occurs(x, r.body)
  }

  // ----- the observation -----

  lemma AuthorityRefusal(h: History, a: Authority, kind: StepKind)
    ensures CheckAuthority(h, a, kind) ==
              Then(Need(a.grant == Trusted(Evidence, h.terms.name, GrantRole)
                        && a.evidence == [Trusted(Evidence, h.terms.name, AuthorityEvidenceRole)], AuthorityEvidence),
              Then(Need(a.active, AuthorityCode),
              Then(Need(0 <= a.grantRevision <= 9_223_372_036_854_775_807, IntegerCode),
              Then(Need(a.grantRevision > 0, AuthorityCode),
              Then(Need(CanRead in a.permissions, ReadAuthority),
              Then(Need(MayWrite(a, kind), WriteAuthority),
                   Need(PermissionsInOrder(a.permissions), PermissionOrder)))))))
  {
    PermissionsExact(a.permissions);
    hide SortedPermissions, PermissionsInOrder;
  }

  predicate MayWrite(a: Authority, kind: StepKind) {
    match kind
    case RegisterKind => CanSubmit in a.permissions
    case OrdinaryKind => CanSubmit in a.permissions
    case PostHocKind => CanCorrect in a.permissions
    case CloseKind => CanClose in a.permissions
  }

  predicate KindSays(c: Command, kind: StepKind) {
    match c
    case Register(_, _, _, _) => kind == RegisterKind
    case Ordinary(_, _, _, _, _) => kind == OrdinaryKind
    case PostHoc(_, _, _, _, _) => kind == PostHocKind
    case Close(_, _, _, _, _) => kind == CloseKind
  }

  lemma ObservationRefusal(h: History, j: Ledger, s: HistoryStep, o: Body)
    requires o.Observation?
    ensures CheckObservation(h, j, s, o) ==
              Then(Need(o.command.externalId == s.id && KindSays(o.command, s.kind), CommandCode),
              Then(Need(o.command.invocationId == InvocationOne, Invocation),
              Then(Need(o.command.source == SyntheticSettlement, SourceAuthority),
              Then(Need(o.requestHash == RequestHash(o.command), RequestHashCode),
              Then(Need(AnchorSays(h, o.anchor), AnchorCode),
              Then(Need(o.unit == h.unit, UnitCode),
              Then(Need(o.receivedAt <= o.acceptedAt, TimeOrder),
              Then(Need(j.book.Some? ==> j.book.value.clock <= o.acceptedAt, TimeOrder),
              Then(CheckAuthority(h, o.authority, s.kind), StateCheck(o.before))))))))))
  {
    TrustedSame(h, s);
    hide CheckAuthority, StateCheck, Trusted;
  }

  // ----- where a step starts -----

  lemma OpeningRefusal(t: Terms, now: int)
    ensures var ranged := InRange(t.baseConsumed) && InRange(t.baseReleased) && InRange(t.maximum);
            var checks := Then(Need(ranged, IntegerCode),
                          Then(Need(t.baseConsumed + t.baseReleased <= t.maximum, BaseCapacity),
                          Then(Need(InRange(t.premiumCeiling), IntegerCode),
                               Need(t.premiumCeiling <= t.maximum - t.baseConsumed - t.baseReleased, FrozenCeiling))));
            if checks.Fail? then OpenReservation(t, now) == Err(checks.error) else OpenReservation(t, now).Ok?
  {
    hide BaseState;
  }

  lemma StartRefusal(h: History, j: Ledger, s: HistoryStep, o: Body)
    requires o.Observation? && j.book.None?
    ensures var start := OpenReservation(h.terms, o.acceptedAt);
            StartingBook(h, j, s, o) ==
              if !(s.kind == RegisterKind && o.registration == None && o.previous == None) then Err(Registration)
              else if start.Ok? && !OpeningSays(h.terms, o.before) then Err(BaseCheckpoint)
              else start
  {
    OpeningExact(h, o.before, o.acceptedAt);
    hide BaseState, OpeningSays, OpenReservation;
  }

  lemma HeadRefusal(h: History, j: Ledger, s: HistoryStep, o: Body)
    requires o.Observation? && j.book.Some?
    ensures StartingBook(h, j, s, o)
         == if s.kind == RegisterKind || o.registration != j.registration || o.previous != j.previous then Err(Prefix)
            else if o.before != j.book.value.current then Err(CurrentHead)
            else Ok(j.book.value)
  {
  }

  // ----- a close -----

  lemma CloseRefusal(b: Book, reason: Reason, expected: int, early: bool, now: int)
    requires 0 <= b.current.revision < 9_223_372_036_854_775_807
    ensures var due := forall k :: k in b.current.families ==> b.current.families[k].acceptedBy < now;
            var checks := Then(Need(0 <= expected <= 9_223_372_036_854_775_807, IntegerCode),
                          Then(Need(expected == b.current.revision, ExpectedRevision),
                          Then(Need(reason == Deadline ==> due, CloseDeadline),
                               Need(reason == Authorized ==> early, CloseAuthority))));
            if checks.Fail? then ApplyClose(b, reason, expected, early, now) == Err(checks.error)
            else ApplyClose(b, reason, expected, early, now).Ok?
  {
    hide CloseAll;
  }

  // ----- the transition and the receipt -----

  lemma TransitionRefusal(rows: seq<Record>, before: State, e: Effect)
    requires Shaped(rows) && |rows| == 3
    ensures var o, t, receipt, result := rows[0].body, rows[1].body, rows[2].body, e.book.current;
            CheckTransition(rows, before, e) ==
              Then(Need(result != before, TransitionPresence),
              Then(Need(t.observation == ObservationRef(rows[0]) && t.invocationId == o.command.invocationId,
                        TransitionReference),
              Then(Need(t.before == before && t.after == result, TransitionState),
              Then(Need(t.consume == e.consume && t.release == e.release, TransitionDelta),
                   Need(receipt.transition == Some(TransitionRef(rows[1])), ReceiptTransition)))))
  {
  }

  lemma NoopRefusal(rows: seq<Record>, before: State, e: Effect)
    requires Shaped(rows) && |rows| == 2
    ensures CheckTransition(rows, before, e) ==
              Then(Need(e.book.current == before, TransitionPresence),
                   Need(rows[1].body.transition == None, NoopTransition))
  {
  }

  /** What the receipt must say about economics: a close has none. */
  function EconomicChecks(h: History, s: HistoryStep, o: Body, receipt: Body): Outcome<Code>
    requires o.Observation? && receipt.Receipt?
  {
    var economic := Some(Trusted(EconomicReceipt, h.terms.name, StepRole(s.id)));
    match o.command
    case Close(_, _, _, _, _) => Need(receipt.economicReceipt == None && o.economicReceipt == None, CloseReceipt)
    case _ =>
      var ingress := IngressHash(EconomicRequest(s.kind, s.id, s.family, s.amount));
      Then(Need(o.command.ingressHash == ingress, EconomicIngress),
           Need(o.economicReceipt == economic && receipt.economicReceipt == economic, EconomicReceiptCode))
  }

  lemma ReceiptRefusal(h: History, s: HistoryStep, rows: seq<Record>, result: State)
    requires Shaped(rows)
    ensures var o, receipt := rows[0].body, rows[|rows| - 1].body;
            CheckReceipt(h, s, rows, result) ==
              Then(StateCheck(receipt.result),
              Then(Need(receipt.result == result, ResultCode),
              Then(Need(receipt.observation == ObservationRef(rows[0]), ReceiptObservation),
              Then(Need(receipt.source == o.command.source && receipt.externalId == o.command.externalId
                        && receipt.invocationId == o.command.invocationId && receipt.requestHash == o.requestHash,
                        ReceiptCommand),
                   EconomicChecks(h, s, o, receipt)))))
  {
    hide StateCheck;
  }
}
