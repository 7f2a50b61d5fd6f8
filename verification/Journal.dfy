/** The journal checker: one accepted-history step, check by check in the order the audit makes them,
    and the audit of a whole vector as a fold of steps. */
module Journal {
  import opened Wrappers
  import opened Records
  import opened Capacity

  const SOURCE := SyntheticSettlement
  const INVOCATION := InvocationOne
  const MAX_REPLAY := 1024
  const MAX_BODY_BYTES := 256 * 1024
  const MAX_DECISION_BYTES := 4 * 1024 * 1024
  const MAX_REVISION_DIGITS := 9_999_999_999_999_999_999

  datatype HistoryStep = HistoryStep(
    kind: StepKind, id: string, family: Option<string>, amount: Option<int>, earlyAuthorized: bool)

  datatype History = History(terms: Terms, scope: Scope, unit: Unit, steps: seq<HistoryStep>)

  datatype VectorStep = VectorStep(records: seq<Record>, canonicalUtf8: seq<Utf8>)

  datatype Vector = Vector(name: string, steps: seq<VectorStep>)

  /** The lengths of canonical bytes, as the encoder reports them. */
  datatype Sizes = Sizes(body: Body -> nat, record: Record -> nat)

  datatype DeliveryKey = DeliveryKey(scope: Scope, source: Source, externalId: string)

  datatype Composite = Composite(settlementReceipt: Utf8, economicReceipt: Option<Reference>)

  datatype Stored = Stored(command: Command, ingress: Ingress, composite: Composite)

  /** Everything the audit carries from one step to the next; no book before registration. */
  datatype Ledger = Ledger(
    book: Option<Book>, registration: Option<Reference>, previous: Option<Reference>,
    prior: set<Reference>, references: set<Reference>, identities: set<RecordKey>,
    deliveries: map<DeliveryKey, Stored>)

  const EMPTY := Ledger(None, None, None, {}, {}, {}, map[])

  // ----- the trusted context of a history -----

  function AnchorOf(h: History): Anchor {
    Anchor(
      Synthetic(BaseAcceptance, h.terms.name, BaseAcceptanceRole),
          Synthetic(BindingSnapshot, h.terms.name, BindingRole),
      Synthetic(TargetSnapshot, h.terms.name, TargetRole), Synthetic(Evidence, h.terms.name, InvocationRole))
  }

  function GrantOf(h: History): Reference { Synthetic(Evidence, h.terms.name, GrantRole) }

  function EvidenceOf(h: History): Reference {
    Synthetic(Evidence, h.terms.name, AuthorityEvidenceRole)
  }

  function EconomicOf(h: History, id: string): Reference {
    Synthetic(EconomicReceipt, h.terms.name, StepRole(id))
  }

  function AnchorReferences(a: Anchor): set<Reference> {
    {a.baseAcceptance, a.bindingSnapshot, a.targetSnapshot, a.invocationAuthorization}
  }

  /** The external references a step relies on. */
  function External(h: History, s: HistoryStep): set<Reference> {
    AnchorReferences(AnchorOf(h)) + {GrantOf(h), EvidenceOf(h)}
    + (if s.kind.CloseKind? then {} else {EconomicOf(h, s.id)})
  }

  function EconomicIngressOf(s: HistoryStep): Ingress {
    EconomicRequest(s.kind, s.id, s.family, s.amount)
  }

  function OriginalIngress(s: HistoryStep, command: Command): Ingress {
    if command.Close? then CloseRequest(command) else EconomicIngressOf(s)
  }

  // ----- references -----

  function Present(r: Option<Reference>): set<Reference> {
    match r
    case None => {}
    case Some(x) => {x}
  }

  function StateReferences(s: State): set<Reference> {
    set k | k in s.families && s.families[k].ordinaryReceipt.Some? :: s.families[k].ordinaryReceipt.value
  }

  /** Every reference a body mentions, however deep. */
  function Mentions(body: Body): set<Reference> {
    match body
    case Observation(_, _, anchor, _, before, authority, _, _, registration, previous, economic) =>
      AnchorReferences(anchor) + StateReferences(before) + {authority.grant}
      + (set e | e in authority.evidence) + Present(registration) + Present(previous) + Present(economic)
    case Transition(_, observation, before, after, _, _) =>
      {observation} + StateReferences(before) + StateReferences(after)
    case Receipt(_, _, _, _, observation, transition, result, replay, economic) =>
      {observation} + Present(transition) + StateReferences(result) + replay + Present(economic)
  }

  /** No two references share a kind and an identity. */
  ghost predicate Consistent(refs: set<Reference>) {
    forall a, b :: a in refs && b in refs && a.kind == b.kind && a.id == b.id ==> a == b
  }

  /** Retaining one reference after the other fails exactly when two of them share an identity. */
  ghost function Retain(registry: set<Reference>, refs: set<Reference>): Result<set<Reference>, Code> {
    if Consistent(registry + refs) then Ok(registry + refs) else Err(ReferenceIdentityConflict)
  }

  datatype Registries = Registries(identities: set<RecordKey>, references: set<Reference>)

  ghost function RegisterRow(scope: Scope, g: Registries, r: Record): Result<Registries, Code> {
    var key := KeyOf(scope, ReferenceTo(r));
    if key in g.identities then Err(RecordIdentityReused)
    else
      var references :- Retain(g.references, {ReferenceTo(r)} + Mentions(r.body));
      Ok(Registries(g.identities + {key}, references))
  }

  ghost function RegisterRows(scope: Scope, g: Registries, rows: seq<Record>): Result<Registries, Code> {
    if rows == [] then Ok(g)
    else
      var before :- RegisterRows(scope, g, rows[..|rows| - 1]);
      RegisterRow(scope, before, rows[|rows| - 1])
  }

  // ----- the rows of one step -----

  /** An observation and a receipt, with at most a transition between them. */
  predicate Shaped(rows: seq<Record>) {
    && 2 <= |rows| <= 3
    && rows[0].body.Observation? && rows[|rows| - 1].body.Receipt?
    && (|rows| == 3 ==> rows[1].body.Transition?)
  }

  /** A family carries its ordinary receipt exactly when it is claimed. */
  predicate FamiliesSchema(families: map<FamilyKey, Family>) {
    forall k | k in families :: families[k].ordinaryReceipt.Some? <==> families[k].status.Claimed?
  }

  predicate StateSchema(s: State) {
    && 1 <= |s.families| <= MAX_FAMILIES && FamiliesSchema(s.families)
    && 0 <= s.revision <= MAX_REVISION_DIGITS
    && Atoms(s.maximum) && Atoms(s.consumed) && Atoms(s.held) && Atoms(s.released)
  }

  predicate UniqueItems<T(==)>(s: seq<T>) {
    forall i, j | 0 <= i < j < |s| :: s[i] != s[j]
  }

  /** What the schema bounds beyond the types: counts, ranges and repeated items. */
  predicate SchemaOk(body: Body) {
    match body
    case Observation(command, _, _, unit, before, authority, _, _, _, _, _) =>
      && (command.Close? ==> 0 <= command.expectedRevision <= MAX_REVISION_DIGITS)
      && 0 <= unit.scale <= 18 && StateSchema(before)
      && 0 <= authority.grantRevision <= MAX_REVISION_DIGITS
      && 1 <= |authority.permissions| <= 4 && UniqueItems(authority.permissions)
      && 1 <= |authority.evidence| <= 16 && UniqueItems(authority.evidence)
    case Transition(_, _, before, after, consume, release) =>
      StateSchema(before) && StateSchema(after) && Atoms(consume) && Atoms(release)
    case Receipt(_, _, _, _, _, _, result, replay, _) =>
      StateSchema(result) && |replay| <= MAX_REPLAY
  }

  function CheckRow(h: History, sizes: Sizes, r: Record): Outcome<Code> {
    if !SchemaOk(r.body) then Fail(Schema)
    else if r != Row(r.scope, r.body) then Fail(HashId)
    else if r.scope != h.scope then Fail(ScopeCode)
    else if sizes.body(r.body) > MAX_BODY_BYTES then Fail(BodyLimit)
    else Pass
  }

  function CheckEachRow(h: History, sizes: Sizes, rows: seq<Record>): Outcome<Code> {
    if rows == [] then Pass
    else if CheckEachRow(h, sizes, rows[..|rows| - 1]).Fail? then CheckEachRow(h, sizes, rows[..|rows| - 1])
    else CheckRow(h, sizes, rows[|rows| - 1])
  }

  function TotalBytes(sizes: Sizes, rows: seq<Record>): nat {
    if rows == [] then 0 else TotalBytes(sizes, rows[..|rows| - 1]) + sizes.record(rows[|rows| - 1])
  }

  function CanonicalTexts(rows: seq<Record>): seq<Utf8> {
    seq(|rows|, i requires 0 <= i < |rows| => Canonical(rows[i]))
  }

  function CheckRows(h: History, sizes: Sizes, step: VectorStep): Outcome<Code> {
    var rows := step.records;
    if step.canonicalUtf8 != CanonicalTexts(rows) then Fail(CanonicalBytes)
    else if CheckEachRow(h, sizes, rows).Fail? then CheckEachRow(h, sizes, rows)
    else if TotalBytes(sizes, rows) > MAX_DECISION_BYTES then Fail(DecisionLimit)
    else Pass
  }

  // ----- the observation -----

  function WritePermission(kind: StepKind): Permission {
    match kind
    case RegisterKind => CanSubmit
    case OrdinaryKind => CanSubmit
    case PostHocKind => CanCorrect
    case CloseKind => CanClose
  }

  function Rank(p: Permission): nat {
    match p
    case CanClose => 0
    case CanCorrect => 1
    case CanRead => 2
    case CanSubmit => 3
  }

  predicate SortedPermissions(ps: seq<Permission>) {
    forall i, j | 0 <= i < j < |ps| :: Rank(ps[i]) < Rank(ps[j])
  }

  function CheckAuthority(h: History, a: Authority, kind: StepKind): Outcome<Code> {
    if !(a.grant == GrantOf(h) && a.evidence == [EvidenceOf(h)]) then Fail(AuthorityEvidence)
    else if !a.active then Fail(AuthorityCode)
    else if !(0 <= a.grantRevision <= MAX_REVISION) then Fail(IntegerCode)
    else if a.grantRevision == 0 then Fail(AuthorityCode)
    else if CanRead !in a.permissions then Fail(ReadAuthority)
    else if WritePermission(kind) !in a.permissions then Fail(WriteAuthority)
    else if !SortedPermissions(a.permissions) then Fail(PermissionOrder)
    else Pass
  }

  function CheckObservation(h: History, j: Ledger, s: HistoryStep, o: Body): Outcome<Code>
    requires o.Observation?
  {
    var command := o.command;
    if !(command.externalId == s.id && command.Kind() == s.kind) then Fail(CommandCode)
    else if command.invocationId != INVOCATION then Fail(Invocation)
    else if command.source != SOURCE then Fail(SourceAuthority)
    else if o.requestHash != RequestHash(command) then Fail(RequestHashCode)
    else if o.anchor != AnchorOf(h) then Fail(AnchorCode)
    else if o.unit != h.unit then Fail(UnitCode)
    else if !(o.receivedAt <= o.acceptedAt) then Fail(TimeOrder)
    else if j.book.Some? && o.acceptedAt < j.book.value.clock then Fail(TimeOrder)
    else if CheckAuthority(h, o.authority, s.kind).Fail? then CheckAuthority(h, o.authority, s.kind)
    else StateCheck(o.before)
  }

  /** The book the step starts from: the opening checkpoint on the first step, the head afterwards. */
  function StartingBook(h: History, j: Ledger, s: HistoryStep, o: Body): Result<Book, Code>
    requires o.Observation?
  {
    match j.book
    case None =>
      if !(s.kind.RegisterKind? && o.registration.None? && o.previous.None?) then Err(Registration)
      else
        var b :- OpenReservation(h.terms, o.acceptedAt);
        if o.before != b.current then Err(BaseCheckpoint) else Ok(b)
    case Some(b) =>
      if !(!s.kind.RegisterKind? && o.registration == j.registration && o.previous == j.previous) then Err(Prefix)
      else if o.before != b.current then Err(CurrentHead)
      else Ok(b)
  }

  // ----- the decision -----

  ghost function Decide(h: History, b: Book, s: HistoryStep, command: Command, now: int): Result<Effect, Code> {
    match command
    case Register(_, _, _, _) => Ok(Effect(b, 0, 0))
    case Ordinary(_, _, _, _, family) =>
      if s.family.None? || s.family.value !in h.terms.families then Err(MissingKey)
      else if family != Key(h.terms, s.family.value) then Err(FamilyCode)
      else if s.amount.None? then Err(MissingKey)
      else ApplyClaim(h.terms, b, s.family.value, s.amount.value, EconomicOf(h, s.id), now)
    case PostHoc(_, _, _, _, family) =>
      if s.family.None? || s.family.value !in h.terms.families then Err(MissingKey)
      else if family != Key(h.terms, s.family.value) then Err(FamilyCode)
      else if s.amount.None? then Err(MissingKey)
      else ApplyCorrection(h.terms, b, s.family.value, s.amount.value, now)
    case Close(_, _, _, reason, expected) => ApplyClose(b, reason, expected, s.earlyAuthorized, now)
  }

  // ----- the transition and the receipt -----

  function CheckTransition(rows: seq<Record>, before: State, e: Effect): Outcome<Code>
    requires Shaped(rows)
  {
    var o, receipt, result := rows[0].body, rows[|rows| - 1].body, e.book.current;
    if (|rows| == 3) != (result != before) then Fail(TransitionPresence)
    else if |rows| == 3 then
      var t := rows[1].body;
      if !(t.observation == ReferenceTo(rows[0]) && t.invocationId == o.command.invocationId)
          then Fail(TransitionReference)
      else if !(t.before == before && t.after == result) then Fail(TransitionState)
      else if !(t.consume == e.consume && t.release == e.release) then Fail(TransitionDelta)
      else if receipt.transition != Some(ReferenceTo(rows[1])) then Fail(ReceiptTransition)
      else Pass
    else if receipt.transition.Some? then Fail(NoopTransition)
    else Pass
  }

  function CheckReceipt(h: History, s: HistoryStep, rows: seq<Record>, result: State): Outcome<Code>
    requires Shaped(rows)
  {
    var o, receipt := rows[0].body, rows[|rows| - 1].body;
    var command := o.command;
    if StateCheck(receipt.result).Fail? then StateCheck(receipt.result)
    else if receipt.result != result then Fail(ResultCode)
    else if receipt.observation != ReferenceTo(rows[0]) then Fail(ReceiptObservation)
    else if !(receipt.source == command.source && receipt.externalId == command.externalId
              && receipt.invocationId == command.invocationId && receipt.requestHash == o.requestHash)
                 then Fail(ReceiptCommand)
    else if command.Close? then
      if receipt.economicReceipt.Some? || o.economicReceipt.Some? then Fail(CloseReceipt) else Pass
    else if command.ingressHash != IngressHash(EconomicIngressOf(s)) then Fail(EconomicIngress)
    else if !(o.economicReceipt == Some(EconomicOf(h, s.id)) && receipt.economicReceipt == o.economicReceipt)
        then Fail(EconomicReceiptCode)
    else Pass
  }

  function RowReferences(rows: seq<Record>): set<Reference> {
    set i | 0 <= i < |rows| :: ReferenceTo(rows[i])
  }

  // ----- one step, and the whole audit -----

  /** The checks of the observation, and the decision it asks for. */
  ghost function Resolve(h: History, j: Ledger, s: HistoryStep, o: Body): Result<(State, Effect), Code>
    requires o.Observation?
  {
    if CheckObservation(h, j, s, o).Fail? then Err(CheckObservation(h, j, s, o).error)
    else
      var b :- StartingBook(h, j, s, o);
      var e :- Decide(h, b, s, o.command, o.acceptedAt);
      Ok((b.current, e))
  }

  /** The checks of the replay closure, and what later steps inherit from it. */
  ghost function Replay(h: History, j: Ledger, s: HistoryStep, rows: seq<Record>): Result<set<Reference>, Code>
    requires Shaped(rows)
  {
    var last := rows[|rows| - 1];
    var replay :- Retain(j.prior, External(h, s) + RowReferences(rows[..|rows| - 1]));
    :- Need(last.body.replay == replay, ReplayClosure);
    :- Need(|replay| <= MAX_REPLAY, ReplayLimit);
    Retain(replay, {ReferenceTo(last)})
  }

  function DeliveryOf(h: History, o: Body): DeliveryKey
    requires o.Observation?
  {
    DeliveryKey(h.scope, o.command.source, o.command.externalId)
  }

  function StoredOf(s: HistoryStep, rows: seq<Record>): Stored
    requires Shaped(rows)
  {
    var command, last := rows[0].body.command, rows[|rows| - 1];
    Stored(command, OriginalIngress(s, command), Composite(Canonical(last), last.body.economicReceipt))
  }

  function NextLedger(h: History, j: Ledger, s: HistoryStep, rows: seq<Record>, book: Book, g: Registries,
          prior: set<Reference>): Ledger
    requires Shaped(rows)
  {
    var last := ReferenceTo(rows[|rows| - 1]);
    Ledger(Some(book.(clock := rows[0].body.acceptedAt)),
        Some(if j.registration.Some? then j.registration.value else last), Some(last),
           prior, g.references, g.identities, j.deliveries[DeliveryOf(h, rows[0].body) := StoredOf(s, rows)])
  }

  ghost function Accept(h: History, sizes: Sizes, j: Ledger, s: HistoryStep, step: VectorStep): Result<Ledger, Code> {
    var rows := step.records;
    if !(2 <= |rows| <= 3) then Err(RecordSet)
    else if !Shaped(rows) then Err(RecordOrder)
    else if CheckRows(h, sizes, step).Fail? then Err(CheckRows(h, sizes, step).error)
    else if DeliveryOf(h, rows[0].body) in j.deliveries then Err(DeliveryIdentityReused)
    else
      var g :- RegisterRows(h.scope, Registries(j.identities, j.references), rows);
      var (before, e) :- Resolve(h, j, s, rows[0].body);
      :- CheckTransition(rows, before, e);
      :- CheckReceipt(h, s, rows, e.book.current);
      var prior :- Replay(h, j, s, rows);
      Ok(NextLedger(h, j, s, rows, e.book, g, prior))
  }

  /** The audit of the first steps of a history against the same number of vector steps. */
  ghost function AuditSteps(h: History, sizes: Sizes, steps: seq<VectorStep>): Result<Ledger, Code> {
    if |steps| > |h.steps| then Err(Code.History)
    else if steps == [] then Ok(EMPTY)
    else
      var n := |steps| - 1;
      var j :- AuditSteps(h, sizes, steps[..n]);
      Accept(h, sizes, j, h.steps[n], steps[n])
  }

  ghost function Audit(h: History, sizes: Sizes, v: Vector): Result<Ledger, Code> {
    if !(v.name == h.terms.name && |v.steps| == |h.steps|) then Err(Code.History)
    else AuditSteps(h, sizes, v.steps)
  }
}
