/** What an accepted vector says, record by record. Nothing is carried from step to step here: every step is
    described by the history, by the records before it and by its own. */
module Vectors {
  import opened Wrappers
  import opened Records
  import opened Capacity
  import opened Journal
  import opened AcceptedHistories

  // ----- references -----

  /** A record is referred to by its kind, its identity and the hash of its contents. */
  function ObservationRef(r: Record): Reference { Reference(OfRow(ObservationRow), r.id, r.contentHash) }

  function TransitionRef(r: Record): Reference { Reference(OfRow(TransitionRow), r.id, r.contentHash) }

  function ReceiptRef(r: Record): Reference { Reference(OfRow(ReceiptRow), r.id, r.contentHash) }

  function Trusted(kind: ReferenceKind, history: string, role: Role): Reference {
    Reference(kind, SyntheticIdentity(kind, history, role), SyntheticHash(kind, history, role))
  }

  function Economic(h: History, s: HistoryStep): Option<Reference> {
    match s.kind
    case CloseKind => None
    case _ => Some(Trusted(EconomicReceipt, h.terms.name, StepRole(s.id)))
  }

  // ----- the records of a step -----

  /** An observation, at most one transition, and a receipt. */
  predicate InShape(step: VectorStep) {
    match |step.records|
    case 2 => step.records[0].body.Observation? && step.records[1].body.Receipt?
    case 3 => step.records[0].body.Observation? && step.records[1].body.Transition? && step.records[2].body.Receipt?
    case _ => false
  }

  function ReceiptOf(step: VectorStep): (r: Record)
    requires InShape(step)
    ensures r.body.Receipt?
  {
    step.records[|step.records| - 1]
  }

  predicate CommandSays(h: History, s: HistoryStep, c: Command) {
    var ingress := IngressHash(EconomicRequest(s.kind, s.id, s.family, s.amount));
    match s.kind
    case RegisterKind => c == Register(SyntheticSettlement, s.id, InvocationOne, ingress)
    case OrdinaryKind =>
      && s.family.Some? && s.family.value in h.terms.families && s.amount.Some?
      && c == Ordinary(SyntheticSettlement, s.id, InvocationOne, ingress,
                       FamilyKey(SupplierAgreement, s.family.value, h.terms.name))
    case PostHocKind =>
      && s.family.Some? && s.family.value in h.terms.families && s.amount.Some?
      && c == PostHoc(SyntheticSettlement, s.id, InvocationOne, ingress,
                      FamilyKey(SupplierAgreement, s.family.value, h.terms.name))
    case CloseKind =>
      c.Close? && c.source == SyntheticSettlement && c.externalId == s.id && c.invocationId == InvocationOne
  }

  predicate AnchorSays(h: History, a: Anchor) {
    && a.baseAcceptance == Trusted(BaseAcceptance, h.terms.name, BaseAcceptanceRole)
    && a.bindingSnapshot == Trusted(BindingSnapshot, h.terms.name, BindingRole)
    && a.targetSnapshot == Trusted(TargetSnapshot, h.terms.name, TargetRole)
    && a.invocationAuthorization == Trusted(Evidence, h.terms.name, InvocationRole)
  }

  /** The order of the permissions' names. */
  predicate NamedBefore(p: Permission, q: Permission) {
    match p
    case CanClose => q != CanClose
    case CanCorrect => q == CanRead || q == CanSubmit
    case CanRead => q == CanSubmit
    case CanSubmit => false
  }

  /** Each permission at most once, in that order. */
  predicate PermissionsInOrder(ps: seq<Permission>) {
    forall i, j | 0 <= i < j < |ps| :: NamedBefore(ps[i], ps[j])
  }

  predicate AuthoritySays(h: History, s: HistoryStep, a: Authority) {
    && a.grant == Trusted(Evidence, h.terms.name, GrantRole)
    && a.evidence == [Trusted(Evidence, h.terms.name, AuthorityEvidenceRole)]
    && a.active && 1 <= a.grantRevision <= 9_223_372_036_854_775_807
    && PermissionsInOrder(a.permissions) && CanRead in a.permissions
    && match s.kind
       case RegisterKind => CanSubmit in a.permissions
       case OrdinaryKind => CanSubmit in a.permissions
       case PostHocKind => CanCorrect in a.permissions
       case CloseKind => CanClose in a.permissions
  }

  /** The first checkpoint: everything that is not consumed or released is held, and all families are open. */
  predicate OpeningSays(t: Terms, s: State) {
    && s.revision == 0 && s.maximum == t.maximum && s.consumed == t.baseConsumed && s.released == t.baseReleased
    && s.held == t.maximum - t.baseConsumed - t.baseReleased
    && (forall f | f in t.families ::
          && FamilyKey(SupplierAgreement, f, t.name) in s.families
          && s.families[FamilyKey(SupplierAgreement, f, t.name)] == Family(t.families[f], Open, None))
    && (forall k | k in s.families :: k == FamilyKey(SupplierAgreement, k.familyId, t.name) && k.familyId in t.families)
  }

  predicate TermsSay(h: History) {
    var t := h.terms;
    && 1 <= |t.families| <= 32 && 0 <= h.unit.scale <= 18
    && 0 <= t.baseConsumed && 0 <= t.baseReleased && 0 <= t.premiumCeiling
    && t.maximum <= 999_999_999_999_999_999_999_999_999_999
    && t.premiumCeiling <= t.maximum - t.baseConsumed - t.baseReleased
  }

  /** The first step starts at the opening checkpoint and names nothing before it. */
  predicate StartSays(h: History, step: VectorStep)
    requires InShape(step)
  {
    var o := step.records[0].body;
    TermsSay(h) && OpeningSays(h.terms, o.before) && o.registration == None && o.previous == None
  }

  /** Every later one names the receipt of the registration and the receipt just before it, starts in the
      state where that one ended, and is not accepted before it. */
  predicate LinkSays(first: VectorStep, last: VectorStep, step: VectorStep)
    requires InShape(first) && InShape(last) && InShape(step)
  {
    var o := step.records[0].body;
    && o.before == ReceiptOf(last).body.result && last.records[0].body.acceptedAt <= o.acceptedAt
    && o.registration == Some(ReceiptRef(ReceiptOf(first))) && o.previous == Some(ReceiptRef(ReceiptOf(last)))
  }

  predicate ObservationSays(h: History, s: HistoryStep, r: Record) {
    && r.body.Observation?
    && var o := r.body;
       && r == Record(h.scope, DeliveryIdentity(ObservationRow, h.scope, SyntheticSettlement, s.id), o, ContentHash(o))
       && CommandSays(h, s, o.command) && o.requestHash == RequestHash(o.command)
       && AnchorSays(h, o.anchor) && o.unit == h.unit && AuthoritySays(h, s, o.authority)
       && o.receivedAt <= o.acceptedAt && o.economicReceipt == Economic(h, s)
  }

  /** A transition is there exactly when the state moved, and says by how much. */
  predicate TransitionSays(h: History, step: VectorStep)
    requires InShape(step)
  {
    var rows := step.records;
    var before, result := rows[0].body.before, rows[|rows| - 1].body.result;
    && (|rows| == 3 <==> result != before)
    && (|rows| == 3 ==>
          var t := rows[1].body;
          && rows[1] == Record(h.scope, RevisionIdentity(h.scope, InvocationOne, result.revision), t, ContentHash(t))
          && t == Transition(InvocationOne, ObservationRef(rows[0]), before, result,
                             result.consumed - before.consumed, result.released - before.released))
  }

  function LeadingRefs(step: VectorStep): set<Reference>
    requires InShape(step)
  {
    {ObservationRef(step.records[0])} + (if |step.records| == 3 then {TransitionRef(step.records[1])} else {})
  }

  function RecordRefs(step: VectorStep): set<Reference> {
    if InShape(step) then LeadingRefs(step) + {ReceiptRef(ReceiptOf(step))} else {}
  }

  /** The references the receipt of step `i` carries along: the context, the economic receipts up to its step,
      all records of earlier steps, and the records before it in its own. */
  function Carried(h: History, steps: seq<VectorStep>, i: nat): set<Reference>
    requires i < |steps| <= |h.steps| && InShape(steps[i])
  {
    {Trusted(BaseAcceptance, h.terms.name, BaseAcceptanceRole), Trusted(BindingSnapshot, h.terms.name, BindingRole),
     Trusted(TargetSnapshot, h.terms.name, TargetRole), Trusted(Evidence, h.terms.name, InvocationRole),
     Trusted(Evidence, h.terms.name, GrantRole), Trusted(Evidence, h.terms.name, AuthorityEvidenceRole)}
    + (set k | 0 <= k <= i && Economic(h, h.steps[k]).Some? :: Economic(h, h.steps[k]).value)
    + (set k, r | 0 <= k < i && r in RecordRefs(steps[k]) :: r)
    + LeadingRefs(steps[i])
  }

  predicate ReceiptSays(h: History, steps: seq<VectorStep>, i: nat)
    requires i < |steps| <= |h.steps| && InShape(steps[i])
  {
    var s, rows, r := h.steps[i], steps[i].records, ReceiptOf(steps[i]);
    && r == Record(h.scope, DeliveryIdentity(ReceiptRow, h.scope, SyntheticSettlement, s.id), r.body,
                   ContentHash(r.body))
    && r.body == Receipt(SyntheticSettlement, s.id, InvocationOne, RequestHash(rows[0].body.command),
                         ObservationRef(rows[0]), if |rows| == 3 then Some(TransitionRef(rows[1])) else None,
                         r.body.result, Carried(h, steps, i), Economic(h, s))
    && |r.body.replay| <= 1024
  }

  /** The result is the capacity machine's, after the actions of all steps so far. */
  ghost predicate ResultSays(h: History, steps: seq<VectorStep>, i: nat)
    requires i < |steps| <= |h.steps| && InShape(steps[0]) && InShape(steps[i])
  {
    var run := Run(h.terms, steps[0].records[0].body.acceptedAt, Actions(h, steps[..i + 1]));
    run.Ok? && ReceiptOf(steps[i]).body.result == run.value.current
  }

  /** The bytes of the records, in order and within the limits. */
  predicate BytesSay(sizes: Sizes, step: VectorStep)
    requires InShape(step)
  {
    var rows := step.records;
    && |step.canonicalUtf8| == |rows|
    && (forall k | 0 <= k < |rows| :: step.canonicalUtf8[k] == Canonical(rows[k]))
    && (forall k | 0 <= k < |rows| :: sizes.body(rows[k].body) <= 262_144)
    && sizes.record(rows[0]) + sizes.record(rows[1]) + (if |rows| == 3 then sizes.record(rows[2]) else 0) <= 4_194_304
  }

  /** What a step's records say, but for their bytes. */
  ghost predicate RowsSay(h: History, steps: seq<VectorStep>, i: nat)
    requires i < |steps| <= |h.steps|
  {
    && InShape(steps[i])
    && ObservationSays(h, h.steps[i], steps[i].records[0]) && TransitionSays(h, steps[i]) && ReceiptSays(h, steps, i)
  }

  /** Where the step starts, and what it names. */
  ghost predicate PlaceSays(h: History, steps: seq<VectorStep>, i: nat)
    requires i < |steps| <= |h.steps|
  {
    && InShape(steps[0]) && InShape(steps[i]) && (i > 0 ==> InShape(steps[i - 1]))
    && (h.steps[i].kind.RegisterKind? <==> i == 0)
    && if i == 0 then StartSays(h, steps[0]) else LinkSays(steps[0], steps[i - 1], steps[i])
  }

  /** Step `i` is as an accepted vector has it. */
  ghost predicate Says(h: History, sizes: Sizes, steps: seq<VectorStep>, i: nat)
    requires i < |steps| <= |h.steps|
  {
    && (forall k :: 0 <= k < i ==> h.steps[k].id != h.steps[i].id)
    && RowsSay(h, steps, i) && PlaceSays(h, steps, i) && ResultSays(h, steps, i) && BytesSay(sizes, steps[i])
  }
}
