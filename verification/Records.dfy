/** The typed records of reservation settlement.

    SHA-256 is modelled by free terms: a digest is the very input it was computed from, tagged with
    its domain, so two digests are equal exactly when their domains and inputs are. Arrays that the
    canonical form keeps sorted (families, replay) are modelled by the map or the set they denote. */
module Records {

  import opened Wrappers

  /** The rejection codes of the audit. `MissingKey` stands for a lookup that raises instead. */
  datatype Code =
    | History | RecordSet | RecordOrder | CanonicalBytes | Schema | HashId | ScopeCode | BodyLimit | DecisionLimit
    | DeliveryIdentityReused | RecordIdentityReused | ReferenceIdentityConflict
    | CommandCode | Invocation | SourceAuthority | RequestHashCode | AnchorCode | UnitCode | TimeOrder
    | AuthorityEvidence | AuthorityCode | ReadAuthority | WriteAuthority | PermissionOrder
    | IntegerCode | Conservation | FamilyReceipt
    | Registration | BaseCapacity | FrozenCeiling | BaseCheckpoint | Prefix | CurrentHead
    | MissingKey | FamilyCode | EconomicAtoms | EconomicCeiling | OrdinaryClosed | OrdinaryDeadline | HeldCapacity
    | PostHocOriginal | ExpectedRevision | CloseDeadline | CloseAuthority | RevisionExhausted
    | TransitionPresence | TransitionReference | TransitionState | TransitionDelta | ReceiptTransition
    | NoopTransition | ResultCode | ReceiptObservation | ReceiptCommand | CloseReceipt | EconomicIngress
    | EconomicReceiptCode | ReplayClosure | ReplayLimit

  datatype StepKind = RegisterKind | OrdinaryKind | PostHocKind | CloseKind

  datatype Reason = Deadline | Authorized

  datatype Permission = CanClose | CanCorrect | CanRead | CanSubmit

  datatype RowKind = ObservationRow | TransitionRow | ReceiptRow

  datatype ReferenceKind =
    | OfRow(row: RowKind)
    | BaseAcceptance | BindingSnapshot | TargetSnapshot | Evidence | EconomicReceipt
    | OtherKind(name: string)

  /** What a synthetic trust-boundary input of a history stands for: the part of its label after the history's name. */
  datatype Role =
    | BaseAcceptanceRole | BindingRole | TargetRole | InvocationRole
    | GrantRole | AuthorityEvidenceRole
    | StepRole(id: string)

  /** The source `urn:synthetic:settlement` that the audit prescribes, or any other text. */
  datatype Source = SyntheticSettlement | OtherSource(uri: string)

  /** The invocation `invocation-one` that the audit prescribes, or any other text. */
  datatype InvocationId = InvocationOne | OtherInvocation(text: string)

  /** The agreement `supplier-agreement` of every family of a history, or any other text. */
  datatype AgreementId = SupplierAgreement | OtherAgreement(text: string)

  datatype Scope = Scope(tenant: string, environment: string)

  datatype Unit = Unit(currency: string, scale: int)

  datatype FamilyKey = FamilyKey(agreementId: AgreementId, familyId: string, target: string)

  datatype Identity =
    | DeliveryIdentity(row: RowKind, scope: Scope, source: Source, externalId: string)
    | RevisionIdentity(scope: Scope, invocationId: InvocationId, revision: int)
    | SyntheticIdentity(kind: ReferenceKind, history: string, role: Role)

  datatype Hash =
    | RequestHash(command: Command)
    | IngressHash(ingress: Ingress)
    | ContentHash(body: Body)
    | SyntheticHash(kind: ReferenceKind, history: string, role: Role)

  datatype Reference = Reference(kind: ReferenceKind, id: Identity, contentHash: Hash)

  datatype Ingress =
    | EconomicRequest(kind: StepKind, id: string, family: Option<string>, amount: Option<int>)
    | CloseRequest(command: Command)

  datatype Command =
    | Register(source: Source, externalId: string, invocationId: InvocationId, ingressHash: Hash)
    | Ordinary(source: Source, externalId: string, invocationId: InvocationId, ingressHash: Hash, family: FamilyKey)
    | PostHoc(source: Source, externalId: string, invocationId: InvocationId, ingressHash: Hash, family: FamilyKey)
    | Close(source: Source, externalId: string, invocationId: InvocationId, reason: Reason, expectedRevision: int)
  {
    function Kind(): StepKind {
      match this
      case Register(_, _, _, _) => RegisterKind
      case Ordinary(_, _, _, _, _) => OrdinaryKind
      case PostHoc(_, _, _, _, _) => PostHocKind
      case Close(_, _, _, _, _) => CloseKind
    }
  }

  datatype Status = Open | Claimed | Closed

  datatype Family = Family(acceptedBy: int, status: Status, ordinaryReceipt: Option<Reference>)

  datatype State = State(
    revision: int, maximum: int, consumed: int, held: int, released: int,
    families: map<FamilyKey, Family>)

  datatype Anchor = Anchor(
    baseAcceptance: Reference, bindingSnapshot: Reference, targetSnapshot: Reference,
    invocationAuthorization: Reference)

  datatype Authority = Authority(
    principal: string, grant: Reference, grantRevision: int, active: bool,
    permissions: seq<Permission>, evidence: seq<Reference>)

  datatype Body =
    | Observation(
        command: Command, requestHash: Hash, anchor: Anchor, unit: Unit, before: State, authority: Authority,
        receivedAt: int, acceptedAt: int,
        registration: Option<Reference>, previous: Option<Reference>, economicReceipt: Option<Reference>)
    | Transition(
        invocationId: InvocationId, observation: Reference, before: State, after: State, consume: int, release: int)
    | Receipt(
        source: Source, externalId: string, invocationId: InvocationId, requestHash: Hash, observation: Reference,
        transition: Option<Reference>, result: State, replay: set<Reference>, economicReceipt: Option<Reference>)
  {
    function Kind(): RowKind {
      match this
      case Observation(_, _, _, _, _, _, _, _, _, _, _) => ObservationRow
      case Transition(_, _, _, _, _, _) => TransitionRow
      case Receipt(_, _, _, _, _, _, _, _, _) => ReceiptRow
    }
  }

  datatype Record = Record(scope: Scope, id: Identity, body: Body, contentHash: Hash)

  /** Canonical bytes of a record, or any other text. */
  datatype Utf8 = Canonical(record: Record) | OtherText(raw: string)

  /** A key of the two identity registries: the content hash is never part of it. */
  datatype RecordKey = RecordKey(scope: Scope, kind: ReferenceKind, id: Identity)

  function RowIdentity(scope: Scope, body: Body): Identity {
    match body
    case Observation(command, _, _, _, _, _, _, _, _, _, _) =>
      DeliveryIdentity(ObservationRow, scope, command.source, command.externalId)
    case Transition(invocationId, _, _, after, _, _) => RevisionIdentity(scope, invocationId, after.revision)
    case Receipt(source, externalId, _, _, _, _, _, _, _) =>
      DeliveryIdentity(ReceiptRow, scope, source, externalId)
  }

  function Row(scope: Scope, body: Body): Record {
    Record(scope, RowIdentity(scope, body), body, ContentHash(body))
  }

  function ReferenceTo(r: Record): Reference {
    Reference(OfRow(r.body.Kind()), r.id, r.contentHash)
  }

  function Synthetic(kind: ReferenceKind, history: string, role: Role): Reference {
    Reference(kind, SyntheticIdentity(kind, history, role), SyntheticHash(kind, history, role))
  }

  function KeyOf(scope: Scope, r: Reference): RecordKey {
    RecordKey(scope, r.kind, r.id)
  }
}
