/** The semantic types of pkg/operations: identities, contracts, targets,
    observations and results. Instants and durations are integers; instant 0
    is the zero time. */
module OpsTypes {
  import opened Wrappers

  type Time = int
  type Duration = int

  datatype ContractIdentity = ContractIdentity(namespace: string, name: string, uid: string, specDigest: string) {
    predicate Complete() {
      namespace != "" && name != "" && uid != "" && specDigest != ""
    }
  }

  datatype TargetIdentity = TargetIdentity(namespace: string, name: string, uid: string)

  datatype CapabilityType = CapabilityType(domain: string, name: string, revision: string) {
    predicate Complete() {
      domain != "" && name != "" && revision != ""
    }
  }

  datatype ProviderIdentity = ProviderIdentity(name: string, configRevision: string)

  datatype ApplicabilityKey = ApplicabilityKey(
    target: TargetIdentity, resolvedUid: string, contract: ContractIdentity, slot: string, provider: ProviderIdentity)

  datatype ValueType = BooleanType | IntegerType | StringType | OtherType(name: string)

  /** All three payload fields exist side by side, as in the source: only the
      one selected by typ is meaningful. */
  datatype Value = Value(typ: ValueType, b: bool, i: int, s: string)

  datatype Operator = IsTrue | IsFalse | Eq | NotEq | Gte | Lte | OtherOperator(name: string)

  datatype Predicate = Predicate(assertion: string, op: Operator, operand: Value)

  datatype AssertionSlot = AssertionSlot(name: string, typ: ValueType, enum: seq<string>, maxAge: Duration)

  datatype Impact = ImpactDegraded | ImpactUnavailable | OtherImpact(name: string)

  datatype DependencyRequirement = DependencyRequirement(slot: string, capability: CapabilityType)

  /** Any combination of the four references can be written down; a valid
      contract sets exactly one. */
  datatype Requirement = Requirement(
    predicate_: Option<Predicate>, dependency: Option<DependencyRequirement>,
    localCapability: string, envelope: string, onUnmet: Impact)

  datatype Capability = Capability(typ: CapabilityType, requirements: seq<Requirement>)

  datatype EnvelopeClass = Minimum | Recommended | OtherClass(name: string)

  datatype Envelope = Envelope(name: string, class_: EnvelopeClass, requirements: seq<Predicate>)

  datatype Contract = Contract(
    identity: ContractIdentity, assertions: seq<AssertionSlot>, dependencySlots: seq<string>,
    capabilities: seq<Capability>, envelopes: seq<Envelope>)

  datatype AssertionBinding = AssertionBinding(slot: string, provider: ProviderIdentity)

  datatype DependencyBinding = DependencyBinding(slot: string, targetUid: string, contract: ContractIdentity)

  datatype Target = Target(
    identity: TargetIdentity, resolvedUid: string, contractRef: ContractIdentity,
    assertionBindings: seq<AssertionBinding>, dependencyBindings: seq<DependencyBinding>, envelopeSelection: string)

  datatype Outcome = ValueOutcome | ProviderUnavailableOutcome | OtherOutcome(name: string)

  /** validUntil 0 means the provider gave no bound of its own. */
  datatype Observation = Observation(key: ApplicabilityKey, outcome: Outcome, value: Value, observedAt: Time, validUntil: Time)

  /** The part of a snapshot that changes between evaluations. */
  datatype Facts = Facts(at: Time, observations: seq<Observation>)

  datatype Snapshot = Snapshot(contracts: seq<Contract>, targets: seq<Target>, facts: Facts)

  datatype CapabilityState = Available | Degraded | Unavailable | Unknown

  datatype EnvelopeState = Satisfied | Unsatisfied | EnvUnknown

  /** Which part of the applicability key differs; the order is the attribution order. */
  datatype Mismatch = ProviderChanged | ContractChanged | TargetReplaced

  /** Status, reason code and value of one slot's evidence in one value. */
  datatype Evidence =
    | Unbound | Missing | Inapplicable(why: Mismatch) | Stale | TypeMismatch | Conflicting
    | ProviderUnavailable | Current(value: Value)

  datatype ReasonCode =
    | PredicateUnmet | DependencyUnmet | LocalUnmet | EnvelopeUnmet
    | EvidenceUnproven(evidence: Evidence)
    | DependencyUnbound | DependencyTargetMissing | DependencyTargetInvalid | DependencyContractMismatch
    | DependencyCapabilityAbsent | DependencyUnknown | LocalUnknown | EnvelopeUnknown | ConflictingImpact

  /** What a reason is about; the source spells these as prefixed strings. */
  datatype Subject =
    | OnAssertion(slot: string) | OnDependencySlot(slot: string)
    | OnDependency(slot: string, targetUid: string, capability: CapabilityType)
    | OnLocal(name: string) | OnEnvelope(name: string) | OnCapability(typ: CapabilityType)

  datatype Reason = Reason(code: ReasonCode, subject: Subject)

  /** Reasons are a set: `normalize` sorts and de-duplicates them. */
  datatype EnvelopeResult = EnvelopeResult(state: EnvelopeState, reasons: set<Reason>)

  datatype CapabilityResult = CapabilityResult(state: CapabilityState, reasons: set<Reason>)

  /** Why a target cannot be assessed. */
  datatype Invalidity =
    | DuplicateTargetUid | CrossNamespaceContract | ContractUnresolved | ContractAmbiguous | InvalidContract
    | InvalidBinding(slot: string) | DuplicateAssertionBinding(slot: string) | DuplicateDependencyBinding(slot: string)
    | UnknownEnvelopeSelection | DependencyCycle(members: seq<string>)

  /** One target's results. The source lists them sorted by name; here they are keyed by it. */
  datatype TargetAssessment = TargetAssessment(
    target: TargetIdentity, contract: ContractIdentity, valid: bool, invalid: set<Invalidity>, envelopeSelection: string,
    evidence: map<string, Evidence>, capabilities: map<CapabilityType, CapabilityResult>, envelopes: map<string, EnvelopeResult>)

  datatype CapKey = CapKey(uid: string, name: string)
}
