/** Identities, approvals and journal records of the action engine
    (pkg/action/types.go, proposal.go, approval.go, provider.go). A digest is
    an injective constructor over what it hashes. */
module ActionTypes {
  import opened Wrappers
  import opened OpsTypes
  import opened Profiles

  /** Sorted lists are multisets: order is lost, repetition is kept. */
  datatype Binding = Binding(
    target: TargetIdentity, resolvedUid: string, contract: ContractIdentity,
    providers: multiset<AssertionBinding>, dependencies: multiset<DependencyBinding>)

  function BindingOf(t: Target): Binding {
    Binding(t.identity, t.resolvedUid, t.contractRef, multiset(t.assertionBindings), multiset(t.dependencyBindings))
  }

  /** `responseKey`: what the display keeps apart. */
  datatype ResponseKey = ResponseKey(
    action: ActionRef, for_: CapabilityType, owner: string, requiresApproval: bool,
    risks: multiset<string>, preconditions: multiset<CapabilityType>)

  function KeyOfResponse(r: Response): ResponseKey {
    ResponseKey(r.action, r.for_, r.owner, r.requiresApproval, multiset(r.risks), multiset(r.preconditions))
  }

  /** `declarationKey`: the response with its execution contract. */
  datatype DeclarationKey = DeclarationKey(response: ResponseKey, execution: Option<Execution>)

  function KeyOfDeclaration(r: Response): DeclarationKey {
    DeclarationKey(KeyOfResponse(r), r.execution)
  }

  datatype ProposalSubject = ProposalSubject(binding: Binding, action: ActionRef, for_: CapabilityType, profile: string, declaration: DeclarationKey)

  datatype ProposalId = ProposalId(subject: ProposalSubject, episode: nat)

  /** The idempotency key "<proposal ID>/<attempt>". */
  datatype Key = Key(id: ProposalId, attempt: nat)

  datatype Proof = Proven | Unproven | Unmet

  datatype Precondition = Precondition(proof: Proof, subject: CapabilityType)

  /** Everything a proposal's meaning depends on: no time and no evidence reference. */
  datatype Digest = Digest(
    id: ProposalId, trigger: CapabilityState, triggerReasons: set<Reason>, preconditions: multiset<Precondition>,
    binding: Binding, human: seq<HumanReason>, ownerConflict: bool, owner: string, risks: multiset<string>,
    execution: Execution, profile: string)

  datatype Proposal = Proposal(
    id: ProposalId, digest: Digest, response: Response, profile: string, binding: Binding, for_: CapabilityType,
    expected: seq<CapabilityType>, preconditions: seq<Precondition>, human: seq<HumanReason>, ownerConflict: bool)

  datatype VerdictOfPerson = Approve | Reject

  /** proof stands for the signature bytes. */
  datatype Decision = Decision(
    decisionId: string, proposal: ProposalId, digest: Digest, principal: string, verdict: VerdictOfPerson, decidedAt: Time, proof: int)

  datatype Approval = PolicyApproval(profile: string) | HumanApproval(principal: string, decisionId: string)

  datatype Phase = Dispatching | Accepted | Succeeded | Failed | TimedOut | Withdrawn {
    /** The attempt may still hold live responsibility at its provider. */
    predicate Occupies() {
      this == Dispatching || this == Accepted || this == TimedOut || this == Withdrawn
    }

    predicate InFlight() {
      this == Dispatching || this == Accepted
    }
  }

  datatype Recovery = NoRecovery | Pending | Recovered | Partial | NotRecovered | Unconfirmed | InapplicableNow {
    predicate Final() {
      this != NoRecovery && this != Pending
    }
  }

  /** The part of a record fixed when the attempt is first persisted. */
  datatype Intent = Intent(
    targetUid: string, digest: Digest, approval: Approval, decision: Option<Decision>, binding: Binding,
    provider: string, owner: string, action: ActionRef, for_: CapabilityType, expected: seq<CapabilityType>, execution: Execution,
    createdAt: Time, ackTimeout: Duration, completionTimeout: Duration, recoveryWindow: Duration,
    retryable: bool, maxAttempts: int, maxSends: int)

  /** One execution attempt in the journal. */
  datatype Record = Record(
    key: Key, intent: Intent, phase: Phase, fence: nat, sentFence: nat, sends: nat, refused: bool,
    lastSentAt: Time, ackedAt: Time, completedAt: Time, endedAt: Time, recovery: Recovery, version: nat)

  datatype Handoff = Handoff(key: Key, fence: nat, digest: Digest, owner: string, action: ActionRef, for_: CapabilityType,
    target: TargetIdentity, expected: seq<CapabilityType>, approval: Approval)

  function HandoffOf(r: Record): Handoff {
    Handoff(r.key, r.sentFence, r.intent.digest, r.intent.owner, r.intent.action, r.intent.for_, r.intent.binding.target,
      r.intent.expected, r.intent.approval)
  }

  datatype ResultState = ResultUnknown | ResultPending | ResultSucceeded | ResultFailed | ResultRefused

  datatype Result = Result(key: Key, fence: nat, digest: Digest, state: ResultState)

  datatype Receipt = Receipt(key: Key, fence: nat, digest: Digest, accepted: bool)

  /** `matches`: the answer is about the record's last send. */
  predicate Matches(r: Record, key: Key, fence: nat, digest: Digest) {
    key == r.key && fence == r.sentFence && digest == r.intent.digest
  }

  datatype Registration = Registration(owner: string, namespaces: seq<string>, actions: seq<ActionRef>)

  predicate Authorises(reg: Registration, owner: string, namespace: string, a: ActionRef) {
    reg.owner != "" && reg.owner == owner && namespace in reg.namespaces && a in reg.actions
  }
}
