/** The operator's declared responses and their execution contracts
    (pkg/interaction/profile.go). */
module Profiles {
  import opened Wrappers
  import opened OpsTypes

  /** Durations count nanoseconds. */
  const HOUR: Duration := 3_600_000_000_000
  const DAY: Duration := 24 * HOUR

  datatype ActionRef = ActionRef(name: string, revision: string)

  /** uid "" does not pin the instance. */
  datatype TargetRef = TargetRef(namespace: string, name: string, uid: string)

  datatype Execution = Execution(
    provider: string, approvers: seq<string>, expectedImpact: seq<CapabilityType>, mayInterrupt: seq<CapabilityType>,
    ackTimeout: Duration, completionTimeout: Duration, recoveryWindow: Duration, approvalTtl: Duration,
    maxSends: int, maxAttempts: int, retryable: bool)
  {
    function SendBudget(): int { if maxSends == 0 then 3 else maxSends }

    function AttemptBudget(): int { if maxAttempts == 0 then 1 else maxAttempts }

    function ApprovalAge(): Duration { if approvalTtl == 0 then HOUR else approvalTtl }
  }

  datatype Response = Response(
    action: ActionRef, target: TargetRef, for_: CapabilityType, states: seq<CapabilityState>, owner: string,
    requiresApproval: bool, risks: seq<string>, preconditions: seq<CapabilityType>, execution: Option<Execution>)
  {
    /** `triggers`: the default is the two affected states. */
    predicate Triggers(s: CapabilityState) {
      if states == [] then s == Degraded || s == Unavailable else s in states
    }

    /** The response is declared for this exact target. */
    predicate Names(t: TargetIdentity) {
      target.namespace == t.namespace && target.name == t.name && (target.uid == "" || target.uid == t.uid)
    }

    /** `HumanDecisionReasons`: why the declaration itself needs a person. */
    function DeclaredHuman(): seq<HumanReason> {
      (if requiresApproval then [ApprovalDeclared] else [])
      + (if risks != [] then [RiskDeclared] else [])
      + (if execution.Some? && execution.value.mayInterrupt != [] then [MayInterrupt] else [])
    }
  }

  datatype HumanReason = ApprovalDeclared | RiskDeclared | MayInterrupt | NoPriorityAuthority

  datatype Profile = Profile(revision: string, responses: seq<Response>)

  /** The bounds `Execution.validate` puts on budgets and durations. */
  predicate ExecutionBounds(e: Execution) {
    && 0 <= e.maxSends <= 5 && 0 <= e.maxAttempts <= 3
    && 0 < e.ackTimeout <= DAY && 0 < e.completionTimeout <= DAY && 0 < e.recoveryWindow <= DAY
    && 0 <= e.approvalTtl <= DAY
  }

  /** What `Response.validate` demands of an execution contract. */
  predicate ResponseOk(r: Response) {
    r.execution.Some? ==>
      && ExecutionBounds(r.execution.value)
      && r.for_ in r.execution.value.expectedImpact
      && (r.DeclaredHuman() != [] ==> r.execution.value.approvers != [])
  }

  predicate ProfileOk(p: Profile) {
    forall r :: r in p.responses ==> ResponseOk(r)
  }

  lemma BudgetsPositive(e: Execution)
    requires ExecutionBounds(e)
    ensures 1 <= e.SendBudget() <= 5 && 1 <= e.AttemptBudget() <= 3
  {
  }
}
