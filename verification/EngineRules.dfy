/** The judgements of one engine step that touch neither the journal nor a
    provider: gates, approvals, attempts, and the record each answer or
    deadline leads to (pkg/action/engine.go). */
module EngineRules {
  import opened Wrappers
  import opened OpsTypes
  import opened Profiles
  import opened ActionTypes

  /** What one step reads: the clock, the proposals derived for it, the submitted
      decisions, which decisions the verifier authenticates, and the registry. */
  datatype StepInput = StepInput(
    now: Time, props: map<ProposalId, Proposal>, decisions: seq<Decision>, genuine: set<Decision>,
    registry: map<string, Registration>, durable: bool)

  datatype Gate =
    | OwnerUndeclared | OwnerConflict | NoApprover | ProviderUnregistered | AuthorityInsufficient
    | PreconditionUnmet(c: CapabilityType) | PreconditionUnproven(c: CapabilityType) | JournalNotDurable | TargetBusy

  // ── gates ─────────────────────────────────────────────────────────────────

  /** Another proposal's attempt may still hold the target. */
  predicate TargetHeld(local: map<Key, Record>, targetUid: string, id: ProposalId) {
    exists k :: k in local && local[k].intent.targetUid == targetUid && k.id != id && local[k].phase.Occupies()
  }

  /** Every condition under which p may be handed off. */
  predicate GatesPass(inp: StepInput, local: map<Key, Record>, p: Proposal, resend: bool)
    requires p.response.execution.Some?
  {
    var ex := p.response.execution.value;
    && p.response.owner != "" && !p.ownerConflict
    && (p.human != [] ==> ex.approvers != [])
    && ex.provider in inp.registry
    && Authorises(inp.registry[ex.provider], p.response.owner, p.binding.target.namespace, p.response.action)
    && (forall i :: 0 <= i < |p.preconditions| ==> p.preconditions[i].proof == Proven)
    && inp.durable
    && (!resend ==> !TargetHeld(local, p.binding.target.uid, p.id))
  }

  /** This condition fails. */
  ghost predicate Fails(inp: StepInput, local: map<Key, Record>, p: Proposal, resend: bool, g: Gate)
    requires p.response.execution.Some?
  {
    var ex := p.response.execution.value;
    match g
    case OwnerUndeclared => p.response.owner == ""
    case OwnerConflict => p.ownerConflict
    case NoApprover => p.human != [] && ex.approvers == []
    case ProviderUnregistered => ex.provider !in inp.registry
    case AuthorityInsufficient =>
      ex.provider in inp.registry && !Authorises(inp.registry[ex.provider], p.response.owner, p.binding.target.namespace, p.response.action)
    case PreconditionUnmet(c) => Precondition(Unmet, c) in p.preconditions
    case PreconditionUnproven(c) => Precondition(Unproven, c) in p.preconditions
    case JournalNotDurable => !inp.durable
    case TargetBusy => !resend && TargetHeld(local, p.binding.target.uid, p.id)
  }

  /** Nothing fails exactly when everything holds. */
  lemma NothingFails(inp: StepInput, local: map<Key, Record>, p: Proposal, resend: bool)
    requires p.response.execution.Some?
    ensures GatesPass(inp, local, p, resend) <==> forall g :: !Fails(inp, local, p, resend, g)
  {
    hide Authorises, TargetHeld;
    if forall g :: !Fails(inp, local, p, resend, g) {
      forall g: Gate ensures !Fails(inp, local, p, resend, g) { }
      assert !Fails(inp, local, p, resend, OwnerUndeclared) && !Fails(inp, local, p, resend, OwnerConflict) && !Fails(inp, local, p, resend, NoApprover);
      assert !Fails(inp, local, p, resend, ProviderUnregistered) && !Fails(inp, local, p, resend, AuthorityInsufficient);
      assert !Fails(inp, local, p, resend, JournalNotDurable) && !Fails(inp, local, p, resend, TargetBusy);
      forall i | 0 <= i < |p.preconditions| ensures p.preconditions[i].proof == Proven {
        var pre := p.preconditions[i];
        assert pre == Precondition(pre.proof, pre.subject);
        assert !Fails(inp, local, p, resend, PreconditionUnmet(pre.subject)) && !Fails(inp, local, p, resend, PreconditionUnproven(pre.subject));
      }
    }
  }

  /** `gates`: the list of failed conditions, each named for what fails. */
  method Gates(inp: StepInput, local: map<Key, Record>, p: Proposal, resend: bool) returns (out: seq<Gate>)
    requires p.response.execution.Some?
    ensures forall g :: g in out <==> Fails(inp, local, p, resend, g)
    ensures out == [] <==> GatesPass(inp, local, p, resend)
  {
    hide GatesPass, Authorises, TargetHeld;
    NothingFails(inp, local, p, resend);
    var declared := DeclaredGates(inp, p);
    var open := PreconditionGates(p.preconditions);
    out := declared + open;
    if !inp.durable {
      out := out + [JournalNotDurable];
    }
    if !resend {
      var busy := CheckBusy(local, p.binding.target.uid, p.id);
      if busy {
        out := out + [TargetBusy];
      }
    }
    assert out == [] <==> forall g :: g !in out by {
      if out != [] {
        assert out[0] in out;
      }
    }
  }

  method DeclaredGates(inp: StepInput, p: Proposal) returns (out: seq<Gate>)
    requires p.response.execution.Some?
    ensures forall g :: g in out <==> Fails(inp, map[], p, true, g) && !g.PreconditionUnmet? && !g.PreconditionUnproven? && !g.JournalNotDurable?
  {
    hide Authorises, TargetHeld;
    var ex := p.response.execution.value;
    out := [];
    if p.response.owner == "" {
      out := out + [OwnerUndeclared];
    }
    if p.ownerConflict {
      out := out + [OwnerConflict];
    }
    if p.human != [] && ex.approvers == [] {
      out := out + [NoApprover];
    }
    if ex.provider !in inp.registry {
      out := out + [ProviderUnregistered];
    } else if !Authorises(inp.registry[ex.provider], p.response.owner, p.binding.target.namespace, p.response.action) {
      out := out + [AuthorityInsufficient];
    }
  }

  method PreconditionGates(pre: seq<Precondition>) returns (out: seq<Gate>)
    ensures forall g :: g in out <==> FailsAmong(pre, g)
  {
    out := [];
    for i := 0 to |pre|
      invariant forall g :: g in out <==> FailsAmong(pre[..i], g)
    {
      assert pre[..i + 1] == pre[..i] + [pre[i]];
      match pre[i].proof
      case Proven =>
      case Unmet => out := out + [PreconditionUnmet(pre[i].subject)];
      case Unproven => out := out + [PreconditionUnproven(pre[i].subject)];
    }
    assert pre[..|pre|] == pre;
  }

  ghost predicate FailsAmong(pre: seq<Precondition>, g: Gate) {
    match g
    case PreconditionUnmet(c) => Precondition(Unmet, c) in pre
    case PreconditionUnproven(c) => Precondition(Unproven, c) in pre
    case _ => false
  }

  /** `busy`. */
  method CheckBusy(local: map<Key, Record>, targetUid: string, id: ProposalId) returns (b: bool)
    ensures b <==> TargetHeld(local, targetUid, id)
  {
    var keys := local.Keys;
    while keys != {}
      invariant keys <= local.Keys
      invariant forall k :: k in local && k !in keys ==>
        !(local[k].intent.targetUid == targetUid && k.id != id && local[k].phase.Occupies())
    {
      var k :| k in keys;
      if local[k].intent.targetUid == targetUid && k.id != id && local[k].phase.Occupies() {
        return true;
      }
      keys := keys - {k};
    }
    b := false;
  }

  // ── approvals ─────────────────────────────────────────────────────────────

  /** `invalid` finds nothing: the decision counts for p, under p's own declaration, now. */
  predicate Valid(inp: StepInput, p: Proposal, d: Decision)
    requires p.response.execution.Some?
  {
    && d in inp.genuine
    && d.principal in p.response.execution.value.approvers
    && d.digest == p.digest
    && d.decidedAt <= inp.now
    && inp.now - d.decidedAt <= p.response.execution.value.ApprovalAge()
  }

  predicate Counts(inp: StepInput, p: Proposal, d: Decision)
    requires p.response.execution.Some?
  {
    d in inp.decisions && d.proposal == p.id && Valid(inp, p, d)
  }

  ghost predicate CountingRejection(inp: StepInput, p: Proposal)
    requires p.response.execution.Some?
  {
    exists d :: Counts(inp, p, d) && d.verdict == Reject
  }

  /** Approval a, made from the counted decision, authorises p now. */
  ghost predicate Authorised(inp: StepInput, p: Proposal, a: Approval, counted: Option<Decision>)
    requires p.response.execution.Some?
  {
    match a
    case PolicyApproval(profile) => p.human == [] && profile == p.profile
    case HumanApproval(principal, decisionId) =>
      && p.human != [] && counted.Some? && counted.value.decisionId == decisionId && counted.value.principal == principal
      && counted.value.verdict == Approve && Counts(inp, p, counted.value)
      && !CountingRejection(inp, p)
  }

  /** `approval`: the first counting approval, unless someone who counts rejected. */
  method FindApproval(inp: StepInput, p: Proposal) returns (approved: Option<Approval>, counted: Option<Decision>, rejected: bool)
    requires p.response.execution.Some?
    ensures approved.Some? ==> Authorised(inp, p, approved.value, counted)
    ensures rejected <==> p.human != [] && CountingRejection(inp, p)
    ensures approved.None? <==> p.human != [] && (rejected || forall d :: Counts(inp, p, d) ==> d.verdict != Approve)
  {
    if p.human == [] {
      return Some(PolicyApproval(p.profile)), None, false;
    }
    approved, counted, rejected := None, None, false;
    for i := 0 to |inp.decisions|
      invariant rejected <==> exists d :: d in inp.decisions[..i] && Counts(inp, p, d) && d.verdict == Reject
      invariant approved.None? <==> forall d :: d in inp.decisions[..i] && Counts(inp, p, d) ==> d.verdict != Approve
      invariant approved.Some? ==> counted.Some? && Counts(inp, p, counted.value) && counted.value.verdict == Approve
      invariant approved.Some? ==> approved.value == HumanApproval(counted.value.principal, counted.value.decisionId)
    {
      var d := inp.decisions[i];
      assert inp.decisions[..i + 1] == inp.decisions[..i] + [d];
      assert d in inp.decisions;
      if d.proposal != p.id || !Valid(inp, p, d) {
        continue;
      }
      if d.verdict == Reject {
        rejected := true;
        continue;
      }
      if approved.None? {
        approved, counted := Some(HumanApproval(d.principal, d.decisionId)), Some(d);
      }
    }
    assert inp.decisions[..|inp.decisions|] == inp.decisions;
    if rejected {
      approved, counted := None, None;
    }
  }

  /** `stillApproved`: the recorded approval itself is judged again; no other
      decision stands in for it. */
  method StillApproved(inp: StepInput, p: Proposal, r: Record) returns (ok: bool)
    requires p.response.execution.Some?
    ensures ok <==> Authorised(inp, p, r.intent.approval, r.intent.decision)
  {
    var _, _, rejected := FindApproval(inp, p);
    if rejected {
      return false;
    }
    match r.intent.approval
    case PolicyApproval(profile) =>
      ok := p.human == [] && profile == p.profile;
    case HumanApproval(principal, decisionId) =>
      if p.human == [] || r.intent.decision.None? {
        return false;
      }
      var d := r.intent.decision.value;
      ok := d.decisionId == decisionId && d.principal == principal && d.proposal == p.id && d.verdict == Approve
        && Valid(inp, p, d) && d in inp.decisions;
  }

  // ── attempts ──────────────────────────────────────────────────────────────

  /** n is the next attempt of the proposal: the first, or the one after a
      retryable failure within the budget. */
  ghost predicate NextAttempt(local: map<Key, Record>, id: ProposalId, n: nat) {
    && n >= 1
    && (forall k :: k in local && k.id == id ==> k.attempt < n)
    && (n == 1 || (
          && Key(id, n - 1) in local
          && var last := local[Key(id, n - 1)];
             last.phase == Failed && last.intent.retryable && n - 1 < last.intent.maxAttempts))
  }

  /** The head of `decide`: the highest attempt decides whether there is a next one. */
  method FindAttempt(local: map<Key, Record>, id: ProposalId) returns (n: Option<nat>)
    requires forall k :: k in local && k.id == id ==> k.attempt >= 1
    ensures n.Some? ==> NextAttempt(local, id, n.value)
    ensures n.None? ==> forall m: nat :: !NextAttempt(local, id, m)
  {
    var keys := local.Keys;
    var last: Option<nat> := None;
    while keys != {}
      invariant keys <= local.Keys
      invariant last.None? ==> forall k :: k in local && k.id == id ==> k in keys
      invariant last.Some? ==> Key(id, last.value) in local
      invariant last.Some? ==> forall k :: k in local && k.id == id && k !in keys ==> k.attempt <= last.value
    {
      var k :| k in keys;
      if k.id == id && (last.None? || k.attempt > last.value) {
        last := Some(k.attempt);
      }
      keys := keys - {k};
    }
    if last.None? {
      return Some(1);
    }
    var r := local[Key(id, last.value)];
    if r.phase != Failed || !r.intent.retryable || last.value >= r.intent.maxAttempts {
      NoOtherAttempt(local, id, last.value);
      return None;
    }
    n := Some(last.value + 1);
  }

  lemma NoOtherAttempt(local: map<Key, Record>, id: ProposalId, last: nat)
    requires Key(id, last) in local && forall k :: k in local && k.id == id ==> 1 <= k.attempt <= last
    requires var r := local[Key(id, last)]; r.phase != Failed || !r.intent.retryable || last >= r.intent.maxAttempts
    ensures forall m: nat :: !NextAttempt(local, id, m)
  {
    forall m: nat
      ensures NextAttempt(local, id, m) ==> m == last + 1
    {
      assert Key(id, last).id == id && Key(id, last).attempt == last;
      assert m >= 1 && Key(id, m - 1) in local ==> Key(id, m - 1).attempt <= last;
    }
  }

  /** The record `decide` persists before anything is sent. */
  function NewRecord(inp: StepInput, p: Proposal, n: nat, epoch: nat, a: Approval, counted: Option<Decision>): Record
    requires p.response.execution.Some?
  {
    var ex := p.response.execution.value;
    Record(Key(p.id, n),
      Intent(p.binding.target.uid, p.digest, a, counted, p.binding, ex.provider, p.response.owner, p.response.action, p.for_, p.expected, ex,
        inp.now, ex.ackTimeout, ex.completionTimeout, ex.recoveryWindow, ex.retryable, ex.AttemptBudget(), ex.SendBudget()),
      Dispatching, epoch, epoch, 1, false, inp.now, 0, 0, 0, NoRecovery, 0)
  }

  // ── what answers and deadlines do to a record ─────────────────────────────

  /** `adopt`: the record after a matching answer, if the answer changes it. */
  function Adopt(r: Record, s: ResultState, now: Time): Option<Record> {
    match s
    case ResultUnknown => None
    case ResultPending =>
      if r.phase != Dispatching then None else Some(r.(phase := Accepted, ackedAt := now))
    case ResultRefused =>
      if r.ackedAt != 0 then None
      else Some(r.(phase := Failed, refused := true, ackedAt := now, completedAt := now))
    case ResultSucceeded =>
      Some(r.(phase := Succeeded, ackedAt := if r.ackedAt == 0 then now else r.ackedAt, completedAt := now, endedAt := now))
    case ResultFailed =>
      Some(r.(phase := Failed, ackedAt := if r.ackedAt == 0 then now else r.ackedAt, completedAt := now, endedAt := now))
  }

  /** `send`, after a matching receipt. */
  function AfterReceipt(r: Record, accepted: bool, now: Time): Record {
    if accepted then r.(phase := Accepted, ackedAt := now)
    else r.(phase := Failed, refused := true, ackedAt := now, completedAt := now)
  }

  datatype Plan = Stay | Write(next: Record) | Resend(next: Record)

  /** A resend is due: unacknowledged, within the budget and spaced. */
  predicate ResendDue(r: Record, now: Time) {
    && r.phase == Dispatching && now < r.intent.createdAt + r.intent.ackTimeout
    && r.sends < r.intent.maxSends && r.intent.maxSends > 0
    && now >= r.lastSentAt + r.intent.ackTimeout / r.intent.maxSends
  }

  /** The proposal still stands behind the record: same digest, provider
      registered, gates pass, recorded approval still counts. */
  ghost predicate StillStands(inp: StepInput, local: map<Key, Record>, r: Record) {
    && r.key.id in inp.props
    && inp.props[r.key.id].response.execution.Some?
    && inp.props[r.key.id].digest == r.intent.digest
    && r.intent.provider in inp.registry
    && GatesPass(inp, local, inp.props[r.key.id], true)
    && Authorised(inp, inp.props[r.key.id], r.intent.approval, r.intent.decision)
  }

  /** A first send was decided on records that left its target free. */
  ghost predicate FirstGated(inp: StepInput, seen: map<Key, Record>, id: ProposalId, n: nat) {
    n == 1 ==> id in inp.props && inp.props[id].response.execution.Some? && GatesPass(inp, seen, inp.props[id], false)
  }

  /** The switch that ends `advance`, when no answer was adopted. */
  ghost function AdvancePlan(inp: StepInput, local: map<Key, Record>, r: Record, epoch: nat): Plan {
    var now := inp.now;
    match r.phase
    case Dispatching =>
      if now >= r.intent.createdAt + r.intent.ackTimeout then Write(r.(phase := TimedOut, completedAt := now))
      else if !ResendDue(r, now) then Stay
      else if !StillStands(inp, local, r) then Write(r.(phase := Withdrawn, completedAt := now))
      else Resend(r.(sends := r.sends + 1, lastSentAt := now, sentFence := epoch))
    case Accepted =>
      if now >= r.ackedAt + r.intent.completionTimeout then Write(r.(phase := TimedOut, completedAt := now)) else Stay
    case _ => Stay
  }
}
