/** What a capability or an envelope is, as a definition without memo tables:
    the reference the evaluator is proved against. */
module Semantics {
  import opened Wrappers
  import opened OpsTypes
  import opened Predicates
  import opened Contracts
  import opened Graphs
  import opened Resolution
  import opened EvidenceRules

  datatype Verdict = Accepted | Unmet(reason: Reason) | Unproven(reason: Reason)

  /** The target and contract of a capability node. */
  function TargetOf(w: World, k: CapKey): Target
    requires UniqueValid(w, k.uid).Some?
  {
    UniqueValid(w, k.uid).value
  }

  ghost function PredicateVerdict(f: Facts, t: Target, c: Contract, p: Predicate): Verdict {
    match FindSlot(c, p.assertion)
    case None => Unproven(Reason(EvidenceUnproven(Unbound), OnAssertion(p.assertion)))  // not in a valid contract
    case Some(slot) => Judged(EvidenceOf(f, t, slot), p)
  }

  function Judged(ev: Evidence, p: Predicate): Verdict {
    match ev
    case Current(v) => if Eval(p, v) then Accepted else Unmet(Reason(PredicateUnmet, OnAssertion(p.assertion)))
    case _ => Unproven(Reason(EvidenceUnproven(ev), OnAssertion(p.assertion)))
  }

  ghost function ReasonsOf(vs: set<Verdict>): set<Reason> {
    set v | v in vs && !v.Accepted? :: v.reason
  }

  /** AllOf: one proven failure makes the envelope unsatisfied, else one unproven input leaves it unknown. */
  ghost function EnvelopeOf(f: Facts, t: Target, c: Contract, env: Envelope): EnvelopeResult {
    var vs := set p | p in env.requirements :: PredicateVerdict(f, t, c, p);
    EnvelopeResult(
      if exists v :: v in vs && v.Unmet? then Unsatisfied
      else if exists v :: v in vs && v.Unproven? then EnvUnknown
      else Satisfied,
      ReasonsOf(vs))
  }

  function EnvelopeVerdict(state: EnvelopeState, name: string): Verdict {
    match state
    case Satisfied => Accepted
    case Unsatisfied => Unmet(Reason(EnvelopeUnmet, OnEnvelope(name)))
    case EnvUnknown => Unproven(Reason(EnvelopeUnknown, OnEnvelope(name)))
  }

  function LocalVerdict(state: CapabilityState, name: string): Verdict {
    match state
    case Available => Accepted
    case Unknown => Unproven(Reason(LocalUnknown, OnLocal(name)))
    case _ => Unmet(Reason(LocalUnmet, OnLocal(name)))
  }

  function DependencyVerdict(state: CapabilityState, d: DependencyRequirement, uid: string): Verdict {
    match state
    case Available => Accepted
    case Unknown => Unproven(Reason(DependencyUnknown, OnDependency(d.slot, uid, d.capability)))
    case _ => Unmet(Reason(DependencyUnmet, OnDependency(d.slot, uid, d.capability)))
  }

  /** A dependency that leads nowhere is unproven, and says why. */
  function BrokenDependency(to: DependencyTarget, d: DependencyRequirement): Verdict
    requires !to.LeadsTo?
  {
    match to
    case NoBinding => Unproven(Reason(DependencyUnbound, OnDependencySlot(d.slot)))
    case NoTarget(uid) => Unproven(Reason(DependencyTargetMissing, OnDependency(d.slot, uid, d.capability)))
    case NoValidTarget(uid) => Unproven(Reason(DependencyTargetInvalid, OnDependency(d.slot, uid, d.capability)))
    case OtherContract(uid) => Unproven(Reason(DependencyContractMismatch, OnDependency(d.slot, uid, d.capability)))
    case NoCapability(uid) => Unproven(Reason(DependencyCapabilityAbsent, OnDependency(d.slot, uid, d.capability)))
  }

  /** The state composed from the verdicts of a capability's requirements, in order. */
  function ComposedState(rs: seq<Requirement>, vs: seq<Verdict>): CapabilityState
    requires |rs| == |vs|
  {
    if exists i :: 0 <= i < |vs| && vs[i].Unproven? then Unknown
    else if exists i, j :: 0 <= i < |vs| && 0 <= j < |vs| && vs[i].Unmet? && vs[j].Unmet? && rs[i].onUnmet != rs[j].onUnmet then Unknown
    else if exists i :: 0 <= i < |vs| && vs[i].Unmet? && rs[i].onUnmet == ImpactDegraded then Degraded
    else if exists i :: 0 <= i < |vs| && vs[i].Unmet? && rs[i].onUnmet == ImpactUnavailable then Unavailable
    else Available
  }

  ghost function Compose(typ: CapabilityType, rs: seq<Requirement>, vs: seq<Verdict>): CapabilityResult
    requires |rs| == |vs|
  {
    var state := ComposedState(rs, vs);
    var conflict := state == Unknown && forall i :: 0 <= i < |vs| ==> !vs[i].Unproven?;
    CapabilityResult(
      state,
      ReasonsOf(set v | v in vs) + if conflict then {Reason(ConflictingImpact, OnCapability(typ))} else {})
  }

  function TypeOf(w: World, k: CapKey): CapabilityType
    requires UniqueValid(w, k.uid).Some?
  {
    var t := UniqueValid(w, k.uid).value;
    match ContractOf(w.contracts, t)
    case None => CapabilityType("", k.name, "")
    case Some(c) => match FindCapability(c, k.name) case None => CapabilityType("", k.name, "") case Some(cp) => cp.typ
  }

  /** What a requirement edge needs of the graph for the recursion below to end. */
  lemma RequirementDescends(w: World, k: CapKey, r: Requirement)
    requires Sane(w) && k in Nodes(w) && r in RequirementsOf(w, k)
    ensures UniqueValid(w, k.uid).Some? && ContractOf(w.contracts, TargetOf(w, k)).Some?
    ensures forall m :: m in RequirementEdge(w, TargetOf(w, k), r) ==>
      m in Nodes(w) && m in Succ(CapGraph(w), k) && Below(CapGraph(w), m) < Below(CapGraph(w), k)
  {
    hide RequirementEdge, RequirementOk, Bound, Resolves;
    InNodes(w, k);
    OkTarget(w, k.uid);
    GraphClosed(w);
    forall m | m in RequirementEdge(w, TargetOf(w, k), r)
      ensures m in Nodes(w) && m in Succ(CapGraph(w), k) && Below(CapGraph(w), m) < Below(CapGraph(w), k)
    {
      EdgeInNodes(w, k, r, m);
      BelowShrinks(CapGraph(w), k, m);
    }
  }

  /** The verdict on one requirement. The order of the cases is the source's. */
  ghost function RequirementVerdict(w: World, f: Facts, k: CapKey, r: Requirement): Verdict
    requires Sane(w) && k in Nodes(w) && r in RequirementsOf(w, k)
    decreases Below(CapGraph(w), k), 0, 0
  {
    RequirementDescends(w, k, r);
    var t := TargetOf(w, k);
    var c := ContractOf(w.contracts, t).value;
    RequirementIsOk(w, k, r);
    if r.predicate_.Some? then PredicateVerdict(f, t, c, r.predicate_.value)
    else if r.dependency.Some? then
      var to := ResolveDependency(w, t, r.dependency.value);
      if to.LeadsTo? then
        assert r.localCapability == "" && to.key in RequirementEdge(w, t, r);
        DependencyVerdict(CapResult(w, f, to.key).state, r.dependency.value, to.key.uid)
      else BrokenDependency(to, r.dependency.value)
    else if r.localCapability != "" then
      var m := CapKey(k.uid, r.localCapability);
      assert t.identity.uid == k.uid;
      assert m in RequirementEdge(w, t, r);
      LocalVerdict(CapResult(w, f, m).state, r.localCapability)
    else
      match FindEnvelope(c, r.envelope)
      case None => Unproven(Reason(EnvelopeUnknown, OnEnvelope(r.envelope)))  // not in a valid contract
      case Some(env) => EnvelopeVerdict(EnvelopeOf(f, t, c, env).state, r.envelope)
  }

  ghost function Verdicts(w: World, f: Facts, k: CapKey, rs: seq<Requirement>): (vs: seq<Verdict>)
    requires Sane(w) && k in Nodes(w) && forall r :: r in rs ==> r in RequirementsOf(w, k)
    ensures |vs| == |rs|
    ensures forall i :: 0 <= i < |rs| ==> vs[i] == RequirementVerdict(w, f, k, rs[i])
    decreases Below(CapGraph(w), k), 1, |rs|
  {
    if rs == [] then [] else [RequirementVerdict(w, f, k, rs[0])] + Verdicts(w, f, k, rs[1..])
  }

  /** The meaning of capability k on the given facts. */
  ghost function CapResult(w: World, f: Facts, k: CapKey): CapabilityResult
    requires Sane(w) && k in Nodes(w)
    decreases Below(CapGraph(w), k), 2, 0
  {
    InNodes(w, k);
    OkTarget(w, k.uid);
    var rs := RequirementsOf(w, k);
    Compose(TypeOf(w, k), rs, Verdicts(w, f, k, rs))
  }
}
