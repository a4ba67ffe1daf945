/** What the evaluator promises about whole dependency closures: when a
    capability is AVAILABLE, what it can depend on, and how it decays. */
module Guarantees {
  import opened Wrappers
  import opened OpsTypes
  import opened Predicates
  import opened Contracts
  import opened Graphs
  import opened Resolution
  import opened EvidenceRules
  import opened Semantics

  // ── AVAILABLE is exact ────────────────────────────────────────────────────

  /** The predicate is true on current evidence. */
  ghost predicate Holds(f: Facts, t: Target, c: Contract, p: Predicate) {
    && FindSlot(c, p.assertion).Some?
    && var ev := EvidenceOf(f, t, FindSlot(c, p.assertion).value);
       ev.Current? && Eval(p, ev.value)
  }

  /** Everything r asks for directly is there: no other capability's state is consulted. */
  ghost predicate Grounded(w: World, f: Facts, k: CapKey, r: Requirement)
    requires Sane(w) && k in Nodes(w) && r in RequirementsOf(w, k)
  {
    RequirementDescends(w, k, r);
    var t := TargetOf(w, k);
    var c := ContractOf(w.contracts, t).value;
    && (r.predicate_.Some? ==> Holds(f, t, c, r.predicate_.value))
    && (r.dependency.Some? ==> exists m :: Follows(w, t, r.dependency.value, m))
    && (r.envelope != "" ==> FindEnvelope(c, r.envelope).Some?)
    && (r.envelope != "" ==> forall p :: p in FindEnvelope(c, r.envelope).value.requirements ==> Holds(f, t, c, p))
  }

  ghost predicate AllGrounded(w: World, f: Facts, k: CapKey)
    requires Sane(w) && k in Nodes(w)
  {
    forall r :: r in RequirementsOf(w, k) ==> Grounded(w, f, k, r)
  }

  ghost predicate ClosureGrounded(w: World, f: Facts, k: CapKey)
    requires Sane(w) && k in Nodes(w)
  {
    forall m {:trigger Reaches(CapGraph(w), k, m)} :: Reaches(CapGraph(w), k, m) && m in Nodes(w) ==> AllGrounded(w, f, m)
  }

  lemma EnvelopeSatisfied(f: Facts, t: Target, c: Contract, env: Envelope)
    ensures EnvelopeOf(f, t, c, env).state == Satisfied <==> forall p :: p in env.requirements ==> Holds(f, t, c, p)
  {
    hide EvidenceOf, FindSlot;
    var vs := set p | p in env.requirements :: PredicateVerdict(f, t, c, p);
    forall p | p in env.requirements
      ensures PredicateVerdict(f, t, c, p) in vs
      ensures PredicateVerdict(f, t, c, p).Accepted? <==> Holds(f, t, c, p)
    {
    }
    if forall p :: p in env.requirements ==> Holds(f, t, c, p) {
      assert forall v :: v in vs ==> v.Accepted?;
    }
  }

  lemma ComposedAvailable(rs: seq<Requirement>, vs: seq<Verdict>)
    requires |rs| == |vs|
    requires forall r :: r in rs ==> r.onUnmet == ImpactDegraded || r.onUnmet == ImpactUnavailable
    ensures ComposedState(rs, vs) == Available <==> forall i :: 0 <= i < |vs| ==> vs[i].Accepted?
  {
    if ComposedState(rs, vs) == Available {
      forall i | 0 <= i < |vs| ensures vs[i].Accepted? {
        assert rs[i] in rs;
      }
    }
  }

  /** A verdict is accepted exactly when the requirement is grounded and the
      capabilities it leads to are AVAILABLE. */
  lemma VerdictAccepted(w: World, f: Facts, k: CapKey, r: Requirement)
    requires Sane(w) && k in Nodes(w) && r in RequirementsOf(w, k)
    ensures UniqueValid(w, k.uid).Some?
    ensures RequirementVerdict(w, f, k, r).Accepted? <==>
      && Grounded(w, f, k, r)
      && forall m :: m in RequirementEdge(w, TargetOf(w, k), r) ==> m in Nodes(w) && CapResult(w, f, m).state == Available
  {
    hide WorldOk, Acyclic, Nodes, CapGraph, EvidenceOf, EnvelopeOf, FindEnvelope, ResolveDependency, Follows, UniqueValid, Holds, PredicateVerdict, CapResult;
    RequirementDescends(w, k, r);
    RequirementIsOk(w, k, r);
    TargetUid(w, k);
    var t := TargetOf(w, k);
    var c := ContractOf(w.contracts, t).value;
    if r.predicate_.Some? {
      PredicateHolds(f, t, c, r.predicate_.value);
    }
    if r.envelope != "" {
      EnvelopeSatisfied(f, t, c, FindEnvelope(c, r.envelope).value);
    }
    if r.localCapability != "" {
      assert CapKey(k.uid, r.localCapability) in RequirementEdge(w, t, r);
    }
    if r.dependency.Some? {
      FollowsSomewhere(w, t, r.dependency.value);
      if ResolveDependency(w, t, r.dependency.value).LeadsTo? {
        assert ResolveDependency(w, t, r.dependency.value).key in RequirementEdge(w, t, r);
      }
    }
  }

  lemma FollowsSomewhere(w: World, t: Target, d: DependencyRequirement)
    ensures ResolveDependency(w, t, d).LeadsTo? <==> exists m :: Follows(w, t, d, m)
  {
    hide Follows, ResolveDependency;
    forall m ensures ResolveDependency(w, t, d) == LeadsTo(m) <==> Follows(w, t, d, m) {
      DependencyMeaning(w, t, d, m);
    }
    if ResolveDependency(w, t, d).LeadsTo? {
      assert Follows(w, t, d, ResolveDependency(w, t, d).key);
    }
  }

  lemma TargetUid(w: World, k: CapKey)
    requires UniqueValid(w, k.uid).Some?
    ensures TargetOf(w, k).identity.uid == k.uid
  {
  }

  lemma PredicateHolds(f: Facts, t: Target, c: Contract, p: Predicate)
    ensures PredicateVerdict(f, t, c, p).Accepted? <==> Holds(f, t, c, p)
  {
    hide EvidenceOf, FindSlot;
  }

  lemma CapAvailable(w: World, f: Facts, k: CapKey)
    requires Sane(w) && k in Nodes(w)
    ensures CapResult(w, f, k).state == Available <==>
      AllGrounded(w, f, k) && forall m :: m in Edges(w, k) ==> m in Nodes(w) && CapResult(w, f, m).state == Available
  {
    hide WorldOk, Acyclic, Nodes, CapGraph, RequirementVerdict, Grounded, UniqueValid, ContractOf, RequirementsOf, RequirementEdge, RequirementOk;
    InNodes(w, k);
    OkTarget(w, k.uid);
    var rs := RequirementsOf(w, k);
    var vs := Verdicts(w, f, k, rs);
    forall r | r in rs ensures r.onUnmet == ImpactDegraded || r.onUnmet == ImpactUnavailable {
      RequirementIsOk(w, k, r);
      assert RequirementOk(ContractOf(w.contracts, UniqueValid(w, k.uid).value).value, r);
      OnUnmetKnown(ContractOf(w.contracts, UniqueValid(w, k.uid).value).value, r);
    }
    ComposedAvailable(rs, vs);
    forall r | r in rs
      ensures RequirementVerdict(w, f, k, r).Accepted? <==>
        && Grounded(w, f, k, r)
        && forall m :: m in RequirementEdge(w, TargetOf(w, k), r) ==> m in Nodes(w) && CapResult(w, f, m).state == Available
    {
      VerdictAccepted(w, f, k, r);
    }
    AllVerdicts(rs, vs, w, f, k);
  }

  lemma OnUnmetKnown(c: Contract, r: Requirement)
    requires RequirementOk(c, r)
    ensures r.onUnmet == ImpactDegraded || r.onUnmet == ImpactUnavailable
  {
  }

  lemma AllVerdicts(rs: seq<Requirement>, vs: seq<Verdict>, w: World, f: Facts, k: CapKey)
    requires Sane(w) && k in Nodes(w) && rs == RequirementsOf(w, k)
    requires |vs| == |rs| && forall i :: 0 <= i < |rs| ==> vs[i] == RequirementVerdict(w, f, k, rs[i])
    ensures (forall i :: 0 <= i < |vs| ==> vs[i].Accepted?) <==> forall r :: r in rs ==> RequirementVerdict(w, f, k, r).Accepted?
  {
    hide *;
    if forall i :: 0 <= i < |vs| ==> vs[i].Accepted? {
      forall r | r in rs ensures RequirementVerdict(w, f, k, r).Accepted? {
        var i :| 0 <= i < |rs| && rs[i] == r;
        assert vs[i].Accepted?;
      }
    }
    if forall r :: r in rs ==> RequirementVerdict(w, f, k, r).Accepted? {
      forall i | 0 <= i < |vs| ensures vs[i].Accepted? {
        assert rs[i] in rs;
      }
    }
  }

  /** A capability is AVAILABLE exactly when, in its whole dependency closure,
      every dependency leads to a capability of the one valid target that is
      bound, under exactly the bound contract, and every predicate, envelope predicates
      included, is true on current evidence. */
  lemma {:induction false} AvailableIsExact(w: World, f: Facts, k: CapKey)
    requires Sane(w) && k in Nodes(w)
    ensures CapResult(w, f, k).state == Available <==> ClosureGrounded(w, f, k)
    decreases Below(CapGraph(w), k)
  {
    hide WorldOk, Acyclic, CapGraph, Nodes, Reaches, AllGrounded, CapResult, Edges;
    var g := CapGraph(w);
    CapAvailable(w, f, k);
    NodeEdges(w, k);
    ReachesRefl(g, k);
    forall m | m in Edges(w, k)
      ensures CapResult(w, f, m).state == Available <==> ClosureGrounded(w, f, m)
      ensures ClosureGrounded(w, f, k) ==> ClosureGrounded(w, f, m)
    {
      AvailableIsExact(w, f, m);
      forall x | Reaches(g, m, x) ensures Reaches(g, k, x) {
        ReachesStep(g, k, m, x);
      }
    }
    if CapResult(w, f, k).state == Available {
      forall x | Reaches(g, k, x) && x in Nodes(w)
        ensures AllGrounded(w, f, x)
      {
        ReachesSplit(g, k, x);
        if x != k {
          var m :| m in Succ(g, k) && Reaches(g, m, x);
          assert ClosureGrounded(w, f, m);
        }
      }
    }
  }

  lemma NodeEdges(w: World, k: CapKey)
    requires Sane(w) && k in Nodes(w)
    ensures Succ(CapGraph(w), k) == Edges(w, k)
    ensures forall m :: m in Edges(w, k) ==> m in Nodes(w) && Below(CapGraph(w), m) < Below(CapGraph(w), k)
  {
    hide Nodes, Edges;
    GraphClosed(w);
    forall m | m in Edges(w, k)
      ensures m in Nodes(w) && Below(CapGraph(w), m) < Below(CapGraph(w), k)
    {
      assert m in Succ(CapGraph(w), k);
      assert m in CapGraph(w);
      BelowShrinks(CapGraph(w), k, m);
    }
  }

  // ── evidence that confirms other evidence ─────────────────────────────────

  /** Whatever is current in f is current in g with the same value. */
  ghost predicate Confirms(f: Facts, g: Facts) {
    forall t, slot {:trigger EvidenceOf(f, t, slot)} ::
      EvidenceOf(f, t, slot).Current? ==> EvidenceOf(g, t, slot) == EvidenceOf(f, t, slot)
  }

  lemma PredicateCarries(f: Facts, g: Facts, t: Target, c: Contract, p: Predicate)
    requires Confirms(f, g)
    ensures !PredicateVerdict(f, t, c, p).Unproven? ==> PredicateVerdict(g, t, c, p) == PredicateVerdict(f, t, c, p)
  {
    hide EvidenceOf, FindSlot, Eval;
  }

  /** A decided envelope keeps its state. */
  lemma EnvelopeCarries(f: Facts, g: Facts, t: Target, c: Contract, env: Envelope)
    requires Confirms(f, g)
    ensures var e := EnvelopeOf(f, t, c, env).state; e != EnvUnknown ==> EnvelopeOf(g, t, c, env).state == e
  {
    hide Confirms, PredicateVerdict;
    var vf := set p | p in env.requirements :: PredicateVerdict(f, t, c, p);
    var vg := set p | p in env.requirements :: PredicateVerdict(g, t, c, p);
    forall p | p in env.requirements
      ensures PredicateVerdict(f, t, c, p) in vf && PredicateVerdict(g, t, c, p) in vg
      ensures !PredicateVerdict(f, t, c, p).Unproven? ==> PredicateVerdict(g, t, c, p) == PredicateVerdict(f, t, c, p)
    {
      PredicateCarries(f, g, t, c, p);
    }
    if v :| v in vf && v.Unmet? {
      var p :| p in env.requirements && v == PredicateVerdict(f, t, c, p);
      assert v in vg;
    } else if forall v :: v in vf ==> v.Accepted? {
      assert forall v :: v in vg ==> v.Accepted?;
    }
  }

  lemma {:induction false} RequirementCarries(w: World, f: Facts, g: Facts, k: CapKey, r: Requirement)
    requires Sane(w) && k in Nodes(w) && r in RequirementsOf(w, k) && Confirms(f, g)
    ensures !RequirementVerdict(w, f, k, r).Unproven? ==> RequirementVerdict(w, g, k, r) == RequirementVerdict(w, f, k, r)
    decreases Below(CapGraph(w), k), 0
  {
    hide WorldOk, Acyclic, Nodes, CapGraph, EnvelopeOf, Confirms, PredicateVerdict, CapResult, UniqueValid, ResolveDependency, FindEnvelope;
    RequirementDescends(w, k, r);
    RequirementIsOk(w, k, r);
    TargetUid(w, k);
    var t := TargetOf(w, k);
    var c := ContractOf(w.contracts, t).value;
    if r.predicate_.Some? {
      PredicateCarries(f, g, t, c, r.predicate_.value);
    }
    if r.envelope != "" && FindEnvelope(c, r.envelope).Some? {
      EnvelopeCarries(f, g, t, c, FindEnvelope(c, r.envelope).value);
    }
    forall m | m in RequirementEdge(w, t, r)
      ensures CapResult(w, f, m).state != Unknown ==> CapResult(w, g, m) == CapResult(w, f, m)
    {
      CapabilityCarries(w, f, g, m);
    }
  }

  /** A decided capability keeps its result, reasons included, on confirming facts. */
  lemma {:induction false} CapabilityCarries(w: World, f: Facts, g: Facts, k: CapKey)
    requires Sane(w) && k in Nodes(w) && Confirms(f, g)
    ensures CapResult(w, f, k).state != Unknown ==> CapResult(w, g, k) == CapResult(w, f, k)
    decreases Below(CapGraph(w), k), 1
  {
    hide WorldOk, Acyclic, Nodes, CapGraph, Confirms, RequirementVerdict, RequirementsOf, TypeOf;
    InNodes(w, k);
    OkTarget(w, k.uid);
    var rs := RequirementsOf(w, k);
    var vf, vg := Verdicts(w, f, k, rs), Verdicts(w, g, k, rs);
    if CapResult(w, f, k).state != Unknown {
      forall i | 0 <= i < |rs| ensures vg[i] == vf[i] {
        RequirementCarries(w, f, g, k, rs[i]);
      }
      assert vf == vg;
    }
  }

  // ── decay ─────────────────────────────────────────────────────────────────

  /** Current evidence was current, with the same value, at every earlier
      instant at which all statements had been made. */
  lemma CurrentEarlier(os: seq<Observation>, earlier: Time, later: Time)
    requires earlier <= later && forall o :: o in os ==> o.observedAt <= earlier
    ensures Confirms(Facts(later, os), Facts(earlier, os))
  {
    var f, g := Facts(later, os), Facts(earlier, os);
    forall t, slot: AssertionSlot | EvidenceOf(f, t, slot).Current?
      ensures EvidenceOf(g, t, slot) == EvidenceOf(f, t, slot)
    {
      var v := EvidenceOf(f, t, slot).value;
      CurrentMeaning(f, t, slot, v);
      CurrentMeaning(g, t, slot, v);
      var b := AssertionBindingOf(t, slot.name).value;
      assert Applicable(f, Wanted(t, slot.name, b.provider)) == Applicable(g, Wanted(t, slot.name, b.provider));
    }
  }

  /** Time alone moves a capability only to UNKNOWN: what is decided at a later
      instant was decided the same way at each earlier one. */
  lemma DecayOnlyToUnknown(w: World, os: seq<Observation>, earlier: Time, later: Time, k: CapKey)
    requires Sane(w) && k in Nodes(w)
    requires earlier <= later && forall o :: o in os ==> o.observedAt <= earlier
    ensures CapResult(w, Facts(later, os), k).state != Unknown ==>
      CapResult(w, Facts(earlier, os), k) == CapResult(w, Facts(later, os), k)
  {
    CurrentEarlier(os, earlier, later);
    CapabilityCarries(w, Facts(later, os), Facts(earlier, os), k);
  }

  lemma EnvelopeDecayOnlyToUnknown(os: seq<Observation>, earlier: Time, later: Time, t: Target, c: Contract, env: Envelope)
    requires earlier <= later && forall o :: o in os ==> o.observedAt <= earlier
    ensures var e := EnvelopeOf(Facts(later, os), t, c, env).state;
      e != EnvUnknown ==> EnvelopeOf(Facts(earlier, os), t, c, env).state == e
  {
    CurrentEarlier(os, earlier, later);
    EnvelopeCarries(Facts(later, os), Facts(earlier, os), t, c, env);
  }

  // ── containment ───────────────────────────────────────────────────────────

  ghost function FiledSet(f: Facts, t: Target, slot: string): set<Observation> {
    set o | o in f.observations && Filed(o, t, slot)
  }

  /** Only statements filed under the target's name and slot matter to the slot's evidence. */
  lemma EvidenceIsLocal(f: Facts, g: Facts, t: Target, slot: AssertionSlot)
    requires f.at == g.at && FiledSet(f, t, slot.name) == FiledSet(g, t, slot.name)
    ensures EvidenceOf(f, t, slot) == EvidenceOf(g, t, slot)
  {
    var b := AssertionBindingOf(t, slot.name);
    if b.Some? {
      var want := Wanted(t, slot.name, b.value.provider);
      assert Applicable(f, want) == (set o | o in FiledSet(f, t, slot.name) && o.observedAt <= f.at && o.key == want);
      assert Applicable(g, want) == (set o | o in FiledSet(g, t, slot.name) && o.observedAt <= g.at && o.key == want);
      assert Mismatches(f, t, slot.name, want)
        == (set o | o in FiledSet(f, t, slot.name) && o.observedAt <= f.at && o.key != want :: MismatchOf(o.key, want));
      assert Mismatches(g, t, slot.name, want)
        == (set o | o in FiledSet(g, t, slot.name) && o.observedAt <= g.at && o.key != want :: MismatchOf(o.key, want));
    }
  }

  /** Requirement r of a target with contract c reads the slot, directly or through an envelope. */
  predicate Reads(c: Contract, r: Requirement, slot: string) {
    || (r.predicate_.Some? && r.predicate_.value.assertion == slot)
    || (r.envelope != "" && FindEnvelope(c, r.envelope).Some? &&
         exists p :: p in FindEnvelope(c, r.envelope).value.requirements && p.assertion == slot)
  }

  /** f and g hold the same statements for every slot capability k reads itself. */
  ghost predicate AgreeAt(w: World, f: Facts, g: Facts, k: CapKey)
    requires Sane(w) && k in Nodes(w)
  {
    OkTarget(w, k.uid);
    InNodes(w, k);
    var t := TargetOf(w, k);
    var c := ContractOf(w.contracts, t).value;
    forall r, slot :: r in RequirementsOf(w, k) && Reads(c, r, slot) ==> FiledSet(f, t, slot) == FiledSet(g, t, slot)
  }

  /** ... and for every slot read anywhere in k's dependency closure, across targets. */
  ghost predicate AgreeOnSupport(w: World, f: Facts, g: Facts, k: CapKey)
    requires Sane(w) && k in Nodes(w)
  {
    forall m {:trigger Reaches(CapGraph(w), k, m)} :: Reaches(CapGraph(w), k, m) && m in Nodes(w) ==> AgreeAt(w, f, g, m)
  }

  lemma PredicateIsLocal(f: Facts, g: Facts, t: Target, c: Contract, p: Predicate)
    requires f.at == g.at && FiledSet(f, t, p.assertion) == FiledSet(g, t, p.assertion)
    ensures PredicateVerdict(f, t, c, p) == PredicateVerdict(g, t, c, p)
  {
    hide EvidenceOf, FiledSet;
    match FindSlot(c, p.assertion)
    case None =>
    case Some(slot) => EvidenceIsLocal(f, g, t, slot);
  }

  lemma EnvelopeIsLocal(f: Facts, g: Facts, t: Target, c: Contract, env: Envelope)
    requires f.at == g.at && forall p :: p in env.requirements ==> FiledSet(f, t, p.assertion) == FiledSet(g, t, p.assertion)
    ensures EnvelopeOf(f, t, c, env) == EnvelopeOf(g, t, c, env)
  {
    hide PredicateVerdict, FiledSet;
    forall p | p in env.requirements
      ensures PredicateVerdict(f, t, c, p) == PredicateVerdict(g, t, c, p)
    {
      PredicateIsLocal(f, g, t, c, p);
    }
    assert (set p | p in env.requirements :: PredicateVerdict(f, t, c, p)) == (set p | p in env.requirements :: PredicateVerdict(g, t, c, p));
  }

  lemma {:induction false} RequirementIsContained(w: World, f: Facts, g: Facts, k: CapKey, r: Requirement)
    requires Sane(w) && k in Nodes(w) && r in RequirementsOf(w, k)
    requires f.at == g.at && AgreeOnSupport(w, f, g, k)
    ensures RequirementVerdict(w, f, k, r) == RequirementVerdict(w, g, k, r)
    decreases Below(CapGraph(w), k), 0
  {
    hide WorldOk, Acyclic, Nodes, CapGraph, EnvelopeOf, PredicateVerdict, CapResult, UniqueValid, ResolveDependency, FindEnvelope, FiledSet, Reaches;
    RequirementDescends(w, k, r);
    RequirementIsOk(w, k, r);
    TargetUid(w, k);
    ReachesRefl(CapGraph(w), k);
    var t := TargetOf(w, k);
    var c := ContractOf(w.contracts, t).value;
    if r.predicate_.Some? {
      assert Reads(c, r, r.predicate_.value.assertion);
      PredicateIsLocal(f, g, t, c, r.predicate_.value);
    }
    if r.envelope != "" && FindEnvelope(c, r.envelope).Some? {
      forall p | p in FindEnvelope(c, r.envelope).value.requirements
        ensures FiledSet(f, t, p.assertion) == FiledSet(g, t, p.assertion)
      {
        assert Reads(c, r, p.assertion);
      }
      EnvelopeIsLocal(f, g, t, c, FindEnvelope(c, r.envelope).value);
    }
    forall m | m in RequirementEdge(w, t, r)
      ensures CapResult(w, f, m) == CapResult(w, g, m)
    {
      forall x | Reaches(CapGraph(w), m, x) ensures Reaches(CapGraph(w), k, x) {
        ReachesStep(CapGraph(w), k, m, x);
      }
      SupportContains(w, f, g, m);
    }
  }

  /** Containment: statements about slots outside a capability's transitive
      support cannot change its state or its reasons. */
  lemma {:induction false} SupportContains(w: World, f: Facts, g: Facts, k: CapKey)
    requires Sane(w) && k in Nodes(w)
    requires f.at == g.at && AgreeOnSupport(w, f, g, k)
    ensures CapResult(w, f, k) == CapResult(w, g, k)
    decreases Below(CapGraph(w), k), 1
  {
    hide WorldOk, Acyclic, Nodes, CapGraph, RequirementVerdict, RequirementsOf, TypeOf, AgreeOnSupport;
    InNodes(w, k);
    OkTarget(w, k.uid);
    var rs := RequirementsOf(w, k);
    var vf, vg := Verdicts(w, f, k, rs), Verdicts(w, g, k, rs);
    forall i | 0 <= i < |rs| ensures vg[i] == vf[i] {
      RequirementIsContained(w, f, g, k, rs[i]);
    }
    assert vf == vg;
  }
}
