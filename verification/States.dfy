/** Which state a capability or an envelope has, and for which reasons, in
    terms of the evidence and of the states it rests on. */
module States {
  import opened Wrappers
  import opened OpsTypes
  import opened Predicates
  import opened Contracts
  import opened Graphs
  import opened Resolution
  import opened EvidenceRules
  import opened Semantics
  import opened Guarantees

  // ── what a predicate says ─────────────────────────────────────────────────

  /** On a value its slot admits, a fitting predicate is the comparison it names. */
  lemma EvalMeaning(p: Predicate, slot: AssertionSlot, v: Value)
    requires Fits(p, slot) && Admits(slot, v)
    ensures Eval(p, v) <==>
      match p.op
      case IsTrue => v == Value(BooleanType, true, 0, "")
      case IsFalse => v == Value(BooleanType, false, 0, "")
      case Eq => v == p.operand
      case NotEq => v != p.operand
      case Gte => v.typ == IntegerType && p.operand.i <= v.i
      case Lte => v.typ == IntegerType && v.i <= p.operand.i
      case OtherOperator(_) => false
  {
    if p.op == Eq || p.op == NotEq {
      CanonicalEquality(v, p.operand);
    }
  }

  /** What a slot admits: the one way to write a value of its type, and for an
      enumerated slot only the values listed. */
  lemma AdmitsMeaning(slot: AssertionSlot, v: Value)
    ensures Admits(slot, v) <==>
      || (slot.typ == BooleanType && exists b :: v == Value(BooleanType, b, 0, ""))
      || (slot.typ == IntegerType && exists i :: v == Value(IntegerType, false, i, ""))
      || (slot.typ == StringType && exists s :: v == Value(StringType, false, 0, s) && (slot.enum != [] ==> s in slot.enum))
  {
    assert v == Value(v.typ, v.b, v.i, v.s);
  }

  /** The predicate is false on current evidence. */
  ghost predicate Refuted(f: Facts, t: Target, c: Contract, p: Predicate) {
    && FindSlot(c, p.assertion).Some?
    && var ev := EvidenceOf(f, t, FindSlot(c, p.assertion).value);
       ev.Current? && !Eval(p, ev.value)
  }

  lemma PredicateMeaning(f: Facts, t: Target, c: Contract, p: Predicate)
    ensures PredicateVerdict(f, t, c, p).Accepted? <==> Holds(f, t, c, p)
    ensures PredicateVerdict(f, t, c, p).Unmet? <==> Refuted(f, t, c, p)
    ensures !(Holds(f, t, c, p) && Refuted(f, t, c, p))
  {
    hide EvidenceOf, FindSlot, Eval;
  }

  /** An envelope is unsatisfied when one of its predicates is proven false,
      satisfied when all are true, and unknown otherwise. */
  lemma EnvelopeMeaning(f: Facts, t: Target, c: Contract, env: Envelope)
    ensures var e := EnvelopeOf(f, t, c, env).state;
      && (e == Unsatisfied <==> exists p :: p in env.requirements && Refuted(f, t, c, p))
      && (e == Satisfied <==> forall p :: p in env.requirements ==> Holds(f, t, c, p))
  {
    hide PredicateVerdict, Holds, Refuted;
    var vs := set p | p in env.requirements :: PredicateVerdict(f, t, c, p);
    forall p | p in env.requirements
      ensures PredicateVerdict(f, t, c, p) in vs
      ensures PredicateVerdict(f, t, c, p).Accepted? <==> Holds(f, t, c, p)
      ensures PredicateVerdict(f, t, c, p).Unmet? <==> Refuted(f, t, c, p)
    {
      PredicateMeaning(f, t, c, p);
    }
    assert (exists v :: v in vs && v.Unmet?) <==> exists p :: p in env.requirements && Refuted(f, t, c, p);
    assert (forall v :: v in vs ==> v.Accepted?) <==> forall p :: p in env.requirements ==> Holds(f, t, c, p);
  }

  // ── what a requirement comes to ───────────────────────────────────────────

  predicate Affected(s: CapabilityState) {
    s == Degraded || s == Unavailable
  }

  ghost predicate LeadsToState(w: World, f: Facts, t: Target, d: DependencyRequirement, p: CapabilityState -> bool)
    requires Sane(w)
  {
    exists m :: Follows(w, t, d, m) && m in Nodes(w) && p(CapResult(w, f, m).state)
  }

  ghost predicate LocalState(w: World, f: Facts, uid: string, name: string, p: CapabilityState -> bool)
    requires Sane(w)
  {
    CapKey(uid, name) in Nodes(w) && p(CapResult(w, f, CapKey(uid, name)).state)
  }

  /** r is proven unmet: its predicate or one of its envelope is false on current
      evidence, or what it leads to is DEGRADED or UNAVAILABLE. */
  ghost predicate Fails(w: World, f: Facts, k: CapKey, t: Target, c: Contract, r: Requirement)
    requires Sane(w)
  {
    || (r.predicate_.Some? && Refuted(f, t, c, r.predicate_.value))
    || (r.dependency.Some? && LeadsToState(w, f, t, r.dependency.value, Affected))
    || (r.localCapability != "" && LocalState(w, f, k.uid, r.localCapability, Affected))
    || (r.envelope != "" && FindEnvelope(c, r.envelope).Some?
        && exists p :: p in FindEnvelope(c, r.envelope).value.requirements && Refuted(f, t, c, p))
  }

  predicate IsAvailable(s: CapabilityState) {
    s == Available
  }

  /** r is met. */
  ghost predicate Met(w: World, f: Facts, k: CapKey, t: Target, c: Contract, r: Requirement)
    requires Sane(w)
  {
    && (r.predicate_.Some? ==> Holds(f, t, c, r.predicate_.value))
    && (r.dependency.Some? ==> LeadsToState(w, f, t, r.dependency.value, IsAvailable))
    && (r.localCapability != "" ==> LocalState(w, f, k.uid, r.localCapability, IsAvailable))
    && (r.envelope != "" ==> (
          && FindEnvelope(c, r.envelope).Some?
          && forall p :: p in FindEnvelope(c, r.envelope).value.requirements ==> Holds(f, t, c, p)))
  }

  lemma FollowsNode(w: World, t: Target, d: DependencyRequirement)
    requires Sane(w)
    ensures ResolveDependency(w, t, d).LeadsTo? ==> ResolveDependency(w, t, d).key in Nodes(w)
    ensures forall m :: Follows(w, t, d, m) <==> ResolveDependency(w, t, d) == LeadsTo(m)
  {
    hide Follows, ResolveDependency, Nodes, WorldOk, Acyclic;
    DependencyInNodes(w, t, d);
    forall m ensures Follows(w, t, d, m) <==> ResolveDependency(w, t, d) == LeadsTo(m) {
      DependencyMeaning(w, t, d, m);
    }
  }

  lemma RequirementMeaning(w: World, f: Facts, k: CapKey, r: Requirement)
    requires Sane(w) && k in Nodes(w) && r in RequirementsOf(w, k)
    ensures UniqueValid(w, k.uid).Some? && ContractOf(w.contracts, TargetOf(w, k)).Some?
    ensures var t := TargetOf(w, k);
      var c := ContractOf(w.contracts, t).value;
      && (RequirementVerdict(w, f, k, r).Accepted? <==> Met(w, f, k, t, c, r))
      && (RequirementVerdict(w, f, k, r).Unmet? <==> Fails(w, f, k, t, c, r))
  {
    hide WorldOk, Acyclic, Nodes, CapGraph, EvidenceOf, EnvelopeOf, FindEnvelope, ResolveDependency, Follows, UniqueValid, Holds, Refuted, PredicateVerdict, CapResult;
    RequirementDescends(w, k, r);
    RequirementIsOk(w, k, r);
    TargetUid(w, k);
    var t := TargetOf(w, k);
    var c := ContractOf(w.contracts, t).value;
    if r.predicate_.Some? {
      PredicateMeaning(f, t, c, r.predicate_.value);
    }
    if r.dependency.Some? {
      FollowsNode(w, t, r.dependency.value);
    }
    if r.localCapability != "" {
      assert CapKey(k.uid, r.localCapability) in RequirementEdge(w, t, r);
    }
    if r.envelope != "" {
      EnvelopeMeaning(f, t, c, FindEnvelope(c, r.envelope).value);
      EnvelopeApart(f, t, c, FindEnvelope(c, r.envelope).value);
    }
  }

  lemma EnvelopeApart(f: Facts, t: Target, c: Contract, env: Envelope)
    ensures !((exists p :: p in env.requirements && Refuted(f, t, c, p)) && forall p :: p in env.requirements ==> Holds(f, t, c, p))
  {
    hide EvidenceOf, FindSlot, Eval;
  }

  // ── what a capability comes to ────────────────────────────────────────────

  lemma ComposedMeaning(rs: seq<Requirement>, vs: seq<Verdict>)
    requires |rs| == |vs|
    requires forall r :: r in rs ==> r.onUnmet == ImpactDegraded || r.onUnmet == ImpactUnavailable
    ensures var s := ComposedState(rs, vs);
      var proven := forall i :: 0 <= i < |vs| ==> !vs[i].Unproven?;
      && (s == Available <==> forall i :: 0 <= i < |vs| ==> vs[i].Accepted?)
      && (s == Degraded <==> (
            && proven && (exists i :: 0 <= i < |vs| && vs[i].Unmet?)
            && forall i :: 0 <= i < |vs| && vs[i].Unmet? ==> rs[i].onUnmet == ImpactDegraded))
      && (s == Unavailable <==> (
            && proven && (exists i :: 0 <= i < |vs| && vs[i].Unmet?)
            && forall i :: 0 <= i < |vs| && vs[i].Unmet? ==> rs[i].onUnmet == ImpactUnavailable))
  {
    forall i | 0 <= i < |vs| ensures rs[i].onUnmet == ImpactDegraded || rs[i].onUnmet == ImpactUnavailable {
      assert rs[i] in rs;
    }
  }

  /** What each state says: AVAILABLE that every requirement is met; DEGRADED
      and UNAVAILABLE that every requirement is decided, some are proven unmet,
      and all of those declare exactly this impact; UNKNOWN whatever remains. */
  lemma StateIsExact(w: World, f: Facts, k: CapKey)
    requires Sane(w) && k in Nodes(w)
    ensures UniqueValid(w, k.uid).Some? && ContractOf(w.contracts, TargetOf(w, k)).Some?
    ensures var t := TargetOf(w, k);
      var c := ContractOf(w.contracts, t).value;
      var rs, s := RequirementsOf(w, k), CapResult(w, f, k).state;
      var decided := forall r :: r in rs ==> Met(w, f, k, t, c, r) || Fails(w, f, k, t, c, r);
      && (s == Available <==> forall r :: r in rs ==> Met(w, f, k, t, c, r))
      && (s == Degraded <==> (
            && decided && (exists r :: r in rs && Fails(w, f, k, t, c, r))
            && forall r :: r in rs && Fails(w, f, k, t, c, r) ==> r.onUnmet == ImpactDegraded))
      && (s == Unavailable <==> (
            && decided && (exists r :: r in rs && Fails(w, f, k, t, c, r))
            && forall r :: r in rs && Fails(w, f, k, t, c, r) ==> r.onUnmet == ImpactUnavailable))
  {
    hide WorldOk, Acyclic, Nodes, CapGraph, RequirementVerdict, Met, Fails, UniqueValid, ContractOf, RequirementsOf, RequirementOk;
    InNodes(w, k);
    OkTarget(w, k.uid);
    var rs := RequirementsOf(w, k);
    var vs := Verdicts(w, f, k, rs);
    var t := TargetOf(w, k);
    var c := ContractOf(w.contracts, t).value;
    forall r | r in rs ensures r.onUnmet == ImpactDegraded || r.onUnmet == ImpactUnavailable {
      RequirementIsOk(w, k, r);
      OnUnmetKnown(c, r);
    }
    ComposedMeaning(rs, vs);
    forall r | r in rs
      ensures RequirementVerdict(w, f, k, r).Accepted? <==> Met(w, f, k, t, c, r)
      ensures RequirementVerdict(w, f, k, r).Unmet? <==> Fails(w, f, k, t, c, r)
    {
      RequirementMeaning(w, f, k, r);
    }
    forall i | 0 <= i < |rs|
      ensures rs[i] in rs && (vs[i].Accepted? <==> Met(w, f, k, t, c, rs[i])) && (vs[i].Unmet? <==> Fails(w, f, k, t, c, rs[i]))
    {
    }
    ResultOf(w, f, k);
    hide ComposedState, Verdicts;
    ByIndex(w, f, k, t, c, rs, vs, ImpactDegraded);
    ByIndex(w, f, k, t, c, rs, vs, ImpactUnavailable);
  }

  lemma ResultOf(w: World, f: Facts, k: CapKey)
    requires Sane(w) && k in Nodes(w)
    ensures UniqueValid(w, k.uid).Some?
    ensures CapResult(w, f, k) == Compose(TypeOf(w, k), RequirementsOf(w, k), Verdicts(w, f, k, RequirementsOf(w, k)))
  {
    hide WorldOk, Acyclic, Nodes, CapGraph, RequirementsOf, ComposedState, Compose, Verdicts, TypeOf, UniqueValid;
    InNodes(w, k);
    OkTarget(w, k.uid);
  }

  lemma ByIndex(w: World, f: Facts, k: CapKey, t: Target, c: Contract, rs: seq<Requirement>, vs: seq<Verdict>, x: Impact)
    requires Sane(w) && |vs| == |rs|
    requires forall i :: 0 <= i < |rs| ==> (vs[i].Accepted? <==> Met(w, f, k, t, c, rs[i])) && (vs[i].Unmet? <==> Fails(w, f, k, t, c, rs[i]))
    ensures (forall i :: 0 <= i < |vs| ==> vs[i].Accepted?) <==> forall r :: r in rs ==> Met(w, f, k, t, c, r)
    ensures (forall i :: 0 <= i < |vs| ==> !vs[i].Unproven?) <==> forall r :: r in rs ==> Met(w, f, k, t, c, r) || Fails(w, f, k, t, c, r)
    ensures (exists i :: 0 <= i < |vs| && vs[i].Unmet?) <==> exists r :: r in rs && Fails(w, f, k, t, c, r)
    ensures (forall i :: 0 <= i < |vs| && vs[i].Unmet? ==> rs[i].onUnmet == x) <==> forall r :: r in rs && Fails(w, f, k, t, c, r) ==> r.onUnmet == x
  {
    hide *;
    forall r | r in rs ensures exists i :: 0 <= i < |rs| && rs[i] == r { }
    forall i | 0 <= i < |rs| ensures rs[i] in rs { }
  }

  // ── for which reasons ─────────────────────────────────────────────────────

  predicate IsUnknown(s: CapabilityState) {
    s == Unknown
  }

  /** Why the predicate is not accepted. */
  ghost predicate PredicateCause(f: Facts, t: Target, c: Contract, p: Predicate, x: Reason) {
    && x.subject == OnAssertion(p.assertion)
    && match FindSlot(c, p.assertion)
       case None => x.code == EvidenceUnproven(Unbound)
       case Some(slot) =>
         var ev := EvidenceOf(f, t, slot);
         if ev.Current? then !Eval(p, ev.value) && x.code == PredicateUnmet else x.code == EvidenceUnproven(ev)
  }

  /** Why the dependency is not accepted. */
  ghost predicate DependencyCause(w: World, f: Facts, t: Target, d: DependencyRequirement, x: Reason)
    requires Sane(w)
  {
    || (x == Reason(DependencyUnbound, OnDependencySlot(d.slot)) && forall b :: b in t.dependencyBindings ==> b.slot != d.slot)
    || exists b :: Binds(t, d.slot, b) && x.subject == OnDependency(d.slot, b.targetUid, d.capability) && BindingCause(w, f, t, d, b, x.code)
  }

  ghost predicate BindingCause(w: World, f: Facts, t: Target, d: DependencyRequirement, b: DependencyBinding, code: ReasonCode)
    requires Sane(w)
  {
    match code
    case DependencyTargetMissing => forall x :: x in w.targets ==> x.identity.uid != b.targetUid
    case DependencyTargetInvalid =>
      && (exists x :: x in w.targets && x.identity.uid == b.targetUid)
      && forall dt :: !OneValid(w, b.targetUid, dt)
    case DependencyContractMismatch => exists dt :: OneValid(w, b.targetUid, dt) && dt.contractRef != b.contract
    case DependencyCapabilityAbsent => exists dt, dc ::
      && OneValid(w, b.targetUid, dt) && dt.contractRef == b.contract && OneContract(w, b.contract, dc)
      && forall cp :: cp in dc.capabilities ==> cp.typ != d.capability
    case DependencyUnknown => LeadsToState(w, f, t, d, IsUnknown)
    case DependencyUnmet => LeadsToState(w, f, t, d, Affected)
    case _ => false
  }

  ghost predicate EnvelopeCause(f: Facts, t: Target, c: Contract, name: string, x: Reason) {
    && x.subject == OnEnvelope(name) && FindEnvelope(c, name).Some?
    && var ps := FindEnvelope(c, name).value.requirements;
       if exists p :: p in ps && Refuted(f, t, c, p) then x.code == EnvelopeUnmet
       else (exists p :: p in ps && !Holds(f, t, c, p)) && x.code == EnvelopeUnknown
  }

  /** Why the requirement is not met. */
  ghost predicate Cause(w: World, f: Facts, k: CapKey, t: Target, c: Contract, r: Requirement, x: Reason)
    requires Sane(w)
  {
    || (r.predicate_.Some? && PredicateCause(f, t, c, r.predicate_.value, x))
    || (r.dependency.Some? && DependencyCause(w, f, t, r.dependency.value, x))
    || (r.localCapability != "" && x == Reason(LocalUnmet, OnLocal(r.localCapability)) && LocalState(w, f, k.uid, r.localCapability, Affected))
    || (r.localCapability != "" && x == Reason(LocalUnknown, OnLocal(r.localCapability)) && LocalState(w, f, k.uid, r.localCapability, IsUnknown))
    || (r.envelope != "" && EnvelopeCause(f, t, c, r.envelope, x))
  }

  lemma PredicateReason(f: Facts, t: Target, c: Contract, p: Predicate, x: Reason)
    ensures var v := PredicateVerdict(f, t, c, p); !v.Accepted? && v.reason == x <==> PredicateCause(f, t, c, p, x)
  {
    hide EvidenceOf, FindSlot, Eval;
  }

  lemma EnvelopeReason(f: Facts, t: Target, c: Contract, name: string, x: Reason)
    requires FindEnvelope(c, name).Some?
    ensures var v := EnvelopeVerdict(EnvelopeOf(f, t, c, FindEnvelope(c, name).value).state, name);
      !v.Accepted? && v.reason == x <==> EnvelopeCause(f, t, c, name, x)
  {
    hide EnvelopeOf, FindEnvelope, Holds, Refuted;
    EnvelopeMeaning(f, t, c, FindEnvelope(c, name).value);
    EnvelopeApart(f, t, c, FindEnvelope(c, name).value);
  }

  /** The reason a dependency that leads nowhere gives. */
  lemma BrokenReason(w: World, f: Facts, t: Target, d: DependencyRequirement, x: Reason)
    requires Sane(w) && !ResolveDependency(w, t, d).LeadsTo?
    ensures BrokenDependency(ResolveDependency(w, t, d), d).reason == x <==> DependencyCause(w, f, t, d, x)
  {
    hide Follows, ResolveDependency, Nodes, WorldOk, Acyclic, Binds, OneValid, OneContract, CapResult;
    BrokenMeaning(w, t, d);
    FollowsNode(w, t, d);
    ValidContracted(w);
    BrokenIsBound(w, t, d);
  }

  lemma ValidContracted(w: World)
    requires Sane(w)
    ensures forall uid, dt :: OneValid(w, uid, dt) ==> exists dc :: OneContract(w, dt.contractRef, dc)
  {
    hide OneValid, OneContract, Acyclic, WorldOk, ContractOf, UniqueValid, Bound;
    forall uid, dt | OneValid(w, uid, dt) ensures exists dc :: OneContract(w, dt.contractRef, dc) {
      OneValidMeaning(w, uid);
      OkTarget(w, uid);
      ValidIsOk(w, uid);
      OneContractMeaning(w, dt);
      assert OneContract(w, dt.contractRef, ContractOf(w.contracts, dt).value);
    }
  }

  lemma ValidIsOk(w: World, uid: string)
    ensures UniqueValid(w, uid).Some? ==> uid in w.ok
  {
  }

  /** At most one binding is the first, and what is broken speaks of it. */
  lemma BrokenIsBound(w: World, t: Target, d: DependencyRequirement)
    ensures var to := ResolveDependency(w, t, d);
      && (forall b, b' :: Binds(t, d.slot, b) && Binds(t, d.slot, b') ==> b == b')
      && (to == NoBinding || exists b :: Binds(t, d.slot, b))
      && (forall b :: Binds(t, d.slot, b) ==> to in {NoTarget(b.targetUid), NoValidTarget(b.targetUid), OtherContract(b.targetUid), NoCapability(b.targetUid)} || to.LeadsTo?)
      && (forall b :: Binds(t, d.slot, b) ==> to != NoBinding)
  {
    hide Binds, UniqueValid, ContractOf, WithUid, FindCapabilityByType;
    BindsMeaning(t, d.slot);
    if DependencyBindingOf(t, d.slot).Some? {
      assert Binds(t, d.slot, DependencyBindingOf(t, d.slot).value);
    }
  }

  /** The reason a followed dependency gives. */
  lemma FollowedReason(w: World, f: Facts, t: Target, d: DependencyRequirement, x: Reason)
    requires Sane(w) && ResolveDependency(w, t, d).LeadsTo? && ResolveDependency(w, t, d).key in Nodes(w)
    ensures var m := ResolveDependency(w, t, d).key;
      var v := DependencyVerdict(CapResult(w, f, m).state, d, m.uid);
      !v.Accepted? && v.reason == x <==> DependencyCause(w, f, t, d, x)
  {
    hide Follows, ResolveDependency, Nodes, WorldOk, Acyclic, Binds, OneValid, OneContract, CapResult;
    BrokenMeaning(w, t, d);
    FollowsNode(w, t, d);
    ValidContracted(w);
    BrokenIsBound(w, t, d);
    LeadsToBound(w, t, d);
  }

  lemma LeadsToBound(w: World, t: Target, d: DependencyRequirement)
    requires ResolveDependency(w, t, d).LeadsTo?
    ensures exists b :: Binds(t, d.slot, b)
    ensures forall b :: Binds(t, d.slot, b) ==> ResolveDependency(w, t, d).key.uid == b.targetUid && exists dt :: OneValid(w, b.targetUid, dt)
  {
    hide Binds, OneValid, OneContract, ResolveDependency;
    DependencyMeaning(w, t, d, ResolveDependency(w, t, d).key);
    BrokenIsBound(w, t, d);
  }

  lemma RequirementReason(w: World, f: Facts, k: CapKey, r: Requirement, x: Reason)
    requires Sane(w) && k in Nodes(w) && r in RequirementsOf(w, k)
    ensures UniqueValid(w, k.uid).Some? && ContractOf(w.contracts, TargetOf(w, k)).Some?
    ensures var v := RequirementVerdict(w, f, k, r);
      !v.Accepted? && v.reason == x <==> Cause(w, f, k, TargetOf(w, k), ContractOf(w.contracts, TargetOf(w, k)).value, r, x)
  {
    hide WorldOk, Acyclic, Nodes, CapGraph, EvidenceOf, EnvelopeOf, FindEnvelope, ResolveDependency, UniqueValid, PredicateVerdict, CapResult,
         PredicateCause, DependencyCause, EnvelopeCause, BrokenDependency, DependencyVerdict, EnvelopeVerdict;
    RequirementDescends(w, k, r);
    RequirementIsOk(w, k, r);
    TargetUid(w, k);
    var t := TargetOf(w, k);
    var c := ContractOf(w.contracts, t).value;
    if r.predicate_.Some? {
      PredicateReason(f, t, c, r.predicate_.value, x);
    }
    if r.dependency.Some? {
      var to := ResolveDependency(w, t, r.dependency.value);
      if to.LeadsTo? {
        FollowsNode(w, t, r.dependency.value);
        FollowedReason(w, f, t, r.dependency.value, x);
      } else {
        BrokenReason(w, f, t, r.dependency.value, x);
        BrokenUnproven(to, r.dependency.value);
      }
    }
    if r.localCapability != "" {
      assert CapKey(k.uid, r.localCapability) in RequirementEdge(w, t, r);
    }
    if r.envelope != "" {
      EnvelopeReason(f, t, c, r.envelope, x);
    }
  }

  lemma BrokenUnproven(to: DependencyTarget, d: DependencyRequirement)
    requires !to.LeadsTo?
    ensures BrokenDependency(to, d).Unproven?
  {
  }

  /** The reasons of a capability: why each requirement is not met, and a
      conflict of impacts exactly when everything is decided and proven
      failures declare different ones. */
  lemma ReasonsAreExact(w: World, f: Facts, k: CapKey, x: Reason)
    requires Sane(w) && k in Nodes(w)
    ensures UniqueValid(w, k.uid).Some? && ContractOf(w.contracts, TargetOf(w, k)).Some?
    ensures var t := TargetOf(w, k);
      var c := ContractOf(w.contracts, t).value;
      var rs := RequirementsOf(w, k);
      x in CapResult(w, f, k).reasons <==>
        || (exists r :: r in rs && Cause(w, f, k, t, c, r, x))
        || (&& x == Reason(ConflictingImpact, OnCapability(TypeOf(w, k)))
            && (forall r :: r in rs ==> Met(w, f, k, t, c, r) || Fails(w, f, k, t, c, r))
            && exists r, q :: r in rs && q in rs && Fails(w, f, k, t, c, r) && Fails(w, f, k, t, c, q) && r.onUnmet != q.onUnmet)
  {
    hide WorldOk, Acyclic, Nodes, CapGraph, RequirementVerdict, Met, Fails, Cause, UniqueValid, ContractOf, RequirementsOf, TypeOf, CapResult, ComposedState;
    InNodes(w, k);
    OkTarget(w, k.uid);
    var t := TargetOf(w, k);
    var c := ContractOf(w.contracts, t).value;
    var rs := RequirementsOf(w, k);
    var vs := Verdicts(w, f, k, rs);
    forall r | r in rs
      ensures RequirementVerdict(w, f, k, r).Accepted? <==> Met(w, f, k, t, c, r)
      ensures RequirementVerdict(w, f, k, r).Unmet? <==> Fails(w, f, k, t, c, r)
      ensures !RequirementVerdict(w, f, k, r).Accepted? && RequirementVerdict(w, f, k, r).reason == x <==> Cause(w, f, k, t, c, r, x)
    {
      RequirementMeaning(w, f, k, r);
      RequirementReason(w, f, k, r, x);
    }
    forall i | 0 <= i < |rs|
      ensures rs[i] in rs && (vs[i].Accepted? <==> Met(w, f, k, t, c, rs[i])) && (vs[i].Unmet? <==> Fails(w, f, k, t, c, rs[i]))
      ensures !vs[i].Accepted? && vs[i].reason == x <==> Cause(w, f, k, t, c, rs[i], x)
    {
    }
    ResultOf(w, f, k);
    hide Verdicts, Compose, ImpactsConflict;
    ComposeReasons(TypeOf(w, k), rs, vs, x);
    ReasonsByIndex(w, f, k, t, c, rs, vs, x);
  }

  ghost predicate ImpactsConflict(rs: seq<Requirement>, vs: seq<Verdict>)
    requires |rs| == |vs|
  {
    && (forall i :: 0 <= i < |vs| ==> !vs[i].Unproven?)
    && exists i, j :: 0 <= i < |vs| && 0 <= j < |vs| && vs[i].Unmet? && vs[j].Unmet? && rs[i].onUnmet != rs[j].onUnmet
  }

  lemma ComposeReasons(typ: CapabilityType, rs: seq<Requirement>, vs: seq<Verdict>, x: Reason)
    requires |rs| == |vs|
    ensures x in Compose(typ, rs, vs).reasons <==>
      || (exists i :: 0 <= i < |vs| && !vs[i].Accepted? && vs[i].reason == x)
      || (x == Reason(ConflictingImpact, OnCapability(typ)) && ImpactsConflict(rs, vs))
  {
    forall i | 0 <= i < |vs| ensures vs[i] in vs { }
    forall v | v in vs ensures exists i :: 0 <= i < |vs| && vs[i] == v { }
  }

  lemma ReasonsByIndex(w: World, f: Facts, k: CapKey, t: Target, c: Contract, rs: seq<Requirement>, vs: seq<Verdict>, x: Reason)
    requires Sane(w) && |vs| == |rs|
    requires forall i :: 0 <= i < |rs| ==> (vs[i].Accepted? <==> Met(w, f, k, t, c, rs[i])) && (vs[i].Unmet? <==> Fails(w, f, k, t, c, rs[i]))
    requires forall i :: 0 <= i < |rs| ==> (!vs[i].Accepted? && vs[i].reason == x <==> Cause(w, f, k, t, c, rs[i], x))
    ensures (exists i :: 0 <= i < |vs| && !vs[i].Accepted? && vs[i].reason == x) <==> exists r :: r in rs && Cause(w, f, k, t, c, r, x)
    ensures ImpactsConflict(rs, vs) <==>
      && (forall r :: r in rs ==> Met(w, f, k, t, c, r) || Fails(w, f, k, t, c, r))
      && exists r, q :: r in rs && q in rs && Fails(w, f, k, t, c, r) && Fails(w, f, k, t, c, q) && r.onUnmet != q.onUnmet
  {
    hide Met, Fails, Cause, WorldOk, Acyclic, CapGraph;
    forall r | r in rs ensures exists i :: 0 <= i < |rs| && rs[i] == r { }
    forall i | 0 <= i < |rs| ensures rs[i] in rs { }
  }
}
