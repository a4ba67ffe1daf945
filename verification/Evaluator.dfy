/** The evaluator with its memo tables (the second half of
    pkg/operations/evaluator.go), proved to compute the memo-free meaning. */
module Evaluator {
  import opened Wrappers
  import opened OpsTypes
  import opened Predicates
  import opened Contracts
  import opened Graphs
  import opened Resolution
  import opened EvidenceRules
  import opened Semantics
  import Tarjan

  /** A slot of a valid target. */
  datatype SlotKey = SlotKey(uid: string, slot: string)

  ghost predicate ValidTarget(w: World, t: Target, c: Contract) {
    UniqueValid(w, t.identity.uid) == Some(t) && ContractOf(w.contracts, t) == Some(c)
  }

  /** Every cached entry is what a fresh computation would give. */
  ghost predicate EvidenceCorrect(w: World, f: Facts, m: map<SlotKey, Evidence>) {
    forall t, c, slot {:trigger ValidTarget(w, t, c), FindSlot(c, slot)} ::
      ValidTarget(w, t, c) && FindSlot(c, slot).Some? && SlotKey(t.identity.uid, slot) in m ==>
        m[SlotKey(t.identity.uid, slot)] == EvidenceOf(f, t, FindSlot(c, slot).value)
  }

  ghost predicate EnvelopesCorrect(w: World, f: Facts, m: map<CapKey, EnvelopeResult>) {
    forall t, c, env {:trigger ValidTarget(w, t, c), FindEnvelope(c, env)} ::
      ValidTarget(w, t, c) && FindEnvelope(c, env).Some? && CapKey(t.identity.uid, env) in m ==>
        m[CapKey(t.identity.uid, env)] == EnvelopeOf(f, t, c, FindEnvelope(c, env).value)
  }

  ghost predicate CapabilitiesCorrect(w: World, f: Facts, m: map<CapKey, CapabilityResult>)
    requires Sane(w)
  {
    forall k {:trigger m[k]} :: k in m ==> k in Nodes(w) && m[k] == CapResult(w, f, k)
  }

  lemma EnvelopeFound(w: World, f: Facts, m: map<CapKey, EnvelopeResult>, t: Target, c: Contract, env: Envelope)
    requires EnvelopesCorrect(w, f, m) && ValidTarget(w, t, c) && FindEnvelope(c, env.name) == Some(env)
    ensures CapKey(t.identity.uid, env.name) in m ==> m[CapKey(t.identity.uid, env.name)] == EnvelopeOf(f, t, c, env)
  {
  }

  lemma EnvelopeStored(w: World, f: Facts, m: map<CapKey, EnvelopeResult>, t: Target, c: Contract, env: Envelope)
    requires EnvelopesCorrect(w, f, m) && ValidTarget(w, t, c) && FindEnvelope(c, env.name) == Some(env)
    ensures EnvelopesCorrect(w, f, m[CapKey(t.identity.uid, env.name) := EnvelopeOf(f, t, c, env)])
  {
    hide EnvelopeOf, FindEnvelope;
  }

  class Evaluator {
    const w: World
    const f: Facts
    var evidence: map<SlotKey, Evidence>
    var envMemo: map<CapKey, EnvelopeResult>
    var capMemo: map<CapKey, CapabilityResult>

    ghost predicate Valid()
      reads this
    {
      Sane(w) && EvidenceCorrect(w, f, evidence) && EnvelopesCorrect(w, f, envMemo) && CapabilitiesCorrect(w, f, capMemo)
    }

    constructor (w: World, f: Facts)
      requires Sane(w)
      ensures Valid() && this.w == w && this.f == f
    {
      this.w, this.f := w, f;
      evidence, envMemo, capMemo := map[], map[], map[];
    }

    method SlotEvidence(t: Target, c: Contract, slot: AssertionSlot) returns (ev: Evidence)
      requires Valid() && ValidTarget(w, t, c) && FindSlot(c, slot.name) == Some(slot)
      modifies this`evidence
      ensures Valid() && ev == EvidenceOf(f, t, slot)
    {
      hide Sane, CapabilitiesCorrect, EnvelopesCorrect, EvidenceOf, FindSlot, CapResult;
      var k := SlotKey(t.identity.uid, slot.name);
      if k in evidence {
        return evidence[k];
      }
      ev := ResolveEvidence(f, t, slot);
      evidence := evidence[k := ev];
    }

    method JudgePredicate(t: Target, c: Contract, p: Predicate) returns (v: Verdict)
      requires Valid() && ValidTarget(w, t, c) && PredicateOk(c, p)
      modifies this`evidence
      ensures Valid() && v == PredicateVerdict(f, t, c, p)
    {
      hide Sane, CapabilitiesCorrect, EnvelopesCorrect, EvidenceCorrect, EvidenceOf, CapResult;
      var slot := FindSlot(c, p.assertion).value;
      var ev := SlotEvidence(t, c, slot);
      v := Judged(ev, p);
    }

    method JudgeEnvelope(t: Target, c: Contract, env: Envelope) returns (r: EnvelopeResult)
      requires Valid() && ValidTarget(w, t, c) && FindEnvelope(c, env.name) == Some(env)
      requires forall p :: p in env.requirements ==> PredicateOk(c, p)
      modifies this`evidence, this`envMemo
      ensures Valid() && r == EnvelopeOf(f, t, c, env)
    {
      hide Sane, CapabilitiesCorrect, EvidenceCorrect, EnvelopesCorrect, PredicateVerdict, FindEnvelope, PredicateOk, CapResult, ValidTarget;
      var k := CapKey(t.identity.uid, env.name);
      if k in envMemo {
        EnvelopeFound(w, f, envMemo, t, c, env);
        return envMemo[k];
      }
      var anyUnmet, anyUnproven, reasons := false, false, {};
      ghost var vs: set<Verdict> := {};
      for i := 0 to |env.requirements|
        invariant Valid() && envMemo == old(envMemo)
        invariant vs == set p | p in env.requirements[..i] :: PredicateVerdict(f, t, c, p)
        invariant anyUnmet <==> exists v :: v in vs && v.Unmet?
        invariant anyUnproven <==> exists v :: v in vs && v.Unproven?
        invariant reasons == ReasonsOf(vs)
      {
        var p := env.requirements[i];
        assert env.requirements[..i + 1] == env.requirements[..i] + [p];
        var v := JudgePredicate(t, c, p);
        AddVerdict(vs, v);
        vs := vs + {v};
        match v
        case Accepted =>
        case Unmet(reason) =>
          anyUnmet := true;
          reasons := reasons + {reason};
        case Unproven(reason) =>
          anyUnproven := true;
          reasons := reasons + {reason};
      }
      assert env.requirements[..|env.requirements|] == env.requirements;
      r := EnvelopeResult(if anyUnmet then Unsatisfied else if anyUnproven then EnvUnknown else Satisfied, reasons);
      EnvelopeStored(w, f, envMemo, t, c, env);
      envMemo := envMemo[k := r];
    }

    method JudgeDependency(k: CapKey, t: Target, c: Contract, r: Requirement) returns (v: Verdict)
      requires Valid() && k in Nodes(w) && r in RequirementsOf(w, k) && ValidTarget(w, t, c) && t.identity.uid == k.uid
      requires r.dependency.Some? && r.predicate_.None?
      modifies this
      ensures Valid() && v == RequirementVerdict(w, f, k, r)
      decreases Below(CapGraph(w), k), 0
    {
      hide WorldOk, Acyclic, Nodes, CapGraph, CapabilitiesCorrect, EnvelopesCorrect, EvidenceCorrect, ResolveDependency, CapResult;
      RequirementDescends(w, k, r);
      RequirementIsOk(w, k, r);
      var to := ResolveDependency(w, t, r.dependency.value);
      if !to.LeadsTo? {
        v := BrokenDependency(to, r.dependency.value);
        return;
      }
      assert to.key in RequirementEdge(w, t, r);
      var cr := Capability(to.key);
      v := DependencyVerdict(cr.state, r.dependency.value, to.key.uid);
    }

    method JudgeRequirement(k: CapKey, t: Target, c: Contract, r: Requirement) returns (v: Verdict)
      requires Valid() && k in Nodes(w) && r in RequirementsOf(w, k) && ValidTarget(w, t, c) && t.identity.uid == k.uid
      requires forall e :: e in c.envelopes ==> EnvelopeOk(c, e) && FindEnvelope(c, e.name) == Some(e)
      modifies this
      ensures Valid() && v == RequirementVerdict(w, f, k, r)
      decreases Below(CapGraph(w), k), 1
    {
      hide WorldOk, Acyclic, Nodes, CapGraph, CapabilitiesCorrect, EnvelopesCorrect, EvidenceCorrect, ResolveDependency, CapResult;
      hide EnvelopeOf, PredicateVerdict;
      RequirementDescends(w, k, r);
      RequirementIsOk(w, k, r);
      if r.predicate_.Some? {
        v := JudgePredicate(t, c, r.predicate_.value);
      } else if r.dependency.Some? {
        v := JudgeDependency(k, t, c, r);
      } else if r.localCapability != "" {
        assert CapKey(k.uid, r.localCapability) in RequirementEdge(w, t, r);
        var cr := Capability(CapKey(k.uid, r.localCapability));
        v := LocalVerdict(cr.state, r.localCapability);
      } else {
        var env := FindEnvelope(c, r.envelope).value;
        assert env in c.envelopes;
        var er := JudgeEnvelope(t, c, env);
        v := EnvelopeVerdict(er.state, r.envelope);
      }
    }

    /** The loop of `capability` over the requirements. */
    method Tally(k: CapKey, t: Target, c: Contract, rs: seq<Requirement>)
      returns (impacts: set<Impact>, anyUnproven: bool, reasons: set<Reason>)
      requires Sane(w) && Valid() && k in Nodes(w) && rs == RequirementsOf(w, k) && ValidTarget(w, t, c) && t.identity.uid == k.uid
      requires forall e :: e in c.envelopes ==> EnvelopeOk(c, e) && FindEnvelope(c, e.name) == Some(e)
      modifies this
      ensures Valid() && Tallied(rs, Verdicts(w, f, k, rs), impacts, anyUnproven, reasons)
      decreases Below(CapGraph(w), k), 2
    {
      hide *;
      ghost var spec := Verdicts(w, f, k, rs);
      impacts, anyUnproven, reasons := {}, false, {};
      TallyNone();
      for i := 0 to |rs|
        invariant Valid()
        invariant Tallied(rs[..i], spec[..i], impacts, anyUnproven, reasons)
      {
        assert rs[i] in rs;
        var v := JudgeRequirement(k, t, c, rs[i]);
        assert spec[..i + 1] == spec[..i] + [v] && rs[..i + 1] == rs[..i] + [rs[i]];
        TallyOne(rs[..i], spec[..i], impacts, anyUnproven, reasons, rs[i], v);
        match v
        case Accepted =>
        case Unmet(reason) =>
          impacts := impacts + {rs[i].onUnmet};
          reasons := reasons + {reason};
        case Unproven(reason) =>
          anyUnproven := true;
          reasons := reasons + {reason};
      }
      assert rs[..|rs|] == rs && spec[..|rs|] == spec;
    }

    /** `capability`: memoised, and equal to the memo-free meaning. */
    method Capability(k: CapKey) returns (r: CapabilityResult)
      requires Valid() && k in Nodes(w)
      modifies this
      ensures Valid() && r == CapResult(w, f, k)
      decreases Below(CapGraph(w), k), 3
    {
      hide WorldOk, Acyclic, Nodes, CapGraph, EnvelopesCorrect, EvidenceCorrect, RequirementVerdict, FindEnvelope, Compose, RequirementsOf;
      hide EnvelopeOk, Tallied, Bound, Resolves;
      if k in capMemo {
        return capMemo[k];
      }
      InNodes(w, k);
      OkTarget(w, k.uid);
      var t := UniqueValid(w, k.uid).value;
      var c := ContractOf(w.contracts, t).value;
      EnvelopesNamed(c, t);
      var rs := RequirementsOf(w, k);
      var impacts, anyUnproven, reasons := Tally(k, t, c, rs);
      r := Finish(TypeOf(w, k), impacts, anyUnproven, reasons);
      TallyComposes(TypeOf(w, k), rs, Verdicts(w, f, k, rs), impacts, anyUnproven, reasons);
      capMemo := capMemo[k := r];
    }

    /** `assess`, for a valid target. */
    method Assess(t: Target, c: Contract) returns (a: TargetAssessment)
      requires Sane(w) && Valid() && ValidTarget(w, t, c) && t.identity.uid in w.ok && Bound(c, t)
      modifies this
      ensures Valid() && a == Assessed(w, f, t, c)
    {
      EnvelopesNamed(c, t);
      LookupUnique(c);
      hide Valid, WorldOk, Acyclic, Nodes, CapGraph, CapResult, FindSlot, FindEnvelope, EnvelopeOk, Resolves, EvidenceOf, ValidTarget;
      hide EnvelopeMap, CapabilityMap;
      var evs := AssessEvidence(t, c);
      var caps := AssessCapabilities(t, c);
      var envs := AssessEnvelopes(t, c);
      a := TargetAssessment(t.identity, t.contractRef, true, {}, t.envelopeSelection, evs, caps, envs);
    }

    method AssessEvidence(t: Target, c: Contract) returns (evs: map<string, Evidence>)
      requires Valid() && ValidTarget(w, t, c)
      requires forall s :: s in c.assertions ==> FindSlot(c, s.name) == Some(s)
      modifies this
      ensures Valid() && evs == EvidenceMap(f, t, c)
    {
      hide *;
      evs := map[];
      for i := 0 to |c.assertions|
        invariant Valid()
        invariant evs == map s | s in c.assertions[..i] :: s.name := EvidenceOf(f, t, FindSlot(c, s.name).value)
      {
        var s := c.assertions[i];
        assert c.assertions[..i + 1] == c.assertions[..i] + [s];
        var ev := SlotEvidence(t, c, s);
        assert FindSlot(c, s.name) == Some(s);
        evs := evs[s.name := ev];
      }
      EvidenceMapWhole(f, t, c);
    }

    method AssessCapabilities(t: Target, c: Contract) returns (caps: map<CapabilityType, CapabilityResult>)
      requires Valid() && ValidTarget(w, t, c) && t.identity.uid in w.ok
      modifies this
      ensures Valid() && caps == CapabilityMap(w, f, t, c)
    {
      hide WorldOk, Acyclic, EnvelopesCorrect, EvidenceCorrect, CapabilitiesCorrect, CapResult, CapGraph;
      caps := map[];
      for i := 0 to |c.capabilities|
        invariant Valid()
        invariant forall cp :: cp in c.capabilities[..i] ==> cp.typ in caps
        invariant forall ty :: ty in caps ==> exists cp :: cp in c.capabilities && cp.typ == ty
        invariant forall ty :: ty in caps ==> CapKey(t.identity.uid, ty.name) in Nodes(w) && caps[ty] == CapResult(w, f, CapKey(t.identity.uid, ty.name))
      {
        var cp := c.capabilities[i];
        assert c.capabilities[..i + 1] == c.capabilities[..i] + [cp];
        assert cp in CapabilitiesOf(w, t.identity.uid);
        var r := Capability(CapKey(t.identity.uid, cp.typ.name));
        caps := caps[cp.typ := r];
      }
      assert c.capabilities[..|c.capabilities|] == c.capabilities;
    }

    method AssessEnvelopes(t: Target, c: Contract) returns (envs: map<string, EnvelopeResult>)
      requires Valid() && ValidTarget(w, t, c)
      requires forall e :: e in c.envelopes ==> EnvelopeOk(c, e) && FindEnvelope(c, e.name) == Some(e)
      modifies this
      ensures Valid() && envs == EnvelopeMap(f, t, c)
    {
      hide WorldOk, Acyclic, EnvelopesCorrect, EvidenceCorrect, CapabilitiesCorrect, CapResult, EnvelopeOf, FindEnvelope, ValidTarget;
      envs := map[];
      for i := 0 to |c.envelopes|
        invariant Valid()
        invariant envs == map e | e in c.envelopes[..i] :: e.name := EnvelopeOf(f, t, c, FindEnvelope(c, e.name).value)
      {
        var e := c.envelopes[i];
        assert c.envelopes[..i + 1] == c.envelopes[..i] + [e];
        var r := JudgeEnvelope(t, c, e);
        envs := envs[e.name := r];
      }
      assert c.envelopes[..|c.envelopes|] == c.envelopes;
    }
  }

  lemma EnvelopesNamed(c: Contract, t: Target)
    requires Bound(c, t)
    ensures forall e :: e in c.envelopes ==> EnvelopeOk(c, e) && FindEnvelope(c, e.name) == Some(e)
  {
    LookupUnique(c);
  }

  lemma AddVerdict(vs: set<Verdict>, v: Verdict)
    ensures ReasonsOf(vs + {v}) == ReasonsOf(vs) + if v.Accepted? then {} else {v.reason}
  {
  }

  // ── the tally of one capability's verdicts ────────────────────────────────

  ghost predicate Tallied(rs: seq<Requirement>, vs: seq<Verdict>, impacts: set<Impact>, anyUnproven: bool, reasons: set<Reason>) {
    && |rs| == |vs|
    && (forall x :: x in impacts <==> exists i :: 0 <= i < |vs| && vs[i].Unmet? && rs[i].onUnmet == x)
    && (anyUnproven <==> exists i :: 0 <= i < |vs| && vs[i].Unproven?)
    && reasons == ReasonsOf(set v | v in vs)
  }

  lemma TallyNone()
    ensures Tallied([], [], {}, false, {})
  {
  }

  lemma TallyOne(rs: seq<Requirement>, vs: seq<Verdict>, impacts: set<Impact>, anyUnproven: bool, reasons: set<Reason>,
                 r: Requirement, v: Verdict)
    requires Tallied(rs, vs, impacts, anyUnproven, reasons)
    ensures Tallied(rs + [r], vs + [v],
              if v.Unmet? then impacts + {r.onUnmet} else impacts, anyUnproven || v.Unproven?,
              if v.Accepted? then reasons else reasons + {v.reason})
  {
    var rs', vs' := rs + [r], vs + [v];
    var impacts' := if v.Unmet? then impacts + {r.onUnmet} else impacts;
    assert (set x | x in vs') == (set x | x in vs) + {v};
    AddVerdict((set x | x in vs), v);
    forall x ensures x in impacts' <==> exists i :: 0 <= i < |vs'| && vs'[i].Unmet? && rs'[i].onUnmet == x {
      if i :| 0 <= i < |vs| && vs[i].Unmet? && rs[i].onUnmet == x {
        assert vs'[i].Unmet? && rs'[i].onUnmet == x;
      }
      if v.Unmet? && x == r.onUnmet {
        assert vs'[|vs|].Unmet? && rs'[|vs|].onUnmet == x;
      }
    }
    if i :| 0 <= i < |vs| && vs[i].Unproven? {
      assert vs'[i].Unproven?;
    }
    assert vs'[|vs|] == v;
  }

  /** The switch that ends `capability`. */
  function Finish(typ: CapabilityType, impacts: set<Impact>, anyUnproven: bool, reasons: set<Reason>): CapabilityResult {
    if anyUnproven then CapabilityResult(Unknown, reasons)
    else if |impacts| > 1 then CapabilityResult(Unknown, reasons + {Reason(ConflictingImpact, OnCapability(typ))})
    else if ImpactDegraded in impacts then CapabilityResult(Degraded, reasons)
    else if ImpactUnavailable in impacts then CapabilityResult(Unavailable, reasons)
    else CapabilityResult(Available, reasons)
  }

  lemma TwoImpacts(impacts: set<Impact>)
    ensures |impacts| > 1 <==> exists x, y :: x in impacts && y in impacts && x != y
  {
    if x, y :| x in impacts && y in impacts && x != y {
      assert {x, y} <= impacts;
      assert impacts == {x, y} + (impacts - {x, y});
      assert |{x, y}| == 2;
    } else if impacts != {} {
      var x :| x in impacts;
      assert impacts == {x};
    }
  }

  lemma TallyComposes(typ: CapabilityType, rs: seq<Requirement>, vs: seq<Verdict>, impacts: set<Impact>, anyUnproven: bool, reasons: set<Reason>)
    requires Tallied(rs, vs, impacts, anyUnproven, reasons)
    ensures Finish(typ, impacts, anyUnproven, reasons) == Compose(typ, rs, vs)
  {
    TwoImpacts(impacts);
    if x, y :| x in impacts && y in impacts && x != y {
      var i :| 0 <= i < |vs| && vs[i].Unmet? && rs[i].onUnmet == x;
      var j :| 0 <= j < |vs| && vs[j].Unmet? && rs[j].onUnmet == y;
      assert rs[i].onUnmet != rs[j].onUnmet;
    }
    if i, j :| 0 <= i < |vs| && 0 <= j < |vs| && vs[i].Unmet? && vs[j].Unmet? && rs[i].onUnmet != rs[j].onUnmet {
      assert rs[i].onUnmet in impacts && rs[j].onUnmet in impacts;
    }
  }

  // ── a whole evaluation ────────────────────────────────────────────────────

  ghost function CapabilityMap(w: World, f: Facts, t: Target, c: Contract): map<CapabilityType, CapabilityResult>
    requires Sane(w) && ValidTarget(w, t, c) && t.identity.uid in w.ok
  {
    map ty | ty in (set cp | cp in c.capabilities :: cp.typ) ::
      TypeInNodes(w, t, c, ty); CapResult(w, f, CapKey(t.identity.uid, ty.name))
  }

  lemma TypeInNodes(w: World, t: Target, c: Contract, ty: CapabilityType)
    requires ValidTarget(w, t, c) && t.identity.uid in w.ok && exists cp :: cp in c.capabilities && cp.typ == ty
    ensures CapKey(t.identity.uid, ty.name) in Nodes(w)
  {
    var cp :| cp in c.capabilities && cp.typ == ty;
    assert cp in CapabilitiesOf(w, t.identity.uid);
  }

  ghost function EvidenceMap(f: Facts, t: Target, c: Contract): map<string, Evidence>
    requires forall s :: s in c.assertions ==> FindSlot(c, s.name) == Some(s)
  {
    map s | s in c.assertions :: s.name := EvidenceOf(f, t, FindSlot(c, s.name).value)
  }

  lemma EvidenceMapWhole(f: Facts, t: Target, c: Contract)
    requires forall s :: s in c.assertions ==> FindSlot(c, s.name) == Some(s)
    ensures EvidenceMap(f, t, c) ==
      map s | s in c.assertions[..|c.assertions|] :: s.name := EvidenceOf(f, t, FindSlot(c, s.name).value)
  {
    hide FindSlot, EvidenceOf;
    assert c.assertions[..|c.assertions|] == c.assertions;
  }

  ghost function EnvelopeMap(f: Facts, t: Target, c: Contract): map<string, EnvelopeResult>
    requires forall e :: e in c.envelopes ==> FindEnvelope(c, e.name) == Some(e)
  {
    map e | e in c.envelopes :: e.name := EnvelopeOf(f, t, c, FindEnvelope(c, e.name).value)
  }

  /** The assessment of a valid target. */
  ghost function Assessed(w: World, f: Facts, t: Target, c: Contract): TargetAssessment
    requires Sane(w) && ValidTarget(w, t, c) && t.identity.uid in w.ok
  {
    OkTarget(w, t.identity.uid);
    LookupUnique(c);
    TargetAssessment(t.identity, t.contractRef, true, {}, t.envelopeSelection,
      EvidenceMap(f, t, c),
      CapabilityMap(w, f, t, c),
      EnvelopeMap(f, t, c))
  }

  /** The targets that resolve, before cycles are looked for. */
  ghost function BaseWorld(targets: seq<Target>, contracts: seq<Contract>): World {
    World(targets, contracts, set t | t in targets && Resolves(targets, contracts, t) :: t.identity.uid)
  }

  /** The valid targets. */
  ghost function FinalWorld(targets: seq<Target>, contracts: seq<Contract>): World {
    Rejected(BaseWorld(targets, contracts))
  }

  lemma ResolvesIsUnique(targets: seq<Target>, contracts: seq<Contract>, t: Target, u: Target)
    requires t in targets && u in targets && t.identity.uid == u.identity.uid && Resolves(targets, contracts, t)
    ensures t == u
  {
    var ts := WithUid(targets, t.identity.uid);
    assert t in ts && u in ts;
  }

  lemma WorldsOk(targets: seq<Target>, contracts: seq<Contract>)
    ensures WorldOk(BaseWorld(targets, contracts)) && Sane(FinalWorld(targets, contracts))
    ensures FinalWorld(targets, contracts).targets == targets && FinalWorld(targets, contracts).contracts == contracts
    ensures forall t :: t in targets && t.identity.uid in FinalWorld(targets, contracts).ok ==>
      UniqueValid(FinalWorld(targets, contracts), t.identity.uid) == Some(t)
  {
    var w := BaseWorld(targets, contracts);
    forall uid | uid in w.ok
      ensures UniqueValid(w, uid).Some? && Resolves(targets, contracts, UniqueValid(w, uid).value)
    {
      var t :| t in targets && Resolves(targets, contracts, t) && t.identity.uid == uid;
      ResolvesIsUnique(targets, contracts, t, UniqueValid(w, uid).value);
    }
    RejectedIsSane(w);
    forall t | t in targets && t.identity.uid in FinalWorld(targets, contracts).ok
      ensures UniqueValid(FinalWorld(targets, contracts), t.identity.uid) == Some(t)
    {
      var v :| v in targets && Resolves(targets, contracts, v) && v.identity.uid == t.identity.uid;
      ResolvesIsUnique(targets, contracts, v, t);
      ResolvesIsUnique(targets, contracts, v, UniqueValid(w, t.identity.uid).value);
    }
  }

  /** a is what the definitions say of target t. */
  ghost predicate Correct(s: Snapshot, t: Target, a: TargetAssessment) {
    var w := FinalWorld(s.targets, s.contracts);
    && a.target == t.identity && a.contract == t.contractRef && a.envelopeSelection == t.envelopeSelection
    && (a.valid <==> t.identity.uid in w.ok)
    && (a.valid <==> a.invalid == {})
    && (a.valid ==> Sane(w) && exists c :: ValidTarget(w, t, c) && a == Assessed(w, s.facts, t, c))
  }

  datatype Outcome = NoEvaluationInstant | Assessment(targets: seq<TargetAssessment>)

  /** The structural reasons of every target, in order. */
  method ResolveTargets(s: Snapshot) returns (invalid: seq<seq<Invalidity>>, ok: set<string>)
    ensures |invalid| == |s.targets|
    ensures forall i :: 0 <= i < |s.targets| ==> (invalid[i] == [] <==> Resolves(s.targets, s.contracts, s.targets[i]))
    ensures World(s.targets, s.contracts, ok) == BaseWorld(s.targets, s.contracts)
  {
    hide Resolves;
    invalid, ok := [], {};
    for i := 0 to |s.targets|
      invariant |invalid| == i
      invariant forall k :: 0 <= k < i ==> (invalid[k] == [] <==> Resolves(s.targets, s.contracts, s.targets[k]))
      invariant ok == set t | t in s.targets[..i] && Resolves(s.targets, s.contracts, t) :: t.identity.uid
    {
      assert s.targets[..i + 1] == s.targets[..i] + [s.targets[i]];
      var bad := ResolveTarget(s.targets, s.contracts, s.targets[i]);
      invalid := invalid + [bad];
      if bad == [] {
        ok := ok + {s.targets[i].identity.uid};
      }
    }
    assert s.targets[..|s.targets|] == s.targets;
  }

  /** The nodes of the capability graph, target by target. */
  method NodeList(w: World) returns (nodes: seq<CapKey>)
    ensures forall k :: k in nodes <==> k in Nodes(w)
  {
    hide CapabilitiesOf;
    nodes := [];
    var left := w.ok;
    while left != {}
      invariant left <= w.ok
      invariant forall k :: k in nodes <==> exists uid, cp :: uid in w.ok - left && cp in CapabilitiesOf(w, uid) && k == CapKey(uid, cp.typ.name)
    {
      var uid :| uid in left;
      nodes := nodes + Named(uid, CapabilitiesOf(w, uid));
      left := left - {uid};
    }
  }

  function Named(uid: string, cps: seq<Capability>): (nodes: seq<CapKey>)
    ensures forall k :: k in nodes <==> exists cp :: cp in cps && k == CapKey(uid, cp.typ.name)
  {
    if cps == [] then [] else [CapKey(uid, cps[0].typ.name)] + Named(uid, cps[1..])
  }

  /** `Evaluate`. order is the order the targets are assessed and reported in;
      no result depends on it. */
  method Evaluate(s: Snapshot, order: seq<nat>) returns (out: Outcome)
    requires forall i :: 0 <= i < |order| ==> order[i] < |s.targets|
    ensures s.facts.at == 0 <==> out == NoEvaluationInstant
    ensures out.Assessment? ==> |out.targets| == |order|
    ensures out.Assessment? ==> forall i :: 0 <= i < |order| ==> Correct(s, s.targets[order[i]], out.targets[i])
  {
    hide Nodes, Resolves, Sane, WorldOk, Tarjan.IsComponent, Tarjan.Listed, OnCycle, CapGraph, Rejected, ValidTarget, Assessed, UniqueValid;
    if s.facts.at == 0 {
      return NoEvaluationInstant;
    }
    WorldsOk(s.targets, s.contracts);
    var invalid, base := ResolveTargets(s);
    var nodes := NodeList(World(s.targets, s.contracts, base));
    var cyclic, ok := RejectCycles(World(s.targets, s.contracts, base), nodes);
    var w := World(s.targets, s.contracts, ok);
    assert w == FinalWorld(s.targets, s.contracts);
    var e := new Evaluator(w, s.facts);
    var list: seq<TargetAssessment> := [];
    for i := 0 to |order|
      invariant e.Valid() && e.w == w && e.f == s.facts && fresh(e)
      invariant |list| == i
      invariant forall k :: 0 <= k < i ==> Correct(s, s.targets[order[k]], list[k])
    {
      if invalid[order[i]] == [] {
        InBase(s, s.targets[order[i]]);
      }
      var a := AssessOne(e, s, s.targets[order[i]], invalid[order[i]], cyclic);
      list := list + [a];
    }
    out := Assessment(list);
  }

  lemma InBase(s: Snapshot, t: Target)
    requires t in s.targets && Resolves(s.targets, s.contracts, t)
    ensures t.identity.uid in BaseWorld(s.targets, s.contracts).ok
  {
  }

  method AssessOne(e: Evaluator, s: Snapshot, t: Target, bad: seq<Invalidity>, cyclic: seq<seq<CapKey>>) returns (a: TargetAssessment)
    requires e.Valid() && e.w == FinalWorld(s.targets, s.contracts) && e.f == s.facts && t in s.targets
    requires bad == [] <==> Resolves(s.targets, s.contracts, t)
    requires bad == [] && t.identity.uid !in e.w.ok ==> exists scc :: scc in cyclic && Owns(scc, t.identity.uid)
    modifies e
    ensures e.Valid() && Correct(s, t, a)
  {
    hide Nodes, Resolves, Acyclic, WorldOk, OnCycle, CapGraph, EvidenceCorrect, CapabilitiesCorrect, EnvelopesCorrect;
    WorldsOk(s.targets, s.contracts);
    if t.identity.uid in e.w.ok {
      OkTarget(e.w, t.identity.uid);
      a := e.Assess(t, ContractOf(e.w.contracts, t).value);
    } else {
      // The structural reasons, and one reason per reported component the target has a part in.
      var reasons := (set r | r in bad) + (set scc | scc in cyclic && Owns(scc, t.identity.uid) :: DependencyCycle(OwnNames(scc, t.identity.uid)));
      if bad == [] {
        var scc :| scc in cyclic && Owns(scc, t.identity.uid);
        assert DependencyCycle(OwnNames(scc, t.identity.uid)) in reasons;
      }
      assert bad != [] ==> bad[0] in reasons;
      a := TargetAssessment(t.identity, t.contractRef, false, reasons, t.envelopeSelection, map[], map[], map[]);
    }
  }

  function OwnNames(scc: seq<CapKey>, uid: string): seq<string> {
    if scc == [] then [] else (if scc[0].uid == uid then [scc[0].name] else []) + OwnNames(scc[1..], uid)
  }
}
