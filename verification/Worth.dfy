/** What is worth asking a provider: exactly the unasked slots without current
    evidence that something undecided reads, and the read ones about to expire. */
module Worth {
  import opened Wrappers
  import opened OpsTypes
  import opened Contracts
  import opened Graphs
  import opened Resolution
  import opened EvidenceRules
  import opened Semantics
  import Evaluator
  import opened Candidates
  import opened Cache
  import opened Conclusions
  import opened Scheduling
  import opened States

  /** A requirement of the contract reads the slot, itself or through its envelope. */
  ghost predicate ReadBy(c: Contract, r: Requirement, s: string) {
    || (r.predicate_.Some? && r.predicate_.value.assertion == s)
    || (r.envelope != "" && EnvelopeReads(c, r.envelope, s))
  }

  ghost predicate EnvelopeReads(c: Contract, name: string, s: string) {
    exists e, p :: e in c.envelopes && e.name == name && p in e.requirements && p.assertion == s
  }

  /** A capability that is not AVAILABLE, or the selected envelope that is not
      satisfied, reads the slot. */
  ghost predicate Matters(w: World, f: Facts, t: Target, c: Contract, s: string)
    requires Sane(w)
  {
    || (exists cp, r :: && cp in c.capabilities && r in cp.requirements && ReadBy(c, r, s)
                        && CapKey(t.identity.uid, cp.typ.name) in Nodes(w) && CapResult(w, f, CapKey(t.identity.uid, cp.typ.name)).state != Available)
    || (t.envelopeSelection != "" && exists e, p ::
          e in c.envelopes && e.name == t.envelopeSelection && EnvelopeOf(f, t, c, e).state != Satisfied && p in e.requirements && p.assertion == s)
  }

  ghost predicate OpenAbout(ta: TargetAssessment, c: Contract, s: string) {
    exists x :: IsCandidate(ta, c, x) && x.status == Open && x.id.Names() == Input(OfAssertion, s)
  }

  lemma EnvelopeReadsMeans(c: Contract, name: string, s: string)
    requires WellFormed(c)
    ensures EnvelopeReads(c, name, s) <==> exists p :: p in EnvelopePredicates(c, name) && p.assertion == s
  {
    hide Acyclic, LocalGraph, CapabilitiesOk, SlotsOk;
    LookupUnique(c);
    var e := FindEnvelope(c, name);
    if e.Some? {
      assert e.value in c.envelopes && e.value.name == name;
    }
  }

  /** A predicate on a slot without current evidence is unproven. */
  lemma NotCurrentUnproven(f: Facts, t: Target, c: Contract, p: Predicate)
    requires WellFormed(c) && PredicateOk(c, p)
    requires forall s :: s in c.assertions ==> FindSlot(c, s.name) == Some(s)
    ensures var evs := Evaluator.EvidenceMap(f, t, c);
      !(p.assertion in evs && evs[p.assertion].Current?) ==> PredicateVerdict(f, t, c, p).Unproven?
  {
    hide EvidenceOf, WellFormed;
    var slot := FindSlot(c, p.assertion).value;
    assert slot in c.assertions && slot.name == p.assertion;
  }

  lemma OpenMatters(w: World, f: Facts, t: Target, c: Contract, s: string)
    requires Sane(w) && Evaluator.ValidTarget(w, t, c) && t.identity.uid in w.ok
    requires OpenAbout(Evaluator.Assessed(w, f, t, c), c, s)
    ensures Matters(w, f, t, c, s)
  {
    hide CapResult, EnvelopeOf, Nodes, WorldOk, Acyclic, StatusFrom, Evaluator.EvidenceMap, WellFormed, FindCapabilityByType, FindEnvelope;
    var ta := Evaluator.Assessed(w, f, t, c);
    OkTarget(w, t.identity.uid);
    LookupUnique(c);
    var x :| IsCandidate(ta, c, x) && x.status == Open && x.id.Names() == Input(OfAssertion, s);
    if ty :| FromCapability(ta, c, ty, x) {
      Evaluator.TypeInNodes(w, t, c, ty);
      var cp := FindCapabilityByType(c, ty).value;
      DeclaredIs(c, ty);
      var r :| r in cp.requirements && FromRequirement(ta, c, ty, r, x);
      ReadFrom(ta, c, ty, r, x, s);
    } else {
      SelectedReads(w, f, t, c, x, s);
    }
  }

  lemma DeclaredIs(c: Contract, ty: CapabilityType)
    requires FindCapabilityByType(c, ty).Some?
    ensures FindCapabilityByType(c, ty).value in c.capabilities && FindCapabilityByType(c, ty).value.typ == ty
  {
  }

  lemma ReadFrom(ta: TargetAssessment, c: Contract, ty: CapabilityType, r: Requirement, x: Candidate, s: string)
    requires WellFormed(c) && ty in ta.capabilities && FromRequirement(ta, c, ty, r, x) && x.id.Names() == Input(OfAssertion, s)
    ensures ReadBy(c, r, s)
  {
    hide WellFormed, StatusFrom, EnvelopePredicates, EnvelopeReads;
    if InputOf(r).kind == OfEnvelope {
      EnvelopeReadsMeans(c, InputOf(r).ref, s);
    }
  }

  lemma SelectedReads(w: World, f: Facts, t: Target, c: Contract, x: Candidate, s: string)
    requires Sane(w) && Evaluator.ValidTarget(w, t, c) && t.identity.uid in w.ok
    requires FromSelection(Evaluator.Assessed(w, f, t, c), c, x) && x.id.Names() == Input(OfAssertion, s)
    ensures Matters(w, f, t, c, s)
  {
    hide CapResult, EnvelopeOf, Nodes, WorldOk, Acyclic, StatusFrom, Evaluator.EvidenceMap, Evaluator.CapabilityMap, WellFormed, FindEnvelope;
    OkTarget(w, t.identity.uid);
    LookupUnique(c);
    var sel := t.envelopeSelection;
    FoundEnvelope(c, sel);
    var p :| p in EnvelopePredicates(c, sel) && x.id == SelectedInput(sel, p.assertion);
    var e := FindEnvelope(c, sel).value;
    assert e in c.envelopes && e.name == sel && p in e.requirements && p.assertion == s;
  }

  lemma MattersOpen(w: World, f: Facts, t: Target, c: Contract, s: string)
    requires Sane(w) && Evaluator.ValidTarget(w, t, c) && t.identity.uid in w.ok
    requires Matters(w, f, t, c, s) && !HasCurrent(Evaluator.Assessed(w, f, t, c), s)
    ensures OpenAbout(Evaluator.Assessed(w, f, t, c), c, s)
  {
    hide CapResult, EnvelopeOf, Nodes, WorldOk, Acyclic, StatusFrom, WellFormed, FindEnvelope, OpenAbout, ReadBy;
    if cp, r :| && cp in c.capabilities && r in cp.requirements && ReadBy(c, r, s)
                && CapKey(t.identity.uid, cp.typ.name) in Nodes(w) && CapResult(w, f, CapKey(t.identity.uid, cp.typ.name)).state != Available {
      ReadOpen(w, f, t, c, s, cp, r);
    } else {
      var e, p :| e in c.envelopes && e.name == t.envelopeSelection && EnvelopeOf(f, t, c, e).state != Satisfied && p in e.requirements && p.assertion == s;
      SelectedOpen(w, f, t, c, s, e, p);
    }
  }

  /** An unproven predicate of an envelope keeps its hypothesis open. */
  lemma EnvelopeOpen(f: Facts, t: Target, c: Contract, e: Envelope, p: Predicate)
    requires p in e.requirements && PredicateVerdict(f, t, c, p).Unproven?
    ensures StatusFrom(EnvelopeOf(f, t, c, e).reasons, Input(OfAssertion, p.assertion)) == Open
  {
    hide PredicateVerdict, StatusFrom;
    PredicateIsAbout(f, t, c, p);
    var vs := set q | q in e.requirements :: PredicateVerdict(f, t, c, q);
    assert PredicateVerdict(f, t, c, p) in vs;
    StatusIsOpen(EnvelopeOf(f, t, c, e).reasons, PredicateVerdict(f, t, c, p).reason, Input(OfAssertion, p.assertion));
  }

  lemma EnvelopeIsOk(c: Contract, e: Envelope, p: Predicate)
    requires WellFormed(c) && e in c.envelopes && p in e.requirements
    ensures PredicateOk(c, p)
  {
    hide Acyclic, LocalGraph, CapabilitiesOk, SlotsOk;
    assert EnvelopeOk(c, e);
  }

  lemma RequirementFits(c: Contract, cp: Capability, r: Requirement)
    requires WellFormed(c) && cp in c.capabilities && r in cp.requirements
    ensures RequirementOk(c, r)
  {
    hide Acyclic, LocalGraph, EnvelopesOk, SlotsOk, RequirementOk;
    assert CapabilityOk(c, cp);
  }

  lemma SelectedOpen(w: World, f: Facts, t: Target, c: Contract, s: string, e: Envelope, p: Predicate)
    requires Sane(w) && Evaluator.ValidTarget(w, t, c) && t.identity.uid in w.ok && !HasCurrent(Evaluator.Assessed(w, f, t, c), s)
    requires t.envelopeSelection != "" && e in c.envelopes && e.name == t.envelopeSelection && EnvelopeOf(f, t, c, e).state != Satisfied
    requires p in e.requirements && p.assertion == s
    ensures OpenAbout(Evaluator.Assessed(w, f, t, c), c, s)
  {
    hide CapResult, EnvelopeOf, Nodes, WorldOk, Acyclic, StatusFrom, Evaluator.EvidenceMap, Evaluator.CapabilityMap, WellFormed, PredicateVerdict, PredicateOk, FindSlot, FindEnvelope;
    var ta := Evaluator.Assessed(w, f, t, c);
    OkTarget(w, t.identity.uid);
    LookupUnique(c);
    EnvelopeIsOk(c, e, p);
    NotCurrentUnproven(f, t, c, p);
    EnvelopeOpen(f, t, c, e, p);
    assert p in EnvelopePredicates(c, e.name);
    var x := Candidate(SelectedInput(e.name, s), StatusFrom(ta.envelopes[e.name].reasons, Input(OfAssertion, s)));
    assert FromSelection(ta, c, x);
    assert IsCandidate(ta, c, x);
  }

  lemma ReadOpen(w: World, f: Facts, t: Target, c: Contract, s: string, cp: Capability, r: Requirement)
    requires Sane(w) && Evaluator.ValidTarget(w, t, c) && t.identity.uid in w.ok && !HasCurrent(Evaluator.Assessed(w, f, t, c), s)
    requires cp in c.capabilities && r in cp.requirements && ReadBy(c, r, s)
    requires CapKey(t.identity.uid, cp.typ.name) in Nodes(w) && CapResult(w, f, CapKey(t.identity.uid, cp.typ.name)).state != Available
    ensures OpenAbout(Evaluator.Assessed(w, f, t, c), c, s)
  {
    hide CapResult, EnvelopeOf, Nodes, WorldOk, Acyclic, StatusFrom, Evaluator.EvidenceMap, Evaluator.EnvelopeMap, WellFormed, PredicateVerdict, PredicateOk,
         FindSlot, FindEnvelope, FindCapabilityByType, EnvelopePredicates, IsCandidate;
    var ta := Evaluator.Assessed(w, f, t, c);
    OkTarget(w, t.identity.uid);
    LookupUnique(c);
    RequirementFits(c, cp, r);
    var ty := cp.typ;
    if r.predicate_.Some? && r.predicate_.value.assertion == s {
      NotCurrentUnproven(f, t, c, r.predicate_.value);
      PredicateOpen(w, f, t, c, cp, r);
      var x := Candidate(CapabilityInput(ty, InputOf(r)), StatusFrom(ta.capabilities[ty].reasons, InputOf(r)));
      assert FromRequirement(ta, c, ty, r, x);
      CapabilityCandidate(ta, c, ty, r, x);
    } else {
      EnvelopeInputOpen(w, f, t, c, s, cp, r);
    }
  }

  lemma CapabilityCandidate(ta: TargetAssessment, c: Contract, ty: CapabilityType, r: Requirement, x: Candidate)
    requires ty in ta.capabilities && ta.capabilities[ty].state != Available && FindCapabilityByType(c, ty).Some?
    requires r in FindCapabilityByType(c, ty).value.requirements && FromRequirement(ta, c, ty, r, x)
    ensures IsCandidate(ta, c, x)
  {
    hide FromRequirement, FindCapabilityByType;
    assert FromCapability(ta, c, ty, x);
  }

  /** The unproven predicate of a requirement keeps its hypothesis open. */
  lemma PredicateOpen(w: World, f: Facts, t: Target, c: Contract, cp: Capability, r: Requirement)
    requires Sane(w) && Evaluator.ValidTarget(w, t, c) && t.identity.uid in w.ok && cp in c.capabilities && r in cp.requirements
    requires r.predicate_.Some? && PredicateVerdict(f, t, c, r.predicate_.value).Unproven? && CapKey(t.identity.uid, cp.typ.name) in Nodes(w)
    ensures StatusFrom(CapResult(w, f, CapKey(t.identity.uid, cp.typ.name)).reasons, InputOf(r)) == Open
  {
    hide Nodes, WorldOk, Acyclic, StatusFrom, WellFormed, PredicateVerdict, RequirementVerdict, Compose, TypeOf, About, UnmetCode, CapGraph;
    var k := CapKey(t.identity.uid, cp.typ.name);
    OkTarget(w, k.uid);
    InNodes(w, k);
    LookupUnique(c);
    var rs := RequirementsOf(w, k);
    assert rs == cp.requirements;
    var vs := Verdicts(w, f, k, rs);
    ComposeKeeps(TypeOf(w, k), rs, vs);
    var i :| 0 <= i < |rs| && rs[i] == r;
    ByPredicate(w, f, k, r, t, c);
    assert vs[i] in vs;
    VerdictIsAbout(w, f, k, r);
    StatusIsOpen(CapResult(w, f, k).reasons, vs[i].reason, InputOf(r));
  }

  lemma ByPredicate(w: World, f: Facts, k: CapKey, r: Requirement, t: Target, c: Contract)
    requires Sane(w) && k in Nodes(w) && r in RequirementsOf(w, k) && r.predicate_.Some?
    requires UniqueValid(w, k.uid) == Some(t) && ContractOf(w.contracts, t) == Some(c)
    ensures RequirementVerdict(w, f, k, r) == PredicateVerdict(f, t, c, r.predicate_.value)
  {
    hide Nodes, WorldOk, Acyclic, CapGraph, PredicateVerdict, CapResult, UniqueValid, ContractOf, RequirementsOf;
    RequirementDescends(w, k, r);
    RequirementIsOk(w, k, r);
  }

  lemma EnvelopeInputOpen(w: World, f: Facts, t: Target, c: Contract, s: string, cp: Capability, r: Requirement)
    requires Sane(w) && Evaluator.ValidTarget(w, t, c) && t.identity.uid in w.ok && !HasCurrent(Evaluator.Assessed(w, f, t, c), s)
    requires cp in c.capabilities && r in cp.requirements && RequirementOk(c, r) && r.envelope != "" && EnvelopeReads(c, r.envelope, s)
    requires CapKey(t.identity.uid, cp.typ.name) in Nodes(w) && CapResult(w, f, CapKey(t.identity.uid, cp.typ.name)).state != Available
    ensures OpenAbout(Evaluator.Assessed(w, f, t, c), c, s)
  {
    hide CapResult, EnvelopeOf, Nodes, WorldOk, Acyclic, StatusFrom, Evaluator.EvidenceMap, WellFormed, PredicateVerdict, PredicateOk,
         FindSlot, FindEnvelope, FindCapabilityByType, IsCandidate;
    var ta := Evaluator.Assessed(w, f, t, c);
    OkTarget(w, t.identity.uid);
    LookupUnique(c);
    var ty := cp.typ;
    var e, p :| e in c.envelopes && e.name == r.envelope && p in e.requirements && p.assertion == s;
    EnvelopeIsOk(c, e, p);
    NotCurrentUnproven(f, t, c, p);
    EnvelopeOpen(f, t, c, e, p);
    assert InputOf(r) == Input(OfEnvelope, r.envelope);
    var x := Candidate(EnvelopeInput(ty, e.name, s), StatusFrom(EnvelopeReasons(ta, e.name), Input(OfAssertion, s)));
    assert p in EnvelopePredicates(c, e.name);
    assert FromPredicates(ta, c, ty, e.name, x);
    CapabilityCandidate(ta, c, ty, r, x);
  }

  // ── what a hypothesis says ────────────────────────────────────────────────

  /** The reason a requirement is not met is about its own input and no other. */
  lemma VerdictSubject(w: World, f: Facts, k: CapKey, r: Requirement)
    requires Sane(w) && k in Nodes(w) && r in RequirementsOf(w, k)
    ensures var v := RequirementVerdict(w, f, k, r);
      && (!v.Accepted? ==> forall i :: About(v.reason.subject, i) <==> i == InputOf(r))
      && (v.Unproven? ==> !UnmetCode(v.reason.code)) && (v.Unmet? ==> UnmetCode(v.reason.code))
  {
    hide CapResult, EnvelopeOf, EvidenceOf, Nodes, WorldOk, Acyclic, RequirementsOf, CapGraph;
    RequirementDescends(w, k, r);
    RequirementIsOk(w, k, r);
  }

  /** The status of a requirement's hypothesis: open while some requirement on
      the same input is neither met nor proven unmet, else maintained while one
      is proven unmet, and refuted when all are met. */
  lemma HypothesisMeaning(w: World, f: Facts, k: CapKey, r: Requirement)
    requires Sane(w) && k in Nodes(w) && r in RequirementsOf(w, k)
    ensures UniqueValid(w, k.uid).Some? && ContractOf(w.contracts, TargetOf(w, k)).Some?
    ensures var t := TargetOf(w, k);
      var c := ContractOf(w.contracts, t).value;
      var rs, st := RequirementsOf(w, k), StatusFrom(CapResult(w, f, k).reasons, InputOf(r));
      var open := exists q :: q in rs && InputOf(q) == InputOf(r) && !Met(w, f, k, t, c, q) && !Fails(w, f, k, t, c, q);
      && (st == Open <==> open)
      && (st == Maintained <==> !open && exists q :: q in rs && InputOf(q) == InputOf(r) && Fails(w, f, k, t, c, q))
      && (st == Status.Refuted <==> forall q :: q in rs && InputOf(q) == InputOf(r) ==> Met(w, f, k, t, c, q))
  {
    hide WorldOk, Acyclic, Nodes, CapGraph, RequirementVerdict, Met, Fails, UniqueValid, ContractOf, RequirementsOf, TypeOf, CapResult, About, UnmetCode, InputOf;
    InNodes(w, k);
    OkTarget(w, k.uid);
    var rs := RequirementsOf(w, k);
    var vs := Verdicts(w, f, k, rs);
    var t := TargetOf(w, k);
    var c := ContractOf(w.contracts, t).value;
    forall q | q in rs
      ensures RequirementVerdict(w, f, k, q).Accepted? <==> Met(w, f, k, t, c, q)
      ensures RequirementVerdict(w, f, k, q).Unmet? <==> Fails(w, f, k, t, c, q)
    {
      RequirementMeaning(w, f, k, q);
    }
    forall i | 0 <= i < |rs|
      ensures rs[i] in rs && (!vs[i].Accepted? ==> forall j :: About(vs[i].reason.subject, j) <==> j == InputOf(rs[i]))
      ensures (vs[i].Unproven? ==> !UnmetCode(vs[i].reason.code)) && (vs[i].Unmet? ==> UnmetCode(vs[i].reason.code))
    {
      VerdictSubject(w, f, k, rs[i]);
    }
    ResultOf(w, f, k);
    ComposeKeeps(TypeOf(w, k), rs, vs);
    NotAboutConflicts(TypeOf(w, k), InputOf(r));
    hide Compose, Verdicts;
    ByVerdicts(w, f, k, rs, vs, CapResult(w, f, k).reasons, TypeOf(w, k), InputOf(r));
  }

  lemma NotAboutConflicts(ty: CapabilityType, i: Input)
    ensures !About(OnCapability(ty), i)
  {
  }

  lemma ByVerdicts(w: World, f: Facts, k: CapKey, rs: seq<Requirement>, vs: seq<Verdict>, reasons: set<Reason>, ty: CapabilityType, i: Input)
    requires |vs| == |rs| && !About(OnCapability(ty), i)
    requires forall v :: v in vs && !v.Accepted? ==> v.reason in reasons
    requires forall x :: x in reasons ==> x == Reason(ConflictingImpact, OnCapability(ty)) || exists v :: v in vs && !v.Accepted? && x == v.reason
    requires forall n :: 0 <= n < |rs| ==>
      && (!vs[n].Accepted? ==> forall j :: About(vs[n].reason.subject, j) <==> j == InputOf(rs[n]))
      && (vs[n].Unproven? ==> !UnmetCode(vs[n].reason.code)) && (vs[n].Unmet? ==> UnmetCode(vs[n].reason.code))
    ensures var st := StatusFrom(reasons, i);
      var open := exists n :: 0 <= n < |rs| && InputOf(rs[n]) == i && vs[n].Unproven?;
      && (st == Open <==> open)
      && (st == Maintained <==> !open && exists n :: 0 <= n < |rs| && InputOf(rs[n]) == i && vs[n].Unmet?)
  {
    hide About, UnmetCode, InputOf;
    forall n | 0 <= n < |rs| ensures vs[n] in vs { }
    forall v | v in vs ensures exists n :: 0 <= n < |vs| && vs[n] == v { }
  }

  // ── the two reasons to ask ────────────────────────────────────────────────

  /** The slot has current evidence. */
  ghost predicate Known(f: Facts, t: Target, c: Contract, s: string) {
    exists slot :: slot in c.assertions && slot.name == s && EvidenceOf(f, t, slot).Current?
  }

  lemma CurrentIsKnown(f: Facts, t: Target, c: Contract, s: string)
    requires forall slot :: slot in c.assertions ==> FindSlot(c, slot.name) == Some(slot)
    ensures var evs := Evaluator.EvidenceMap(f, t, c); s in evs && evs[s].Current? <==> Known(f, t, c, s)
  {
    hide EvidenceOf, FindSlot;
  }

  /** What a view shows: the one valid target, its contract, and its assessment on what is held. */
  ghost predicate Shows(base: Snapshot, held: Table, at: Time, uid: string, ta: TargetAssessment, c: Contract, f: Facts, t: Target) {
    var w := Evaluator.FinalWorld(base.targets, base.contracts);
    && f.at == at && Members(f.observations) == AllHeld(held)
    && Sane(w) && Evaluator.ValidTarget(w, t, c) && t.identity.uid == uid && uid in w.ok
    && ta == Evaluator.Assessed(w, f, t, c)
  }

  lemma ViewShows(base: Snapshot, held: Table, at: Time, uid: string, ta: TargetAssessment, c: Contract) returns (f: Facts, t: Target)
    requires View(base, held, at, uid, ta, c)
    ensures Shows(base, held, at, uid, ta, c, f, t)
  {
    hide Evaluator.FinalWorld, Evaluator.Assessed, Sane, Resolution.ContractOf, ContractWith, AllHeld;
    var os, t' :| AssessesOn(base, AllHeld(held), at, uid, ta, os, t');
    f, t := Facts(at, os), t';
    var w := Evaluator.FinalWorld(base.targets, base.contracts);
    Evaluator.WorldsOk(base.targets, base.contracts);
    OnlyContract(base.contracts, t);
    var c' :| Evaluator.ValidTarget(w, t, c') && ta == Evaluator.Assessed(w, f, t, c');
    FinalContracts(base);
  }

  lemma FinalContracts(base: Snapshot)
    ensures Evaluator.FinalWorld(base.targets, base.contracts).contracts == base.contracts
    ensures Evaluator.FinalWorld(base.targets, base.contracts).targets == base.targets
  {
    hide Resolves, OwnsCycle;
  }

  /** A slot is useful to ask exactly when it can be asked, was not, has no
      current evidence, and something that is not yet settled reads it. */
  lemma UsefulIsExact(base: Snapshot, held: Table, at: Time, uid: string, ta: TargetAssessment, c: Contract, cands: set<Candidate>,
                      slots: map<string, Query>, spent: set<string>, s: string, f: Facts, t: Target)
    requires Shows(base, held, at, uid, ta, c, f, t) && Hypotheses(ta, c, cands)
    ensures Useful(ta, cands, slots, spent, s) <==>
      && s in slots && s !in spent && !Known(f, t, c, s)
      && Matters(Evaluator.FinalWorld(base.targets, base.contracts), f, t, c, s)
  {
    hide Evaluator.FinalWorld, Sane, Known, Matters, OpenAbout, WellFormed, FindSlot, Evaluator.EvidenceMap, Evaluator.EnvelopeMap, Evaluator.CapabilityMap;
    var w := Evaluator.FinalWorld(base.targets, base.contracts);
    SaneWorld(w, t, c);
    LookupUnique(c);
    CurrentIsKnown(f, t, c, s);
    OpenIsAbout(ta, c, cands, s);
    if OpenAbout(ta, c, s) {
      OpenMatters(w, f, t, c, s);
    } else if !HasCurrent(ta, s) && Matters(w, f, t, c, s) {
      MattersOpen(w, f, t, c, s);
    }
  }

  lemma SaneWorld(w: World, t: Target, c: Contract)
    requires Sane(w) && Evaluator.ValidTarget(w, t, c) && t.identity.uid in w.ok
    ensures WellFormed(c)
  {
    hide WellFormed, Acyclic;
    OkTarget(w, t.identity.uid);
  }

  lemma OpenIsAbout(ta: TargetAssessment, c: Contract, cands: set<Candidate>, s: string)
    requires Hypotheses(ta, c, cands)
    ensures OpenOn(cands, s) != {} <==> OpenAbout(ta, c, s)
  {
    hide IsCandidate;
    if OpenAbout(ta, c, s) {
      var x :| IsCandidate(ta, c, x) && x.status == Open && x.id.Names() == Input(OfAssertion, s);
      assert x in OpenOn(cands, s);
    }
  }

  /** A slot is due for refresh exactly when it can be asked, was not, has
      current evidence that a requirement or the selected envelope reads, and
      the value held comes within the margin of either bound. */
  lemma RefreshIsExact(held: Table, margin: Duration -> Duration, ta: TargetAssessment, c: Contract, slots: map<string, Query>,
                       spent: set<string>, now: Time, s: string)
    ensures Refreshable(held, margin, ta, c, slots, spent, now, s) <==>
      && s in slots && s !in spent && s in ta.evidence && ta.evidence[s].Current?
      && ((exists cp, r :: cp in c.capabilities && r in cp.requirements && ReadsSlot(c, r, s)) || EnvelopeReads(c, ta.envelopeSelection, s))
      && var q := slots[s];
         && q.maxAge > 0 && q.key in held && held[q.key].list != []
         && var o := held[q.key].list[0];
            && o.outcome == ValueOutcome
            && (now >= o.observedAt + q.maxAge - margin(q.maxAge) || (o.validUntil != 0 && now >= o.validUntil - margin(q.maxAge)))
  {
    UsedMeans(c, ta.envelopeSelection, s);
    hide UsedSlot, ReadsSlot, EnvelopeReads;
  }

  /** As `ReadBy`, but for an envelope named "" as well, which no valid contract has. */
  ghost predicate ReadsSlot(c: Contract, r: Requirement, s: string) {
    (r.predicate_.Some? && r.predicate_.value.assertion == s) || EnvelopeReads(c, r.envelope, s)
  }

  lemma UsedIsRead(c: Contract, selected: string, s: string)
    requires UsedSlot(c, selected, s)
    ensures (exists cp, r :: cp in c.capabilities && r in cp.requirements && ReadsSlot(c, r, s)) || EnvelopeReads(c, selected, s)
  {
    if cp, r :| cp in c.capabilities && r in cp.requirements && r.predicate_.Some? && r.predicate_.value.assertion == s {
      assert ReadsSlot(c, r, s);
    } else {
      var e, p :| e in c.envelopes && p in e.requirements && p.assertion == s
        && (e.name == selected || exists cp, r :: cp in c.capabilities && r in cp.requirements && r.envelope == e.name);
      assert EnvelopeReads(c, e.name, s);
      if cp, r :| e.name != selected && cp in c.capabilities && r in cp.requirements && r.envelope == e.name {
        assert ReadsSlot(c, r, s);
      }
    }
  }

  lemma UsedMeans(c: Contract, selected: string, s: string)
    ensures UsedSlot(c, selected, s) <==>
      (exists cp, r :: cp in c.capabilities && r in cp.requirements && ReadsSlot(c, r, s)) || EnvelopeReads(c, selected, s)
  {
    if UsedSlot(c, selected, s) {
      UsedIsRead(c, selected, s);
    }
    if cp, r :| cp in c.capabilities && r in cp.requirements && ReadsSlot(c, r, s) {
      if EnvelopeReads(c, r.envelope, s) {
        var e, p :| e in c.envelopes && e.name == r.envelope && p in e.requirements && p.assertion == s;
      }
    }
    if EnvelopeReads(c, selected, s) {
      var e, p :| e in c.envelopes && e.name == selected && p in e.requirements && p.assertion == s;
    }
  }
}
