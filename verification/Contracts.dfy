/** Contract lookups, what makes a contract valid, and the validation that
    reports its defects (pkg/operations/contract.go). */
module Contracts {
  import opened Wrappers
  import opened OpsTypes
  import opened Predicates
  import opened Graphs
  import opened DepthFirst

  function FindSlot(c: Contract, name: string): Option<AssertionSlot> {
    First(c.assertions, (s: AssertionSlot) => s.name == name)
  }

  function FindCapability(c: Contract, name: string): Option<Capability> {
    First(c.capabilities, (cp: Capability) => cp.typ.name == name)
  }

  function FindCapabilityByType(c: Contract, t: CapabilityType): Option<Capability> {
    First(c.capabilities, (cp: Capability) => cp.typ == t)
  }

  function FindEnvelope(c: Contract, name: string): Option<Envelope> {
    First(c.envelopes, (e: Envelope) => e.name == name)
  }

  /** The declared local capabilities a list of requirements names, in order. */
  function LocalNames(c: Contract, rs: seq<Requirement>): (r: seq<string>)
    ensures forall m :: m in r <==>
      m != "" && FindCapability(c, m).Some? && exists q :: q in rs && q.localCapability == m
  {
    if rs == [] then []
    else
      var m := rs[0].localCapability;
      (if m != "" && FindCapability(c, m).Some? then [m] else []) + LocalNames(c, rs[1..])
  }

  function LocalSuccessors(c: Contract, n: string): seq<string> {
    match FindCapability(c, n)
    case Some(cp) => LocalNames(c, cp.requirements)
    case None => []
  }

  /** The graph of local-capability references of one contract. */
  function LocalGraph(c: Contract): Graph<string> {
    map cp | cp in c.capabilities :: cp.typ.name := LocalSuccessors(c, cp.typ.name)
  }

  lemma LocalGraphSucc(c: Contract, n: string)
    ensures Succ(LocalGraph(c), n) == LocalSuccessors(c, n)
    ensures forall m :: m in LocalSuccessors(c, n) ==> m in LocalGraph(c)
  {
    if n in LocalGraph(c) {
    } else {
      assert forall cp :: cp in c.capabilities ==> cp.typ.name in LocalGraph(c);
    }
    forall m | m in LocalSuccessors(c, n) ensures m in LocalGraph(c) {
      var cp := FindCapability(c, m).value;
      assert cp in c.capabilities && cp.typ.name == m;
    }
  }

  // ── what a valid contract is ──────────────────────────────────────────────

  predicate KnownType(t: ValueType) {
    t == BooleanType || t == IntegerType || t == StringType
  }

  predicate SlotOk(s: AssertionSlot) {
    s.name != "" && KnownType(s.typ) && (s.enum == [] || s.typ == StringType) && s.maxAge > 0
  }

  predicate PredicateOk(c: Contract, p: Predicate) {
    FindSlot(c, p.assertion).Some? && Fits(p, FindSlot(c, p.assertion).value)
  }

  predicate EnvelopeOk(c: Contract, e: Envelope) {
    && e.name != "" && (e.class_ == Minimum || e.class_ == Recommended) && e.requirements != []
    && forall p :: p in e.requirements ==> PredicateOk(c, p)
  }

  function Kinds(r: Requirement): nat {
    (if r.predicate_.Some? then 1 else 0) + (if r.dependency.Some? then 1 else 0)
    + (if r.localCapability != "" then 1 else 0) + (if r.envelope != "" then 1 else 0)
  }

  predicate RequirementOk(c: Contract, r: Requirement) {
    && (r.onUnmet == ImpactDegraded || r.onUnmet == ImpactUnavailable)
    && Kinds(r) == 1
    && (r.predicate_.Some? ==> PredicateOk(c, r.predicate_.value))
    && (r.dependency.Some? ==> r.dependency.value.slot in c.dependencySlots && r.dependency.value.capability.Complete())
    && (r.localCapability != "" ==> FindCapability(c, r.localCapability).Some?)
    && (r.envelope != "" ==> FindEnvelope(c, r.envelope).Some?)
  }

  predicate CapabilityOk(c: Contract, cp: Capability) {
    && cp.typ.Complete() && cp.requirements != []
    && forall r :: r in cp.requirements ==> RequirementOk(c, r)
  }

  ghost predicate SlotsOk(c: Contract) {
    && (forall s :: s in c.assertions ==> SlotOk(s))
    && forall i, j :: 0 <= i < j < |c.assertions| ==> c.assertions[i].name != c.assertions[j].name
  }

  ghost predicate DependencySlotsOk(c: Contract) {
    && (forall d :: d in c.dependencySlots ==> d != "")
    && Distinct(c.dependencySlots)
  }

  ghost predicate EnvelopesOk(c: Contract) {
    && (forall e :: e in c.envelopes ==> EnvelopeOk(c, e))
    && forall i, j :: 0 <= i < j < |c.envelopes| ==> c.envelopes[i].name != c.envelopes[j].name
  }

  ghost predicate CapabilitiesOk(c: Contract) {
    && (forall cp :: cp in c.capabilities ==> CapabilityOk(c, cp))
    && forall i, j :: 0 <= i < j < |c.capabilities| ==> c.capabilities[i].typ.name != c.capabilities[j].typ.name
  }

  /** A contract without structural defects. */
  ghost predicate WellFormed(c: Contract) {
    && c.identity.Complete()
    && SlotsOk(c) && DependencySlotsOk(c) && EnvelopesOk(c) && CapabilitiesOk(c)
    && Acyclic(LocalGraph(c))
  }

  /** In a well-formed contract names identify. */
  lemma LookupUnique(c: Contract)
    requires WellFormed(c)
    ensures forall cp :: cp in c.capabilities ==>
      FindCapability(c, cp.typ.name) == Some(cp) && FindCapabilityByType(c, cp.typ) == Some(cp)
    ensures forall s :: s in c.assertions ==> FindSlot(c, s.name) == Some(s)
    ensures forall e :: e in c.envelopes ==> FindEnvelope(c, e.name) == Some(e)
  {
    forall cp | cp in c.capabilities
      ensures FindCapability(c, cp.typ.name) == Some(cp) && FindCapabilityByType(c, cp.typ) == Some(cp)
    {
      FirstUnique(c.capabilities, (x: Capability) => x.typ.name == cp.typ.name, cp);
      FirstUnique(c.capabilities, (x: Capability) => x.typ == cp.typ, cp);
    }
    forall s | s in c.assertions
      ensures FindSlot(c, s.name) == Some(s)
    {
      FirstUnique(c.assertions, (x: AssertionSlot) => x.name == s.name, s);
    }
    forall e | e in c.envelopes
      ensures FindEnvelope(c, e.name) == Some(e)
    {
      FirstUnique(c.envelopes, (x: Envelope) => x.name == e.name, e);
    }
  }

  // ── the same, spelled out ─────────────────────────────────────────────────

  /** p compares a declared slot with an operand of its type, by an operator its
      type has; true and false take no operand. */
  ghost predicate Comparable(c: Contract, p: Predicate) {
    exists s :: && s in c.assertions && s.name == p.assertion
                && match p.op
                   case IsTrue => s.typ == BooleanType && p.operand == Value(OtherType(""), false, 0, "")
                   case IsFalse => s.typ == BooleanType && p.operand == Value(OtherType(""), false, 0, "")
                   case Gte => s.typ == IntegerType && p.operand == Value(IntegerType, false, p.operand.i, "")
                   case Lte => s.typ == IntegerType && p.operand == Value(IntegerType, false, p.operand.i, "")
                   case OtherOperator(_) => false
                   case _ =>
                     || (s.typ == BooleanType && p.operand == Value(BooleanType, p.operand.b, 0, ""))
                     || (s.typ == IntegerType && p.operand == Value(IntegerType, false, p.operand.i, ""))
                     || (s.typ == StringType && p.operand == Value(StringType, false, 0, p.operand.s) && (s.enum == [] || p.operand.s in s.enum))
  }

  /** r names exactly one thing, and that is declared. */
  ghost predicate Refers(c: Contract, r: Requirement) {
    || (&& r.predicate_.Some? && r.dependency.None? && r.localCapability == "" && r.envelope == "" && Comparable(c, r.predicate_.value))
    || (&& r.predicate_.None? && r.dependency.Some? && r.localCapability == "" && r.envelope == ""
        && r.dependency.value.slot in c.dependencySlots
        && var t := r.dependency.value.capability; t.domain != "" && t.name != "" && t.revision != "")
    || (&& r.predicate_.None? && r.dependency.None? && r.localCapability != "" && r.envelope == ""
        && exists cp :: cp in c.capabilities && cp.typ.name == r.localCapability)
    || (&& r.predicate_.None? && r.dependency.None? && r.localCapability == "" && r.envelope != ""
        && exists e :: e in c.envelopes && e.name == r.envelope)
  }

  ghost predicate SoundSlots(c: Contract) {
    && (forall s :: s in c.assertions ==>
          && s.name != "" && s.maxAge > 0 && (s.enum == [] || s.typ == StringType)
          && (s.typ == BooleanType || s.typ == IntegerType || s.typ == StringType))
    && forall i, j :: 0 <= i < j < |c.assertions| ==> c.assertions[i].name != c.assertions[j].name
  }

  ghost predicate SoundEnvelopes(c: Contract) {
    && (forall e :: e in c.envelopes ==> e.name != "" && (e.class_ == Minimum || e.class_ == Recommended) && |e.requirements| > 0)
    && (forall e, p :: e in c.envelopes && p in e.requirements ==> Comparable(c, p))
    && forall i, j :: 0 <= i < j < |c.envelopes| ==> c.envelopes[i].name != c.envelopes[j].name
  }

  ghost predicate SoundCapabilities(c: Contract) {
    && (forall cp :: cp in c.capabilities ==> cp.typ.domain != "" && cp.typ.name != "" && cp.typ.revision != "" && |cp.requirements| > 0)
    && (forall cp, r :: cp in c.capabilities && r in cp.requirements ==>
          (r.onUnmet == ImpactDegraded || r.onUnmet == ImpactUnavailable) && Refers(c, r))
    && forall i, j :: 0 <= i < j < |c.capabilities| ==> c.capabilities[i].typ.name != c.capabilities[j].typ.name
  }

  lemma ComparableMeans(c: Contract, p: Predicate)
    requires SlotsOk(c)
    ensures PredicateOk(c, p) <==> Comparable(c, p)
  {
    forall s | s in c.assertions ensures FindSlot(c, s.name) == Some(s) {
      FirstUnique(c.assertions, (x: AssertionSlot) => x.name == s.name, s);
    }
    hide FindSlot;
    if PredicateOk(c, p) {
      FoundSlot(c, p.assertion);
    }
  }

  lemma FoundSlot(c: Contract, name: string)
    ensures FindSlot(c, name).Some? ==> FindSlot(c, name).value in c.assertions && FindSlot(c, name).value.name == name
  {
  }

  lemma RefersMeans(c: Contract, r: Requirement)
    requires SlotsOk(c)
    ensures RequirementOk(c, r) <==> (r.onUnmet == ImpactDegraded || r.onUnmet == ImpactUnavailable) && Refers(c, r)
  {
    hide PredicateOk, Comparable, SlotsOk;
    if r.predicate_.Some? {
      ComparableMeans(c, r.predicate_.value);
    }
  }

  /** What a contract must be, section by section, in terms of its own entries. */
  lemma WellFormedMeaning(c: Contract)
    ensures WellFormed(c) <==>
      && c.identity.namespace != "" && c.identity.name != "" && c.identity.uid != "" && c.identity.specDigest != ""
      && SoundSlots(c) && SoundEnvelopes(c) && SoundCapabilities(c)
      && (forall d :: d in c.dependencySlots ==> d != "") && Distinct(c.dependencySlots)
      && forall n :: !OnCycle(LocalGraph(c), n)
  {
    hide PredicateOk, Comparable, RequirementOk, Refers, LocalGraph, OnCycle, Distinct;
    SlotsMean(c);
    if SlotsOk(c) {
      forall p ensures PredicateOk(c, p) <==> Comparable(c, p) {
        ComparableMeans(c, p);
      }
      forall r ensures RequirementOk(c, r) <==> (r.onUnmet == ImpactDegraded || r.onUnmet == ImpactUnavailable) && Refers(c, r) {
        RefersMeans(c, r);
      }
      hide SlotsOk, SoundSlots;
      EnvelopesMean(c);
      CapabilitiesMean(c);
      hide EnvelopesOk, SoundEnvelopes, CapabilitiesOk, SoundCapabilities;
    }
  }

  lemma SlotsMean(c: Contract)
    ensures SlotsOk(c) <==> SoundSlots(c)
  {
  }

  lemma EnvelopesMean(c: Contract)
    requires forall p :: PredicateOk(c, p) <==> Comparable(c, p)
    ensures EnvelopesOk(c) <==> SoundEnvelopes(c)
  {
    hide PredicateOk, Comparable;
  }

  lemma CapabilitiesMean(c: Contract)
    requires forall r :: RequirementOk(c, r) <==> (r.onUnmet == ImpactDegraded || r.onUnmet == ImpactUnavailable) && Refers(c, r)
    ensures CapabilitiesOk(c) <==> SoundCapabilities(c)
  {
    hide RequirementOk, Refers;
  }

  // ── localCycle ────────────────────────────────────────────────────────────

  /** `localCycle`: a cycle of local capabilities is answered exactly when there is one. */
  method LocalCycle(c: Contract) returns (cyc: Option<seq<string>>)
    ensures cyc.Some? ==> IsCycle(LocalGraph(c), cyc.value)
    ensures cyc.None? <==> Acyclic(LocalGraph(c))
  {
    var roots := [];
    for i := 0 to |c.capabilities|
      invariant forall n :: n in roots <==> exists cp :: cp in c.capabilities[..i] && cp.typ.name == n
    {
      assert c.capabilities[..i + 1] == c.capabilities[..i] + [c.capabilities[i]];
      roots := roots + [c.capabilities[i].typ.name];
    }
    assert c.capabilities[..|c.capabilities|] == c.capabilities;
    LocalGraphClosed(c);
    var search := new CycleSearch(LocalGraph(c));
    cyc := search.Run(roots);
  }

  lemma LocalGraphClosed(c: Contract)
    ensures Closed(LocalGraph(c), LocalGraph(c).Keys)
    ensures forall n :: n in LocalGraph(c) <==> exists cp :: cp in c.capabilities && cp.typ.name == n
  {
    forall n, m | n in LocalGraph(c).Keys && m in Succ(LocalGraph(c), n)
      ensures m in LocalGraph(c).Keys
    {
      LocalGraphSucc(c, n);
    }
  }
}
