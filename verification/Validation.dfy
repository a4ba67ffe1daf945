/** `Contract.Validate`: the list of structural defects, accumulated section by section. */
module Validation {
  import opened Wrappers
  import opened OpsTypes
  import opened Predicates
  import opened Contracts
  import opened Graphs

  datatype Defect =
    | IncompleteIdentity | EmptySlotName | DuplicateSlot(name: string) | BadSlot(name: string)
    | BadDependencySlot(name: string) | DuplicateEnvelope(name: string) | BadEnvelope(name: string)
    | IncompleteCapability(typ: CapabilityType) | DuplicateCapability(typ: CapabilityType)
    | NoRequirements(typ: CapabilityType) | BadRequirement(typ: CapabilityType, index: nat) | LocalCycleDefect(names: seq<string>)

  /** The predicate names a slot collected so far and fits it. */
  predicate FitsIn(slots: map<string, AssertionSlot>, p: Predicate) {
    p.assertion in slots && Fits(p, slots[p.assertion])
  }

  /** The first i slots are fine and named apart. */
  ghost predicate PrefixOk(c: Contract, i: nat)
    requires i <= |c.assertions|
  {
    && (forall k :: 0 <= k < i ==> SlotOk(c.assertions[k]))
    && forall k, j :: 0 <= k < j < i ==> c.assertions[k].name != c.assertions[j].name
  }

  /** slots maps each nonempty name among the first i slots to its first slot. */
  ghost predicate PrefixCollected(c: Contract, i: nat, slots: map<string, AssertionSlot>)
    requires i <= |c.assertions|
  {
    && (forall k :: 0 <= k < i && c.assertions[k].name != "" ==> c.assertions[k].name in slots)
    && (forall n :: n in slots ==> n != "" && exists k :: 0 <= k < i && c.assertions[k] == slots[n] && slots[n].name == n)
  }

  lemma WholePrefix(c: Contract)
    ensures PrefixOk(c, |c.assertions|) <==> SlotsOk(c)
  {
    assert SlotsOk(c) ==> forall k :: 0 <= k < |c.assertions| ==> c.assertions[k] in c.assertions;
  }

  method ValidateSlots(c: Contract) returns (errs: seq<Defect>, slots: map<string, AssertionSlot>)
    ensures errs == [] <==> SlotsOk(c)
    ensures SlotsOk(c) ==> forall n :: n in slots <==> FindSlot(c, n).Some?
    ensures SlotsOk(c) ==> forall n :: n in slots ==> FindSlot(c, n) == Some(slots[n])
  {
    hide FindSlot;
    errs, slots := [], map[];
    for i := 0 to |c.assertions|
      invariant errs == [] <==> PrefixOk(c, i)
      invariant PrefixCollected(c, i, slots)
    {
      var s := c.assertions[i];
      if s.name == "" {
        errs := errs + [EmptySlotName];
        continue;
      }
      if s.name in slots {
        errs := errs + [DuplicateSlot(s.name)];
        continue;
      }
      if !KnownType(s.typ) || (s.enum != [] && s.typ != StringType) || s.maxAge <= 0 {
        errs := errs + [BadSlot(s.name)];
      }
      slots := slots[s.name := s];
    }
    WholePrefix(c);
    if SlotsOk(c) {
      SlotsFound(c, slots);
    }
  }

  lemma SlotsFound(c: Contract, slots: map<string, AssertionSlot>)
    requires SlotsOk(c) && PrefixCollected(c, |c.assertions|, slots)
    ensures forall n :: n in slots <==> FindSlot(c, n).Some?
    ensures forall n :: n in slots ==> FindSlot(c, n) == Some(slots[n])
  {
    forall n
      ensures n in slots <==> FindSlot(c, n).Some?
      ensures n in slots ==> FindSlot(c, n) == Some(slots[n])
    {
      if FindSlot(c, n).Some? {
        assert FindSlot(c, n).value in c.assertions;
      }
      if n in slots {
        assert slots[n] in c.assertions;
        FirstUnique(c.assertions, (x: AssertionSlot) => x.name == n, slots[n]);
      }
    }
  }

  method ValidateDependencySlots(c: Contract) returns (errs: seq<Defect>, names: set<string>)
    ensures errs == [] <==> DependencySlotsOk(c)
    ensures errs == [] ==> forall n :: n in names <==> n in c.dependencySlots
  {
    errs, names := [], {};
    for i := 0 to |c.dependencySlots|
      invariant forall n :: n in names ==> exists k :: 0 <= k < i && c.dependencySlots[k] == n
      invariant errs == [] ==> forall n :: n in c.dependencySlots[..i] ==> n in names && n != ""
      invariant errs == [] ==> forall k, j :: 0 <= k < j < i ==> c.dependencySlots[k] != c.dependencySlots[j]
      invariant DependencySlotsOk(c) ==> errs == []
    {
      var d := c.dependencySlots[i];
      assert d in c.dependencySlots;
      assert c.dependencySlots[..i + 1] == c.dependencySlots[..i] + [d];
      if d == "" || d in names {
        errs := errs + [BadDependencySlot(d)];
        continue;
      }
      names := names + {d};
    }
    assert c.dependencySlots[..|c.dependencySlots|] == c.dependencySlots;
  }

  predicate EnvelopeFits(e: Envelope, slots: map<string, AssertionSlot>) {
    && e.name != "" && (e.class_ == Minimum || e.class_ == Recommended) && e.requirements != []
    && forall p :: p in e.requirements ==> FitsIn(slots, p)
  }

  ghost predicate EnvelopesFit(c: Contract, slots: map<string, AssertionSlot>) {
    && (forall e :: e in c.envelopes ==> EnvelopeFits(e, slots))
    && forall i, j :: 0 <= i < j < |c.envelopes| ==> c.envelopes[i].name != c.envelopes[j].name
  }

  method ValidateEnvelopes(c: Contract, slots: map<string, AssertionSlot>) returns (errs: seq<Defect>, names: set<string>)
    ensures errs == [] <==> EnvelopesFit(c, slots)
    ensures errs == [] ==> forall n :: n in names <==> FindEnvelope(c, n).Some?
  {
    errs, names := [], {};
    for i := 0 to |c.envelopes|
      invariant forall n :: n in names ==> exists k :: 0 <= k < i && c.envelopes[k].name == n
      invariant errs == [] ==> forall k :: 0 <= k < i ==> c.envelopes[k].name in names && EnvelopeFits(c.envelopes[k], slots)
      invariant errs == [] ==> forall k, j :: 0 <= k < j < i ==> c.envelopes[k].name != c.envelopes[j].name
      invariant EnvelopesFit(c, slots) ==> errs == []
    {
      var e := c.envelopes[i];
      assert e in c.envelopes;
      if e.name == "" || e.name in names {
        errs := errs + [DuplicateEnvelope(e.name)];
        continue;
      }
      names := names + {e.name};
      if (e.class_ != Minimum && e.class_ != Recommended) || e.requirements == [] {
        errs := errs + [BadEnvelope(e.name)];
      }
      var bad := CountMisfits(slots, e.requirements);
      errs := errs + seq(bad, _ => BadEnvelope(e.name));
    }
    if errs == [] {
      forall n ensures n in names <==> FindEnvelope(c, n).Some? {
        if FindEnvelope(c, n).Some? {
          assert FindEnvelope(c, n).value in c.envelopes;
        }
        if n in names {
          assert exists e :: e in c.envelopes && e.name == n;
        }
      }
    }
  }

  method CountMisfits(slots: map<string, AssertionSlot>, ps: seq<Predicate>) returns (bad: nat)
    ensures bad == 0 <==> forall p :: p in ps ==> FitsIn(slots, p)
  {
    bad := 0;
    for i := 0 to |ps|
      invariant bad == 0 <==> forall p :: p in ps[..i] ==> FitsIn(slots, p)
    {
      assert ps[..i + 1] == ps[..i] + [ps[i]];
      if !FitsIn(slots, ps[i]) {
        bad := bad + 1;
      }
    }
    assert ps[..|ps|] == ps;
  }

  ghost predicate NamesOk(c: Contract) {
    && (forall cp :: cp in c.capabilities ==> cp.typ.Complete())
    && forall i, j :: 0 <= i < j < |c.capabilities| ==> c.capabilities[i].typ.name != c.capabilities[j].typ.name
  }

  method ValidateNames(c: Contract) returns (errs: seq<Defect>, byName: set<string>)
    ensures errs == [] <==> NamesOk(c)
    ensures forall n :: n in byName <==> FindCapability(c, n).Some?
  {
    var byType: set<CapabilityType> := {};
    errs, byName := [], {};
    for i := 0 to |c.capabilities|
      invariant forall n :: n in byName <==> exists k :: 0 <= k < i && c.capabilities[k].typ.name == n
      invariant forall t :: t in byType ==> t.name in byName
      invariant errs == [] ==> forall k :: 0 <= k < i ==> c.capabilities[k].typ.Complete()
      invariant errs == [] ==> forall k, j :: 0 <= k < j < i ==> c.capabilities[k].typ.name != c.capabilities[j].typ.name
      invariant NamesOk(c) ==> errs == []
    {
      var cp := c.capabilities[i];
      assert cp in c.capabilities;
      if !cp.typ.Complete() {
        errs := errs + [IncompleteCapability(cp.typ)];
      }
      if cp.typ.name in byName || cp.typ in byType {
        errs := errs + [DuplicateCapability(cp.typ)];
      }
      byName := byName + {cp.typ.name};
      byType := byType + {cp.typ};
    }
    forall n ensures n in byName <==> FindCapability(c, n).Some? {
      if FindCapability(c, n).Some? {
        assert FindCapability(c, n).value in c.capabilities;
      }
      if n in byName {
        assert exists cp :: cp in c.capabilities && cp.typ.name == n;
      }
    }
  }

  /** The names the earlier sections collected. */
  datatype Names = Names(slots: map<string, AssertionSlot>, depSlots: set<string>, byName: set<string>, envelopes: set<string>)

  predicate RequirementFits(r: Requirement, ns: Names) {
    && (r.onUnmet == ImpactDegraded || r.onUnmet == ImpactUnavailable)
    && Kinds(r) == 1
    && (r.predicate_.Some? ==> FitsIn(ns.slots, r.predicate_.value))
    && (r.dependency.Some? ==> r.dependency.value.slot in ns.depSlots && r.dependency.value.capability.Complete())
    && (r.localCapability != "" ==> r.localCapability in ns.byName)
    && (r.envelope != "" ==> r.envelope in ns.envelopes)
  }

  method CheckRequirement(r: Requirement, ns: Names) returns (ok: bool)
    ensures ok <==> RequirementFits(r, ns)
  {
    ok := r.onUnmet == ImpactDegraded || r.onUnmet == ImpactUnavailable;
    var kinds := 0;
    if r.predicate_.Some? {
      kinds := kinds + 1;
      ok := ok && FitsIn(ns.slots, r.predicate_.value);
    }
    if r.dependency.Some? {
      kinds := kinds + 1;
      ok := ok && r.dependency.value.slot in ns.depSlots && r.dependency.value.capability.Complete();
    }
    if r.localCapability != "" {
      kinds := kinds + 1;
      ok := ok && r.localCapability in ns.byName;
    }
    if r.envelope != "" {
      kinds := kinds + 1;
      ok := ok && r.envelope in ns.envelopes;
    }
    ok := ok && kinds == 1;
  }

  method ValidateRequirements(cp: Capability, ns: Names) returns (errs: seq<Defect>)
    ensures errs == [] <==> cp.requirements != [] && forall r :: r in cp.requirements ==> RequirementFits(r, ns)
  {
    errs := if cp.requirements == [] then [NoRequirements(cp.typ)] else [];
    for i := 0 to |cp.requirements|
      invariant errs == [] <==> cp.requirements != [] && forall r :: r in cp.requirements[..i] ==> RequirementFits(r, ns)
    {
      var r := cp.requirements[i];
      assert cp.requirements[..i + 1] == cp.requirements[..i] + [r];
      var ok := CheckRequirement(r, ns);
      if !ok {
        errs := errs + [BadRequirement(cp.typ, i)];
      }
    }
    assert cp.requirements[..|cp.requirements|] == cp.requirements;
  }

  ghost predicate RequirementsFit(c: Contract, ns: Names) {
    forall cp :: cp in c.capabilities ==> cp.requirements != [] && forall r :: r in cp.requirements ==> RequirementFits(r, ns)
  }

  method ValidateCapabilities(c: Contract, ns: Names) returns (errs: seq<Defect>)
    ensures errs == [] <==> RequirementsFit(c, ns)
  {
    hide RequirementFits;
    errs := [];
    for i := 0 to |c.capabilities|
      invariant errs == [] <==> forall cp :: cp in c.capabilities[..i] ==>
        cp.requirements != [] && forall r :: r in cp.requirements ==> RequirementFits(r, ns)
    {
      assert c.capabilities[..i + 1] == c.capabilities[..i] + [c.capabilities[i]];
      var more := ValidateRequirements(c.capabilities[i], ns);
      errs := errs + more;
    }
    assert c.capabilities[..|c.capabilities|] == c.capabilities;
  }

  /** A contract has no reported defect exactly when it is well formed. */
  method Validate(c: Contract) returns (errs: seq<Defect>)
    ensures errs == [] <==> WellFormed(c)
  {
    hide SlotsOk, DependencySlotsOk, EnvelopesOk, EnvelopesFit, NamesOk, RequirementsFit, Acyclic, LocalGraph;
    hide FindSlot, FindEnvelope, FindCapability, CapabilitiesOk;
    errs := if c.identity.Complete() then [] else [IncompleteIdentity];
    var slotErrs, slots := ValidateSlots(c);
    var depErrs, depSlots := ValidateDependencySlots(c);
    var envErrs, envelopes := ValidateEnvelopes(c, slots);
    var nameErrs, byName := ValidateNames(c);
    var ns := Names(slots, depSlots, byName, envelopes);
    var capErrs := ValidateCapabilities(c, ns);
    errs := errs + slotErrs + depErrs + envErrs + nameErrs + capErrs;
    if slotErrs == [] {
      FitIsOk(c, slots);
      if depErrs == [] && envErrs == [] {
        RequirementsFitIsOk(c, ns);
      }
    }
    CapabilitiesNeedNames(c);
    var cyc := LocalCycle(c);
    if cyc.Some? {
      errs := errs + [LocalCycleDefect(cyc.value)];
    }
  }

  lemma CapabilitiesNeedNames(c: Contract)
    ensures CapabilitiesOk(c) ==> NamesOk(c)
  {
  }

  /** With all slots collected, fitting the collected slots is fitting the declared ones. */
  lemma FitIsOk(c: Contract, slots: map<string, AssertionSlot>)
    requires forall n :: n in slots <==> FindSlot(c, n).Some?
    requires forall n :: n in slots ==> FindSlot(c, n) == Some(slots[n])
    ensures forall p: Predicate :: FitsIn(slots, p) <==> PredicateOk(c, p)
    ensures EnvelopesFit(c, slots) <==> EnvelopesOk(c)
  {
    hide FindSlot, Fits;
    assert forall p: Predicate :: FitsIn(slots, p) <==> PredicateOk(c, p);
    assert forall e: Envelope :: EnvelopeFits(e, slots) <==> EnvelopeOk(c, e);
  }

  lemma RequirementsFitIsOk(c: Contract, ns: Names)
    requires forall p: Predicate :: FitsIn(ns.slots, p) <==> PredicateOk(c, p)
    requires forall n :: n in ns.depSlots <==> n in c.dependencySlots
    requires forall n :: n in ns.byName <==> FindCapability(c, n).Some?
    requires forall n :: n in ns.envelopes <==> FindEnvelope(c, n).Some?
    ensures CapabilitiesOk(c) <==> NamesOk(c) && RequirementsFit(c, ns)
  {
    hide FindSlot, FindCapability, FindEnvelope, FitsIn, PredicateOk;
    assert forall r: Requirement :: RequirementFits(r, ns) <==> RequirementOk(c, r);
  }
}
