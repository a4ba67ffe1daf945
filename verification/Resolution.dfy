/** Resolving targets and their dependencies, and the cross-target capability
    graph (the first half of pkg/operations/evaluator.go). */
module Resolution {
  import opened Wrappers
  import opened OpsTypes
  import opened Contracts
  import opened Graphs
  import Validation
  import Tarjan

  function WithUid(ts: seq<Target>, uid: string): seq<Target> {
    Filter(ts, (t: Target) => t.identity.uid == uid)
  }

  function WithIdentity(cs: seq<Contract>, id: ContractIdentity): seq<Contract> {
    Filter(cs, (c: Contract) => c.identity == id)
  }

  /** The contract a target refers to, if exactly one has that identity. */
  function ContractOf(contracts: seq<Contract>, t: Target): (r: Option<Contract>)
    ensures r.Some? ==> r.value in contracts && r.value.identity == t.contractRef
  {
    var cs := WithIdentity(contracts, t.contractRef);
    if |cs| == 1 then assert cs[0] in cs; Some(cs[0]) else None
  }

  predicate AssertionBindingOk(c: Contract, b: AssertionBinding) {
    FindSlot(c, b.slot).Some? && b.provider.name != ""
  }

  predicate DependencyBindingOk(c: Contract, b: DependencyBinding) {
    b.slot in c.dependencySlots && b.targetUid != "" && b.contract.Complete()
  }

  ghost predicate AssertionBindingsOk(c: Contract, t: Target) {
    && (forall b :: b in t.assertionBindings ==> AssertionBindingOk(c, b))
    && forall i, j :: 0 <= i < j < |t.assertionBindings| ==> t.assertionBindings[i].slot != t.assertionBindings[j].slot
  }

  ghost predicate DependencyBindingsOk(c: Contract, t: Target) {
    && (forall b :: b in t.dependencyBindings ==> DependencyBindingOk(c, b))
    && forall i, j :: 0 <= i < j < |t.dependencyBindings| ==> t.dependencyBindings[i].slot != t.dependencyBindings[j].slot
  }

  /** The bindings fit a well-formed contract. */
  ghost predicate Bound(c: Contract, t: Target) {
    && WellFormed(c) && AssertionBindingsOk(c, t) && DependencyBindingsOk(c, t)
    && (t.envelopeSelection == "" || FindEnvelope(c, t.envelopeSelection).Some?)
  }

  /** Nothing about the target itself makes it invalid. Dependency cycles come later. */
  ghost predicate Resolves(targets: seq<Target>, contracts: seq<Contract>, t: Target) {
    && |WithUid(targets, t.identity.uid)| == 1
    && t.contractRef.namespace == t.identity.namespace
    && ContractOf(contracts, t).Some?
    && Bound(ContractOf(contracts, t).value, t)
  }

  method CheckAssertionBindings(c: Contract, t: Target) returns (bad: seq<Invalidity>)
    ensures bad == [] <==> AssertionBindingsOk(c, t)
  {
    hide FindSlot;
    bad := [];
    var seen: set<string> := {};
    for i := 0 to |t.assertionBindings|
      invariant forall n :: n in seen ==> exists k :: 0 <= k < i && t.assertionBindings[k].slot == n
      invariant bad == [] ==> forall k :: 0 <= k < i ==> t.assertionBindings[k].slot in seen && AssertionBindingOk(c, t.assertionBindings[k])
      invariant bad == [] ==> forall k, j :: 0 <= k < j < i ==> t.assertionBindings[k].slot != t.assertionBindings[j].slot
      invariant AssertionBindingsOk(c, t) ==> bad == []
    {
      var b := t.assertionBindings[i];
      assert b in t.assertionBindings;
      if !AssertionBindingOk(c, b) {
        bad := bad + [InvalidBinding(b.slot)];
        continue;
      }
      if b.slot in seen {
        bad := bad + [DuplicateAssertionBinding(b.slot)];
      }
      seen := seen + {b.slot};
    }
  }

  method CheckDependencyBindings(c: Contract, t: Target) returns (bad: seq<Invalidity>)
    ensures bad == [] <==> DependencyBindingsOk(c, t)
  {
    bad := [];
    var seen: set<string> := {};
    for i := 0 to |t.dependencyBindings|
      invariant forall n :: n in seen ==> exists k :: 0 <= k < i && t.dependencyBindings[k].slot == n
      invariant bad == [] ==> forall k :: 0 <= k < i ==> t.dependencyBindings[k].slot in seen && DependencyBindingOk(c, t.dependencyBindings[k])
      invariant bad == [] ==> forall k, j :: 0 <= k < j < i ==> t.dependencyBindings[k].slot != t.dependencyBindings[j].slot
      invariant DependencyBindingsOk(c, t) ==> bad == []
    {
      var b := t.dependencyBindings[i];
      assert b in t.dependencyBindings;
      if !DependencyBindingOk(c, b) {
        bad := bad + [InvalidBinding(b.slot)];
        continue;
      }
      if b.slot in seen {
        bad := bad + [DuplicateDependencyBinding(b.slot)];
      }
      seen := seen + {b.slot};
    }
  }

  /** `resolveTarget`: the reasons found are none exactly when the target resolves. */
  method ResolveTarget(targets: seq<Target>, contracts: seq<Contract>, t: Target) returns (bad: seq<Invalidity>)
    requires t in targets
    ensures bad == [] <==> Resolves(targets, contracts, t)
  {
    hide AssertionBindingsOk, DependencyBindingsOk, WellFormed, FindEnvelope;
    bad := [];
    assert t in WithUid(targets, t.identity.uid);
    if |WithUid(targets, t.identity.uid)| > 1 {
      bad := [DuplicateTargetUid];
    }
    if t.contractRef.namespace != t.identity.namespace {
      bad := bad + [CrossNamespaceContract];
      return;
    }
    var cs := WithIdentity(contracts, t.contractRef);
    if |cs| == 0 {
      bad := bad + [ContractUnresolved];
      return;
    }
    if |cs| > 1 {
      bad := bad + [ContractAmbiguous];
      return;
    }
    var c := cs[0];
    var errs := Validation.Validate(c);
    if errs != [] {
      bad := bad + [InvalidContract];
      return;
    }
    var badAssertions := CheckAssertionBindings(c, t);
    var badDependencies := CheckDependencyBindings(c, t);
    bad := bad + badAssertions + badDependencies;
    if t.envelopeSelection != "" && FindEnvelope(c, t.envelopeSelection).None? {
      bad := bad + [UnknownEnvelopeSelection];
    }
  }

  // ── the capability graph ──────────────────────────────────────────────────

  /** Targets and contracts, with the UIDs of the targets that count as valid. */
  datatype World = World(targets: seq<Target>, contracts: seq<Contract>, ok: set<string>)

  /** `uniqueValid`: the one valid target with this UID. */
  function UniqueValid(w: World, uid: string): (r: Option<Target>)
    ensures r.Some? ==> r.value in w.targets && r.value.identity.uid == uid
  {
    var ts := WithUid(w.targets, uid);
    if uid in w.ok && |ts| == 1 then assert ts[0] in ts; Some(ts[0]) else None
  }

  /** Every UID taken as valid belongs to one target, which resolves. */
  ghost predicate WorldOk(w: World) {
    forall uid :: uid in w.ok ==> UniqueValid(w, uid).Some? && Resolves(w.targets, w.contracts, UniqueValid(w, uid).value)
  }

  lemma OkTarget(w: World, uid: string)
    requires WorldOk(w)
    ensures UniqueValid(w, uid).Some? <==> uid in w.ok
    ensures uid in w.ok ==> var t := UniqueValid(w, uid).value;
      t in w.targets && t.identity.uid == uid && ContractOf(w.contracts, t).Some? && Bound(ContractOf(w.contracts, t).value, t)
  {
  }

  function DependencyBindingOf(t: Target, slot: string): Option<DependencyBinding> {
    First(t.dependencyBindings, (b: DependencyBinding) => b.slot == slot)
  }

  /** Where a dependency requirement leads, or why it leads nowhere. */
  datatype DependencyTarget =
    | NoBinding | NoTarget(uid: string) | NoValidTarget(uid: string) | OtherContract(uid: string) | NoCapability(uid: string)
    | LeadsTo(key: CapKey)

  function ResolveDependency(w: World, t: Target, d: DependencyRequirement): DependencyTarget {
    match DependencyBindingOf(t, d.slot)
    case None => NoBinding
    case Some(b) =>
      if WithUid(w.targets, b.targetUid) == [] then NoTarget(b.targetUid)
      else match UniqueValid(w, b.targetUid)
        case None => NoValidTarget(b.targetUid)
        case Some(dt) =>
          if dt.contractRef != b.contract then OtherContract(b.targetUid)
          else match ContractOf(w.contracts, dt)
            case None => NoValidTarget(b.targetUid)
            case Some(dc) =>
              match FindCapabilityByType(dc, d.capability)
              case None => NoCapability(b.targetUid)
              case Some(cp) => LeadsTo(CapKey(dt.identity.uid, cp.typ.name))
  }

  // ── where dependencies lead ───────────────────────────────────────────────

  /** b is the first binding of the slot. */
  ghost predicate Binds(t: Target, slot: string, b: DependencyBinding) {
    exists i :: && 0 <= i < |t.dependencyBindings| && t.dependencyBindings[i] == b && b.slot == slot
                && forall j :: 0 <= j < i ==> t.dependencyBindings[j].slot != slot
  }

  /** dt is the one target of the snapshot with this UID, and counts as valid. */
  ghost predicate OneValid(w: World, uid: string, dt: Target) {
    && uid in w.ok
    && exists i :: && 0 <= i < |w.targets| && w.targets[i] == dt && dt.identity.uid == uid
                   && forall j :: 0 <= j < |w.targets| && j != i ==> w.targets[j].identity.uid != uid
  }

  /** dc is the one contract with exactly this identity. */
  ghost predicate OneContract(w: World, id: ContractIdentity, dc: Contract) {
    exists i :: && 0 <= i < |w.contracts| && w.contracts[i] == dc && dc.identity == id
                && forall j :: 0 <= j < |w.contracts| && j != i ==> w.contracts[j].identity != id
  }

  /** The requirement leads to m: its slot is bound, exactly one target has the
      bound UID and is valid, that target refers to exactly the bound contract,
      and this contract declares exactly the required capability type. */
  ghost predicate Follows(w: World, t: Target, d: DependencyRequirement, m: CapKey) {
    exists b, dt, dc, cp ::
      && Binds(t, d.slot, b) && OneValid(w, b.targetUid, dt) && dt.contractRef == b.contract && OneContract(w, b.contract, dc)
      && cp in dc.capabilities && cp.typ == d.capability && m == CapKey(b.targetUid, d.capability.name)
  }

  lemma BindsMeaning(t: Target, slot: string)
    ensures forall b :: Binds(t, slot, b) <==> DependencyBindingOf(t, slot) == Some(b)
    ensures DependencyBindingOf(t, slot).None? <==> forall b :: b in t.dependencyBindings ==> b.slot != slot
  {
    hide Binds;
    forall b ensures Binds(t, slot, b) <==> DependencyBindingOf(t, slot) == Some(b) {
      BindsThis(t, slot, b);
    }
  }

  lemma BindsThis(t: Target, slot: string, b: DependencyBinding)
    ensures Binds(t, slot, b) <==> DependencyBindingOf(t, slot) == Some(b)
  {
    hide First;
    var bs, p := t.dependencyBindings, (x: DependencyBinding) => x.slot == slot;
    assert DependencyBindingOf(t, slot) == First(bs, p);
    FirstMeaning(bs, p, b);
    if i :| FirstAt(bs, p, i) && bs[i] == b {
      assert forall j :: 0 <= j < i ==> !p(bs[j]);
    }
    if Binds(t, slot, b) {
      var i :| && 0 <= i < |bs| && bs[i] == b && b.slot == slot && forall j :: 0 <= j < i ==> bs[j].slot != slot;
      assert FirstAt(bs, p, i);
    }
  }

  lemma SingleOf<T>(xs: seq<T>)
    ensures |xs| == 1 ==> xs == [xs[0]]
  {
  }

  lemma OneValidMeaning(w: World, uid: string)
    ensures forall dt :: OneValid(w, uid, dt) <==> UniqueValid(w, uid) == Some(dt)
    ensures WithUid(w.targets, uid) == [] <==> forall t :: t in w.targets ==> t.identity.uid != uid
  {
    var ts, p := w.targets, (t: Target) => t.identity.uid == uid;
    FilterNone(ts, p);
    SingleOf(WithUid(ts, uid));
    forall dt ensures OneValid(w, uid, dt) <==> UniqueValid(w, uid) == Some(dt) {
      FilterOne(ts, p, dt);
      forall i | 0 <= i < |ts| ensures OnlyAt(ts, p, i) <==> ts[i].identity.uid == uid && forall j :: 0 <= j < |ts| && j != i ==> ts[j].identity.uid != uid { }
    }
  }

  lemma OneContractMeaning(w: World, t: Target)
    ensures forall dc :: OneContract(w, t.contractRef, dc) <==> ContractOf(w.contracts, t) == Some(dc)
  {
    var cs, p := w.contracts, (c: Contract) => c.identity == t.contractRef;
    SingleOf(WithIdentity(cs, t.contractRef));
    forall dc ensures OneContract(w, t.contractRef, dc) <==> ContractOf(w.contracts, t) == Some(dc) {
      FilterOne(cs, p, dc);
      forall i | 0 <= i < |cs| ensures OnlyAt(cs, p, i) <==> cs[i].identity == t.contractRef && forall j :: 0 <= j < |cs| && j != i ==> cs[j].identity != t.contractRef { }
    }
  }

  lemma DeclaredMeaning(c: Contract, ty: CapabilityType)
    ensures FindCapabilityByType(c, ty).Some? <==> exists cp :: cp in c.capabilities && cp.typ == ty
    ensures FindCapabilityByType(c, ty).Some? ==> FindCapabilityByType(c, ty).value.typ == ty
  {
  }

  /** When a target resolves: nothing else has its UID, exactly one contract has
      the identity it refers to, in its own namespace and well formed, and its
      bindings each fill a declared slot once and completely. */
  lemma ResolvesMeaning(w: World, t: Target)
    requires t in w.targets
    ensures Resolves(w.targets, w.contracts, t) <==>
      && (exists i :: 0 <= i < |w.targets| && w.targets[i] == t && forall j :: 0 <= j < |w.targets| && j != i ==> w.targets[j].identity.uid != t.identity.uid)
      && t.contractRef.namespace == t.identity.namespace
      && exists c :: && OneContract(w, t.contractRef, c) && WellFormed(c)
                     && (forall b :: b in t.assertionBindings ==> b.provider.name != "" && exists s :: s in c.assertions && s.name == b.slot)
                     && (forall i, j :: 0 <= i < j < |t.assertionBindings| ==> t.assertionBindings[i].slot != t.assertionBindings[j].slot)
                     && (forall b :: b in t.dependencyBindings ==>
                           && b.slot in c.dependencySlots && b.targetUid != ""
                           && b.contract.namespace != "" && b.contract.name != "" && b.contract.uid != "" && b.contract.specDigest != "")
                     && (forall i, j :: 0 <= i < j < |t.dependencyBindings| ==> t.dependencyBindings[i].slot != t.dependencyBindings[j].slot)
                     && (t.envelopeSelection == "" || exists e :: e in c.envelopes && e.name == t.envelopeSelection)
  {
    hide WellFormed, OneContract, ContractOf, WithUid, FindSlot, FindEnvelope;
    OneContractMeaning(w, t);
    OneOfUid(w.targets, t);
    var c := ContractOf(w.contracts, t);
    if c.Some? {
      BoundMeaning(c.value, t);
      hide Bound;
      assert OneContract(w, t.contractRef, c.value);
    }
  }

  lemma OneOfUid(ts: seq<Target>, t: Target)
    requires t in ts
    ensures |WithUid(ts, t.identity.uid)| == 1 <==>
      exists i :: 0 <= i < |ts| && ts[i] == t && forall j :: 0 <= j < |ts| && j != i ==> ts[j].identity.uid != t.identity.uid
  {
    var p := (x: Target) => x.identity.uid == t.identity.uid;
    assert t in WithUid(ts, t.identity.uid);
    SingleOf(WithUid(ts, t.identity.uid));
    FilterOne(ts, p, t);
    forall i | 0 <= i < |ts| ensures OnlyAt(ts, p, i) <==> ts[i].identity.uid == t.identity.uid && forall j :: 0 <= j < |ts| && j != i ==> ts[j].identity.uid != t.identity.uid { }
  }

  lemma BoundMeaning(c: Contract, t: Target)
    ensures Bound(c, t) <==>
      && WellFormed(c)
      && (forall b :: b in t.assertionBindings ==> b.provider.name != "" && exists s :: s in c.assertions && s.name == b.slot)
      && (forall i, j :: 0 <= i < j < |t.assertionBindings| ==> t.assertionBindings[i].slot != t.assertionBindings[j].slot)
      && (forall b :: b in t.dependencyBindings ==>
            && b.slot in c.dependencySlots && b.targetUid != ""
            && b.contract.namespace != "" && b.contract.name != "" && b.contract.uid != "" && b.contract.specDigest != "")
      && (forall i, j :: 0 <= i < j < |t.dependencyBindings| ==> t.dependencyBindings[i].slot != t.dependencyBindings[j].slot)
      && (t.envelopeSelection == "" || exists e :: e in c.envelopes && e.name == t.envelopeSelection)
  {
    hide WellFormed;
    forall n ensures FindSlot(c, n).Some? <==> exists s :: s in c.assertions && s.name == n {
      FoundSlot(c, n);
    }
    forall n ensures FindEnvelope(c, n).Some? <==> exists e :: e in c.envelopes && e.name == n {
      FoundEnvelope(c, n);
    }
    hide FindSlot, FindEnvelope;
  }

  lemma FoundEnvelope(c: Contract, name: string)
    ensures FindEnvelope(c, name).Some? ==> FindEnvelope(c, name).value in c.envelopes && FindEnvelope(c, name).value.name == name
    ensures FindEnvelope(c, name).None? ==> forall e :: e in c.envelopes ==> e.name != name
  {
  }

  /** Exactly where a dependency is followed. */
  lemma DependencyMeaning(w: World, t: Target, d: DependencyRequirement, m: CapKey)
    ensures ResolveDependency(w, t, d) == LeadsTo(m) <==> Follows(w, t, d, m)
  {
    hide Binds, OneValid, OneContract, UniqueValid, ContractOf, WithUid, DependencyBindingOf, FindCapabilityByType;
    BindsMeaning(t, d.slot);
    var b := DependencyBindingOf(t, d.slot);
    if b.Some? {
      OneValidMeaning(w, b.value.targetUid);
      UidMeaning(w, b.value.targetUid);
      var dt := UniqueValid(w, b.value.targetUid);
      if dt.Some? {
        OneContractMeaning(w, dt.value);
        var dc := ContractOf(w.contracts, dt.value);
        if dc.Some? {
          DeclaredMeaning(dc.value, d.capability);
        }
      }
    }
  }

  lemma UidMeaning(w: World, uid: string)
    ensures UniqueValid(w, uid).Some? ==> UniqueValid(w, uid).value.identity.uid == uid && WithUid(w.targets, uid) != []
  {
  }

  /** Exactly why a dependency leads nowhere. */
  lemma BrokenMeaning(w: World, t: Target, d: DependencyRequirement)
    ensures var to := ResolveDependency(w, t, d);
      && (to == NoBinding <==> forall b :: b in t.dependencyBindings ==> b.slot != d.slot)
      && forall b :: Binds(t, d.slot, b) ==>
           && var uid := b.targetUid;
           && (to == NoTarget(uid) <==> forall x :: x in w.targets ==> x.identity.uid != uid)
           && (to == OtherContract(uid) <==> exists dt :: OneValid(w, uid, dt) && dt.contractRef != b.contract)
           && (to == NoCapability(uid) <==> exists dt, dc ::
                 && OneValid(w, uid, dt) && dt.contractRef == b.contract && OneContract(w, b.contract, dc)
                 && forall cp :: cp in dc.capabilities ==> cp.typ != d.capability)
           && (to == NoValidTarget(uid) <==>
                 && (exists x :: x in w.targets && x.identity.uid == uid)
                 && forall dt :: OneValid(w, uid, dt) ==> dt.contractRef == b.contract && forall dc :: !OneContract(w, b.contract, dc))
  {
    hide Binds, OneValid, OneContract, UniqueValid, ContractOf, WithUid, DependencyBindingOf, FindCapabilityByType;
    BindsMeaning(t, d.slot);
    var b := DependencyBindingOf(t, d.slot);
    if b.Some? {
      OneValidMeaning(w, b.value.targetUid);
      UidMeaning(w, b.value.targetUid);
      var dt := UniqueValid(w, b.value.targetUid);
      if dt.Some? {
        OneContractMeaning(w, dt.value);
        var dc := ContractOf(w.contracts, dt.value);
        if dc.Some? {
          DeclaredMeaning(dc.value, d.capability);
        }
      }
    }
  }

  function RequirementEdge(w: World, t: Target, r: Requirement): seq<CapKey> {
    if r.localCapability != "" then [CapKey(t.identity.uid, r.localCapability)]
    else if r.dependency.Some? then
      match ResolveDependency(w, t, r.dependency.value)
      case LeadsTo(k) => [k]
      case _ => []
    else []
  }

  function RequirementEdges(w: World, t: Target, rs: seq<Requirement>): (es: seq<CapKey>)
    ensures forall m :: m in es <==> exists r :: r in rs && m in RequirementEdge(w, t, r)
  {
    if rs == [] then [] else RequirementEdge(w, t, rs[0]) + RequirementEdges(w, t, rs[1..])
  }

  /** The requirements of a capability node; none for a node that is not one. */
  function RequirementsOf(w: World, k: CapKey): seq<Requirement> {
    match UniqueValid(w, k.uid)
    case None => []
    case Some(t) =>
      match ContractOf(w.contracts, t)
      case None => []
      case Some(c) =>
        match FindCapability(c, k.name)
        case None => []
        case Some(cp) => cp.requirements
  }

  /** `edges`: the capability nodes k directly depends on. */
  function Edges(w: World, k: CapKey): seq<CapKey> {
    match UniqueValid(w, k.uid)
    case None => []
    case Some(t) => RequirementEdges(w, t, RequirementsOf(w, k))
  }

  function CapabilitiesOf(w: World, uid: string): seq<Capability> {
    match UniqueValid(w, uid)
    case None => []
    case Some(t) => match ContractOf(w.contracts, t) case None => [] case Some(c) => c.capabilities
  }

  /** All capabilities of all valid targets. */
  function Nodes(w: World): set<CapKey> {
    set uid, cp | uid in w.ok && cp in CapabilitiesOf(w, uid) :: CapKey(uid, cp.typ.name)
  }

  function CapGraph(w: World): Graph<CapKey> {
    map k | k in Nodes(w) :: Edges(w, k)
  }

  lemma InNodes(w: World, k: CapKey)
    requires WorldOk(w)
    ensures k in Nodes(w) <==> k.uid in w.ok && FindCapability(ContractOf(w.contracts, UniqueValid(w, k.uid).value).value, k.name).Some?
  {
    OkTarget(w, k.uid);
    if k.uid in w.ok {
      var c := ContractOf(w.contracts, UniqueValid(w, k.uid).value).value;
      if k in Nodes(w) {
        var cp :| cp in CapabilitiesOf(w, k.uid) && cp.typ.name == k.name;
        assert cp in c.capabilities;
      }
      if FindCapability(c, k.name).Some? {
        assert FindCapability(c, k.name).value in CapabilitiesOf(w, k.uid);
      }
    }
  }

  lemma RequirementIsOk(w: World, k: CapKey, r: Requirement)
    requires WorldOk(w) && k in Nodes(w) && r in RequirementsOf(w, k)
    ensures UniqueValid(w, k.uid).Some? && ContractOf(w.contracts, UniqueValid(w, k.uid).value).Some?
    ensures RequirementOk(ContractOf(w.contracts, UniqueValid(w, k.uid).value).value, r)
  {
    hide RequirementOk;
    InNodes(w, k);
    OkTarget(w, k.uid);
    var c := ContractOf(w.contracts, UniqueValid(w, k.uid).value).value;
    assert FindCapability(c, k.name).value in c.capabilities;
  }

  lemma DependencyInNodes(w: World, t: Target, d: DependencyRequirement)
    requires WorldOk(w)
    ensures var to := ResolveDependency(w, t, d); to.LeadsTo? ==> to.key in Nodes(w)
  {
    var to := ResolveDependency(w, t, d);
    if to.LeadsTo? {
      var dt := UniqueValid(w, to.key.uid).value;
      OkTarget(w, to.key.uid);
      var dc := ContractOf(w.contracts, dt).value;
      assert FindCapabilityByType(dc, d.capability).value in CapabilitiesOf(w, to.key.uid);
    }
  }

  lemma EdgeInNodes(w: World, k: CapKey, r: Requirement, m: CapKey)
    requires WorldOk(w) && k in Nodes(w) && r in RequirementsOf(w, k)
    requires UniqueValid(w, k.uid).Some? && m in RequirementEdge(w, UniqueValid(w, k.uid).value, r)
    ensures m in Nodes(w)
  {
    hide Nodes, RequirementsOf, ResolveDependency, WorldOk, ContractOf, UniqueValid;
    RequirementIsOk(w, k, r);
    InNodes(w, k);
    if r.localCapability == "" {
      DependencyInNodes(w, UniqueValid(w, k.uid).value, r.dependency.value);
    } else {
      InNodes(w, m);
    }
  }

  lemma GraphClosed(w: World)
    requires WorldOk(w)
    ensures Closed(CapGraph(w), Nodes(w))
    ensures forall k :: Succ(CapGraph(w), k) == if k in Nodes(w) then Edges(w, k) else []
  {
    forall k, m | k in Nodes(w) && m in Succ(CapGraph(w), k)
      ensures m in Nodes(w)
    {
      InNodes(w, k);
      var t := UniqueValid(w, k.uid).value;
      var r :| r in RequirementsOf(w, k) && m in RequirementEdge(w, t, r);
      EdgeInNodes(w, k, r, m);
    }
  }

  /** r is a requirement of the one capability of that name, of the contract
      of the one valid target with that UID. */
  ghost predicate Requires(w: World, k: CapKey, r: Requirement) {
    exists t, c, cp ::
      && OneValid(w, k.uid, t) && OneContract(w, t.contractRef, c)
      && cp in c.capabilities && cp.typ.name == k.name && r in cp.requirements
  }

  lemma RequirementsMeaning(w: World, k: CapKey, r: Requirement)
    requires WorldOk(w)
    ensures r in RequirementsOf(w, k) <==> Requires(w, k, r)
  {
    hide OneValid, OneContract, UniqueValid, ContractOf, WithUid, WellFormed, FindCapability;
    OneValidMeaning(w, k.uid);
    OkTarget(w, k.uid);
    hide WorldOk, Resolves;
    var t := UniqueValid(w, k.uid);
    if t.Some? {
      OneContractMeaning(w, t.value);
      var c := ContractOf(w.contracts, t.value).value;
      LookupUnique(c);
      FoundByName(c, k.name);
    }
  }

  lemma FoundByName(c: Contract, name: string)
    ensures FindCapability(c, name).Some? <==> exists cp :: cp in c.capabilities && cp.typ.name == name
    ensures FindCapability(c, name).Some? ==> FindCapability(c, name).value in c.capabilities && FindCapability(c, name).value.typ.name == name
  {
  }

  /** The edges of the capability graph: the capabilities of the same target
      that requirements name, and where the dependencies lead. */
  lemma EdgesMeaning(w: World, k: CapKey, m: CapKey)
    requires WorldOk(w) && k in Nodes(w)
    ensures m in Edges(w, k) <==>
      exists t, r :: OneValid(w, k.uid, t) && Requires(w, k, r) && (
        || (r.localCapability != "" && m == CapKey(k.uid, r.localCapability))
        || (r.dependency.Some? && Follows(w, t, r.dependency.value, m)))
  {
    hide OneValid, UniqueValid, ContractOf, WithUid, ResolveDependency, Follows, Requires, RequirementsOf, Nodes, WorldOk;
    OneValidMeaning(w, k.uid);
    UidMeaning(w, k.uid);
    InNodes(w, k);
    OkTarget(w, k.uid);
    var t := UniqueValid(w, k.uid).value;
    assert OneValid(w, k.uid, t);
    forall r ensures r in RequirementsOf(w, k) <==> Requires(w, k, r) {
      RequirementsMeaning(w, k, r);
    }
    forall r | r in RequirementsOf(w, k)
      ensures m in RequirementEdge(w, t, r) <==>
        (r.localCapability != "" && m == CapKey(k.uid, r.localCapability)) || (r.dependency.Some? && Follows(w, t, r.dependency.value, m))
    {
      RequirementIsOk(w, k, r);
      if r.dependency.Some? {
        DependencyMeaning(w, t, r.dependency.value, m);
      }
    }
  }

  // ── cycle rejection ───────────────────────────────────────────────────────

  /** The target owns a capability that depends on itself through one or more edges. */
  ghost predicate OwnsCycle(w: World, uid: string) {
    exists k :: k in Nodes(w) && k.uid == uid && OnCycle(CapGraph(w), k)
  }

  /** The world after cycle rejection, said without any traversal. */
  ghost function Rejected(w: World): World {
    World(w.targets, w.contracts, set uid | uid in w.ok && !OwnsCycle(w, uid))
  }

  predicate Owns(scc: seq<CapKey>, uid: string) {
    exists k :: k in scc && k.uid == uid
  }

  /** `rejectCycles`: whatever order the nodes are visited in, exactly the
      targets that own a capability on a cycle become invalid, and each
      component blamed is a whole strongly connected component. */
  method RejectCycles(w: World, order: seq<CapKey>) returns (cyclic: seq<seq<CapKey>>, ok: set<string>)
    requires WorldOk(w)
    requires forall k :: k in order <==> k in Nodes(w)
    ensures World(w.targets, w.contracts, ok) == Rejected(w)
    ensures forall uid :: uid in w.ok ==> (uid !in ok <==> exists scc :: scc in cyclic && Owns(scc, uid))
    ensures forall scc :: scc in cyclic ==> Tarjan.IsComponent(CapGraph(w), scc)
    ensures forall k :: k in Nodes(w) ==> (Tarjan.Listed(cyclic, k) <==> OnCycle(CapGraph(w), k))
  {
    hide CapGraph, Nodes, OnCycle, Tarjan.IsComponent;
    GraphClosed(w);
    var search := new Tarjan.Search<CapKey>(CapGraph(w), Nodes(w));
    search.Run(order);
    cyclic := search.cyclic;
    var bad: set<string> := {};
    for i := 0 to |cyclic|
      invariant forall uid :: uid in bad <==> exists scc :: scc in cyclic[..i] && Owns(scc, uid)
    {
      assert cyclic[..i + 1] == cyclic[..i] + [cyclic[i]];
      var owners := set k | k in cyclic[i] :: k.uid;
      assert forall uid :: uid in owners <==> Owns(cyclic[i], uid);
      bad := bad + owners;
    }
    assert cyclic[..|cyclic|] == cyclic;
    ok := w.ok - bad;
    ListedOwn(w, cyclic, bad);
  }

  lemma ListedOwn(w: World, cyclic: seq<seq<CapKey>>, bad: set<string>)
    requires WorldOk(w)
    requires forall uid :: uid in bad <==> exists scc :: scc in cyclic && Owns(scc, uid)
    requires forall k :: k in Nodes(w) ==> (Tarjan.Listed(cyclic, k) <==> OnCycle(CapGraph(w), k))
    requires forall k :: Tarjan.Listed(cyclic, k) ==> OnCycle(CapGraph(w), k)
    ensures World(w.targets, w.contracts, w.ok - bad) == Rejected(w)
  {
    hide Edges, CapabilitiesOf, UniqueValid, Reaches;
    forall uid | uid in w.ok
      ensures uid in bad <==> OwnsCycle(w, uid)
    {
      if uid in bad {
        var scc :| scc in cyclic && Owns(scc, uid);
        var k :| k in scc && k.uid == uid;
        assert Tarjan.Listed(cyclic, k);
        assert OnCycle(CapGraph(w), k);
        assert k in Nodes(w) by {
          assert k !in CapGraph(w) ==> Succ(CapGraph(w), k) == [];
        }
      }
      if OwnsCycle(w, uid) {
        var k :| k in Nodes(w) && k.uid == uid && OnCycle(CapGraph(w), k);
        assert Tarjan.Listed(cyclic, k);
        var scc :| scc in cyclic && k in scc;
        assert Owns(scc, uid);
      }
    }
    assert (w.ok - bad) == Rejected(w).ok;
  }

  // ── after rejection ───────────────────────────────────────────────────────

  /** A world fit for evaluation: its capability graph has no cycle. */
  ghost predicate Sane(w: World) {
    WorldOk(w) && Acyclic(CapGraph(w))
  }

  lemma RejectedWorldOk(w: World)
    requires WorldOk(w)
    ensures WorldOk(Rejected(w))
    ensures forall uid :: UniqueValid(Rejected(w), uid) == if uid in Rejected(w).ok then UniqueValid(w, uid) else None
  {
  }

  lemma RejectedRequirementEdge(w: World, t: Target, r: Requirement, m: CapKey)
    requires WorldOk(w) && m in RequirementEdge(Rejected(w), t, r)
    ensures m in RequirementEdge(w, t, r)
  {
    RejectedWorldOk(w);
  }

  /** A node that stays keeps its target and requirements. */
  lemma RejectedNode(w: World, k: CapKey)
    requires WorldOk(w) && k in Nodes(Rejected(w))
    ensures k in Nodes(w) && UniqueValid(w, k.uid).Some? && UniqueValid(Rejected(w), k.uid) == UniqueValid(w, k.uid)
    ensures RequirementsOf(Rejected(w), k) == RequirementsOf(w, k)
  {
    hide FindCapability, ContractOf, OwnsCycle, Nodes, Resolves, WithUid;
    var w' := Rejected(w);
    RejectedWorldOk(w);
    InNodes(w', k);
    InNodes(w, k);
    OkTarget(w, k.uid);
    OkTarget(w', k.uid);
  }

  lemma EdgesAre(w: World, k: CapKey, m: CapKey)
    requires UniqueValid(w, k.uid).Some? && k in Nodes(w)
    ensures m in Succ(CapGraph(w), k) <==> exists r :: r in RequirementsOf(w, k) && m in RequirementEdge(w, UniqueValid(w, k.uid).value, r)
  {
    hide RequirementEdge, RequirementsOf, UniqueValid, Nodes;
  }

  lemma RejectedEdge(w: World, k: CapKey, m: CapKey)
    requires WorldOk(w) && m in Succ(CapGraph(Rejected(w)), k)
    ensures k in Nodes(Rejected(w)) && k in Nodes(w) && m in Succ(CapGraph(w), k)
  {
    var w' := Rejected(w);
    OnlyNodes(w', k, m);
    hide RequirementEdge, FindCapability, ContractOf, OwnsCycle, Nodes, CapGraph, RequirementsOf, UniqueValid, WorldOk, Rejected;
    RejectedNode(w, k);
    EdgesAre(w', k, m);
    EdgesAre(w, k, m);
    var t := UniqueValid(w', k.uid).value;
    var r :| r in RequirementsOf(w', k) && m in RequirementEdge(w', t, r);
    RejectedRequirementEdge(w, t, r, m);
  }

  lemma OnlyNodes(w: World, k: CapKey, m: CapKey)
    requires m in Succ(CapGraph(w), k)
    ensures k in Nodes(w)
  {
    hide Nodes, Edges;
  }

  /** Rejecting the owners of cycles leaves no cycle at all: evaluation terminates. */
  lemma RejectedIsSane(w: World)
    requires WorldOk(w)
    ensures Sane(Rejected(w))
  {
    hide Nodes, CapGraph, WorldOk;
    var w' := Rejected(w);
    RejectedWorldOk(w);
    forall k, m | m in Succ(CapGraph(w'), k)
      ensures m in Succ(CapGraph(w), k)
    {
      RejectedEdge(w, k, m);
    }
    forall k ensures !OnCycle(CapGraph(w'), k) {
      if OnCycle(CapGraph(w'), k) {
        var m :| m in Succ(CapGraph(w'), k) && Reaches(CapGraph(w'), m, k);
        RejectedEdge(w, k, m);
        SubgraphReaches(CapGraph(w'), CapGraph(w), m, k);
        assert OnCycle(CapGraph(w), k);
        InNodes(w', k);
      }
    }
  }
}
