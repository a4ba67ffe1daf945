/** The operator's view of the declared responses, and the level it leads to
    (pkg/interaction/project.go). It tells responses apart on its own, without
    the proposals of the action engine. */
module Interaction {
  import opened Wrappers
  import opened OpsTypes
  import opened Profiles
  import A = ActionTypes
  import opened Proposals

  datatype Status = Ready | ApprovalRequired | SafetyUnproven | OwnerUndeclared | OwnerConflict | Inapplicable

  /** A response as displayed for one target. Sorted lists are multisets. */
  datatype Shown = Shown(
    action: ActionRef, for_: CapabilityType, owner: string, requiresApproval: bool,
    risks: multiset<string>, preconditions: multiset<A.Precondition>, status: Status)

  // ── what is shown ─────────────────────────────────────────────────────────

  function ProofsOf(caps: map<CapabilityType, CapabilityState>, cs: seq<CapabilityType>): seq<A.Precondition> {
    if cs == [] then [] else ProofsOf(caps, cs[..|cs| - 1]) + [A.Precondition(ProofOf(caps, cs[|cs| - 1]), cs[|cs| - 1])]
  }

  /** The status before owners are compared. */
  function OwnStatus(caps: map<CapabilityType, CapabilityState>, r: Response): Status {
    if exists c :: c in r.preconditions && ProofOf(caps, c) == A.Unmet then Status.Inapplicable
    else if r.owner == "" then OwnerUndeclared
    else if exists c :: c in r.preconditions && ProofOf(caps, c) == A.Unproven then SafetyUnproven
    else if r.requiresApproval || r.risks != [] then ApprovalRequired
    else Ready
  }

  function OwnShown(caps: map<CapabilityType, CapabilityState>, r: Response): Shown {
    Shown(r.action, r.for_, r.owner, r.requiresApproval, multiset(r.risks), multiset(ProofsOf(caps, r.preconditions)), OwnStatus(caps, r))
  }

  function Relabelled(x: Shown, ownersDiffer: bool): Shown {
    if ownersDiffer && x.status != Status.Inapplicable then x.(status := OwnerConflict) else x
  }

  /** Declaration r as it is displayed among the declarations rs. */
  ghost function ShownOf(t: TargetIdentity, caps: map<CapabilityType, CapabilityState>, rs: seq<Response>, r: Response): Shown {
    Relabelled(OwnShown(caps, r), OwnersDiffer(t, caps, rs, r))
  }

  /** Everything displayed for capability k. */
  ghost function ShownSet(t: TargetIdentity, caps: map<CapabilityType, CapabilityState>, rs: seq<Response>, k: CapabilityType): set<Shown> {
    set r | r in rs && Triggered(t, caps, r) && r.for_ == k :: ShownOf(t, caps, rs, r)
  }

  ghost function OwnShownSet(t: TargetIdentity, caps: map<CapabilityType, CapabilityState>, rs: seq<Response>, k: CapabilityType): set<Shown> {
    set r | r in rs && Triggered(t, caps, r) && r.for_ == k :: OwnShown(caps, r)
  }

  function ListAt(m: map<CapabilityType, seq<Shown>>, k: CapabilityType): seq<Shown> {
    if k in m then m[k] else []
  }

  ghost function Elements(xs: seq<Shown>): set<Shown> {
    set x | x in xs
  }

  // ── declared ──────────────────────────────────────────────────────────────

  /** The preconditions, each with its proof state, and whether any falls short. */
  method Prove(caps: map<CapabilityType, CapabilityState>, cs: seq<CapabilityType>)
    returns (pre: seq<A.Precondition>, unproven: bool, unmet: bool)
    ensures pre == ProofsOf(caps, cs)
    ensures unproven <==> exists c :: c in cs && ProofOf(caps, c) == A.Unproven
    ensures unmet <==> exists c :: c in cs && ProofOf(caps, c) == A.Unmet
  {
    hide ProofOf;
    pre, unproven, unmet := [], false, false;
    for i := 0 to |cs|
      invariant pre == ProofsOf(caps, cs[..i])
      invariant unproven <==> exists j :: 0 <= j < i && ProofOf(caps, cs[j]) == A.Unproven
      invariant unmet <==> exists j :: 0 <= j < i && ProofOf(caps, cs[j]) == A.Unmet
    {
      assert cs[..i + 1][..i] == cs[..i];
      var proof := ProofOf(caps, cs[i]);
      unproven := unproven || proof == A.Unproven;
      unmet := unmet || proof == A.Unmet;
      pre := pre + [A.Precondition(proof, cs[i])];
    }
    assert cs[..|cs|] == cs;
  }

  /** One response, displayed on its own. */
  method Display(caps: map<CapabilityType, CapabilityState>, r: Response) returns (x: Shown)
    ensures x == OwnShown(caps, r)
  {
    hide ProofOf, ProofsOf;
    var pre, unproven, unmet := Prove(caps, r.preconditions);
    var status := Ready;
    if unmet {
      status := Status.Inapplicable;
    } else if r.owner == "" {
      status := OwnerUndeclared;
    } else if unproven {
      status := SafetyUnproven;
    } else if r.requiresApproval || r.risks != [] {
      status := ApprovalRequired;
    }
    x := Shown(r.action, r.for_, r.owner, r.requiresApproval, multiset(r.risks), multiset(pre), status);
  }

  lemma OneMoreShown(t: TargetIdentity, caps: map<CapabilityType, CapabilityState>, rs: seq<Response>, r: Response)
    ensures forall k :: OwnShownSet(t, caps, rs + [r], k)
                        == OwnShownSet(t, caps, rs, k) + if Triggered(t, caps, r) && r.for_ == k then {OwnShown(caps, r)} else {}
  {
    hide Triggered, OwnShown;
  }

  /** The pass over the profile: what triggers, by capability, and its owners. */
  method Collect(t: TargetIdentity, caps: map<CapabilityType, CapabilityState>, rs: seq<Response>)
    returns (raw: map<CapabilityType, seq<Shown>>, owners: map<ActionFor, set<string>>)
    ensures forall k :: Elements(ListAt(raw, k)) == OwnShownSet(t, caps, rs, k)
    ensures forall k, x :: x in ListAt(raw, k) ==> x.for_ == k
    ensures forall a :: At(owners, a) == Owners(t, caps, rs, a)
  {
    hide Triggered, OwnShown, OwnShownSet, Owners, Viable, Contracts, Elements;
    raw, owners := map[], map[];
    NothingShown(t, caps);
    assert rs[..0] == [];
    for i := 0 to |rs|
      invariant forall k :: Elements(ListAt(raw, k)) == OwnShownSet(t, caps, rs[..i], k)
      invariant forall k, x :: x in ListAt(raw, k) ==> x.for_ == k
      invariant forall a :: At(owners, a) == Owners(t, caps, rs[..i], a)
    {
      var r := rs[i];
      assert rs[..i + 1] == rs[..i] + [r];
      OneMoreShown(t, caps, rs[..i], r);
      OneMore(t, caps, rs[..i], r);
      if Triggered(t, caps, r) {
        raw, owners := CollectOne(caps, r, raw, owners);
      }
    }
    assert rs[..|rs|] == rs;
  }

  /** One triggered declaration more. */
  method CollectOne(caps: map<CapabilityType, CapabilityState>, r: Response, raw: map<CapabilityType, seq<Shown>>, owners: map<ActionFor, set<string>>)
    returns (raw': map<CapabilityType, seq<Shown>>, owners': map<ActionFor, set<string>>)
    ensures forall k :: Elements(ListAt(raw', k)) == Elements(ListAt(raw, k)) + if r.for_ == k then {OwnShown(caps, r)} else {}
    ensures (forall k, x :: x in ListAt(raw, k) ==> x.for_ == k) ==> forall k, x :: x in ListAt(raw', k) ==> x.for_ == k
    ensures forall a :: At(owners', a) == At(owners, a) + if ActionFor(r.for_, r.action) == a then {r.owner} else {}
  {
    var x := Display(caps, r);
    var a := ActionFor(r.for_, r.action);
    owners' := owners[a := At(owners, a) + {r.owner}];
    ElementsAppend(ListAt(raw, r.for_), x);
    raw' := raw[r.for_ := ListAt(raw, r.for_) + [x]];
  }

  lemma NothingShown(t: TargetIdentity, caps: map<CapabilityType, CapabilityState>)
    ensures forall k :: OwnShownSet(t, caps, [], k) == {}
    ensures forall a :: Owners(t, caps, [], a) == {}
    ensures Elements([]) == {}
  {
  }

  lemma ElementsAppend(xs: seq<Shown>, x: Shown)
    ensures Elements(xs + [x]) == Elements(xs) + {x}
  {
  }

  /** Owner conflicts are marked, then `dedupResponses` drops what was shown before. */
  method Finish(raw: seq<Shown>, owners: map<ActionFor, set<string>>) returns (out: seq<Shown>)
    ensures Elements(out) == set x | x in raw :: Relabelled(x, |At(owners, ActionFor(x.for_, x.action))| > 1)
    ensures Distinct(out)
  {
    hide Relabelled;
    out := [];
    for i := 0 to |raw|
      invariant Elements(out) == set x | x in raw[..i] :: Relabelled(x, |At(owners, ActionFor(x.for_, x.action))| > 1)
      invariant Distinct(out)
    {
      assert raw[..i + 1] == raw[..i] + [raw[i]];
      var x := Relabelled(raw[i], |At(owners, ActionFor(raw[i].for_, raw[i].action))| > 1);
      if x !in out {
        ElementsAppend(out, x);
        out := out + [x];
      }
    }
    assert raw[..|raw|] == raw;
  }

  /** `declared`: for every capability exactly the triggered declarations, each
      displayed once. */
  method Declared(t: TargetIdentity, caps: map<CapabilityType, CapabilityState>, profile: Option<Profile>)
    returns (out: map<CapabilityType, seq<Shown>>)
    ensures profile.None? ==> out == map[]
    ensures profile.Some? ==> forall k :: Elements(ListAt(out, k)) == ShownSet(t, caps, profile.value.responses, k)
    ensures forall k :: Distinct(ListAt(out, k))
  {
    out := map[];
    if profile.None? {
      return;
    }
    hide Relabelled, OwnShownSet, ShownSet, Owners;
    var rs := profile.value.responses;
    var raw, owners := Collect(t, caps, rs);
    var left := raw.Keys;
    while left != {}
      invariant left <= raw.Keys && out.Keys == raw.Keys - left
      invariant forall k :: k in out ==> Elements(out[k]) == ShownSet(t, caps, rs, k) && Distinct(out[k])
    {
      var k :| k in left;
      var shown := Finish(raw[k], owners);
      RelabelledAll(t, caps, rs, k, raw[k], owners);
      out := out[k := shown];
      left := left - {k};
    }
    forall k | k !in out ensures ShownSet(t, caps, rs, k) == {} {
      assert ListAt(raw, k) == [] && Elements(ListAt(raw, k)) == {};
      ShownNothing(t, caps, rs, k);
    }
  }

  lemma RelabelledAll(t: TargetIdentity, caps: map<CapabilityType, CapabilityState>, rs: seq<Response>, k: CapabilityType,
                      raw: seq<Shown>, owners: map<ActionFor, set<string>>)
    requires Elements(raw) == OwnShownSet(t, caps, rs, k)
    requires forall a :: At(owners, a) == Owners(t, caps, rs, a)
    ensures (set x | x in raw :: Relabelled(x, |At(owners, ActionFor(x.for_, x.action))| > 1)) == ShownSet(t, caps, rs, k)
  {
    hide Owners, Triggered, Relabelled, OwnStatus;
    var out := set x | x in raw :: Relabelled(x, |At(owners, ActionFor(x.for_, x.action))| > 1);
    forall y | y in out ensures y in ShownSet(t, caps, rs, k) {
      var x :| x in Elements(raw) && y == Relabelled(x, |At(owners, ActionFor(x.for_, x.action))| > 1);
      var r :| r in rs && Triggered(t, caps, r) && r.for_ == k && x == OwnShown(caps, r);
    }
    forall y | y in ShownSet(t, caps, rs, k) ensures y in out {
      var r :| r in rs && Triggered(t, caps, r) && r.for_ == k && y == ShownOf(t, caps, rs, r);
      assert OwnShown(caps, r) in Elements(raw);
    }
  }

  lemma ShownNothing(t: TargetIdentity, caps: map<CapabilityType, CapabilityState>, rs: seq<Response>, k: CapabilityType)
    ensures OwnShownSet(t, caps, rs, k) == {} ==> ShownSet(t, caps, rs, k) == {}
  {
    hide Triggered, OwnShown;
    if ShownSet(t, caps, rs, k) != {} {
      var y :| y in ShownSet(t, caps, rs, k);
      var r :| r in rs && Triggered(t, caps, r) && r.for_ == k;
      assert OwnShown(caps, r) in OwnShownSet(t, caps, rs, k);
    }
  }

  // ── the level ─────────────────────────────────────────────────────────────

  datatype Level = NoAction | Awareness | DecisionRequired | ImmediateIntervention {
    function Rank(): nat {
      match this
      case NoAction => 0
      case Awareness => 1
      case DecisionRequired => 2
      case ImmediateIntervention => 3
    }

    function Max(other: Level): Level {
      if other.Rank() > Rank() then other else this
    }
  }

  datatype LevelCode =
    | ImpactFromDependency | NoDeclaredResponse | NoSafePath | NoViableResponse | NoPriority
    | ResponseReady | NeedsApproval | SafetyNotProven | NoOwner | OwnersConflict

  datatype HumanNeed = NeedFor(code: LevelCode, capability: CapabilityType) | NeedOf(code: LevelCode, action: ActionRef)

  const STATUS_REASON_BOUND := 40

  predicate NamesDependency(c: ReasonCode) {
    c == DependencyUnmet || c == DependencyUnbound || c == DependencyTargetMissing || c == DependencyTargetInvalid
    || c == DependencyContractMismatch || c == DependencyCapabilityAbsent || c == DependencyUnknown
  }

  /** `fromDependencyOnly`: a list that may have been cut proves nothing. */
  predicate FromDependencyOnly(codes: seq<ReasonCode>) {
    0 < |codes| < STATUS_REASON_BOUND && forall c :: c in codes ==> NamesDependency(c)
  }

  /** A whole list of reasons, all of them about a dependency. */
  ghost predicate OnlyDependencies(codes: seq<ReasonCode>) {
    && 1 <= |codes| <= 39
    && forall c :: c in codes ==> c in {DependencyUnmet, DependencyUnknown, DependencyUnbound, DependencyTargetMissing, DependencyTargetInvalid,
                                        DependencyContractMismatch, DependencyCapabilityAbsent}
  }

  lemma OnlyDependenciesMeans(codes: seq<ReasonCode>)
    ensures FromDependencyOnly(codes) <==> OnlyDependencies(codes)
  {
  }

  function ViableOf(xs: seq<Shown>): seq<Shown> {
    Filter(xs, (x: Shown) => x.status != Status.Inapplicable)
  }

  predicate Affected(s: CapabilityState) {
    s == Degraded || s == Unavailable
  }

  /** How far one capability's declared responses raise the level. */
  function BoundaryLevel(state: CapabilityState, xs: seq<Shown>): Level {
    var viable := ViableOf(xs);
    if xs == [] then (if Affected(state) then Awareness else NoAction)
    else if viable == [] then (if state == Unavailable then ImmediateIntervention else DecisionRequired)
    else if |viable| == 1 && viable[0].status == Ready then Awareness
    else DecisionRequired
  }

  lemma BoundaryOfViable(state: CapabilityState, xs: seq<Shown>)
    requires ViableOf(xs) != []
    ensures xs != []
    ensures BoundaryLevel(state, xs) == if |ViableOf(xs)| == 1 && ViableOf(xs)[0].status == Ready then Awareness else DecisionRequired
  {
  }

  /** How far the level rises: to intervention exactly when an UNAVAILABLE
      capability has declared responses and all are inapplicable; not at all
      when nothing is declared and nothing is known to be wrong; to awareness
      for one response that is ready and the only viable one, or for a known
      impact without any declaration; and to a decision in every other case. */
  lemma BoundaryMeaning(state: CapabilityState, xs: seq<Shown>)
    ensures var wrong := state == Degraded || state == Unavailable;
      var none := forall x :: x in xs ==> x.status == Status.Inapplicable;
      var sole := exists i :: 0 <= i < |xs| && xs[i].status == Ready && forall j :: 0 <= j < |xs| && j != i ==> xs[j].status == Status.Inapplicable;
      && (BoundaryLevel(state, xs) == ImmediateIntervention <==> state == Unavailable && xs != [] && none)
      && (BoundaryLevel(state, xs) == NoAction <==> xs == [] && !wrong)
      && (BoundaryLevel(state, xs) == Awareness <==> (xs == [] && wrong) || sole)
      && (BoundaryLevel(state, xs) == DecisionRequired <==> xs != [] && !sole && !(none && state == Unavailable))
  {
    var p := (x: Shown) => x.status != Status.Inapplicable;
    FilterNone(xs, p);
    SoleViable(xs);
    if i :| 0 <= i < |xs| && xs[i].status == Ready {
      assert xs[i] in xs;
    }
  }

  lemma SoleViable(xs: seq<Shown>)
    ensures |ViableOf(xs)| == 1 && ViableOf(xs)[0].status == Ready <==>
      exists i :: 0 <= i < |xs| && xs[i].status == Ready && forall j :: 0 <= j < |xs| && j != i ==> xs[j].status == Status.Inapplicable
  {
    var p := (x: Shown) => x.status != Status.Inapplicable;
    var viable := ViableOf(xs);
    if |viable| == 1 {
      assert viable == [viable[0]];
      FilterOne(xs, p, viable[0]);
      var i :| OnlyAt(xs, p, i) && xs[i] == viable[0];
    }
    if i :| 0 <= i < |xs| && xs[i].status == Ready && forall j :: 0 <= j < |xs| && j != i ==> xs[j].status == Status.Inapplicable {
      assert OnlyAt(xs, p, i);
      FilterOne(xs, p, xs[i]);
    }
  }

  /** The four levels in their order: the highest raised stays. */
  lemma HighestStays(l: Level, m: Level)
    ensures l.Max(m) == ImmediateIntervention <==> l == ImmediateIntervention || m == ImmediateIntervention
    ensures l.Max(m) == NoAction <==> l == NoAction && m == NoAction
    ensures l.Max(m) == Awareness <==> (l == Awareness && (m == NoAction || m == Awareness)) || (m == Awareness && l == NoAction)
  {
  }

  /** What each displayed status says of the declaration and the capabilities
      of the target. */
  lemma StatusMeaning(caps: map<CapabilityType, CapabilityState>, r: Response, ownersDiffer: bool)
    ensures var st := Relabelled(OwnShown(caps, r), ownersDiffer).status;
      var unmet := exists c :: c in r.preconditions && c in caps && (caps[c] == Degraded || caps[c] == Unavailable);
      var proven := forall c :: c in r.preconditions ==> c in caps && caps[c] == Available;
      var asks := r.requiresApproval || r.risks != [];
      && (st == Status.Inapplicable <==> unmet)
      && (st == OwnerConflict <==> !unmet && ownersDiffer)
      && (st == OwnerUndeclared <==> !unmet && !ownersDiffer && r.owner == "")
      && (st == SafetyUnproven <==> !unmet && !ownersDiffer && r.owner != "" && !proven)
      && (st == ApprovalRequired <==> proven && !ownersDiffer && r.owner != "" && asks)
      && (st == Ready <==> proven && !ownersDiffer && r.owner != "" && !asks)
  {
  }

  /** Some response needs a person. */
  ghost predicate Needy(xs: seq<Shown>) {
    exists x :: x in xs && x.status != Ready
  }

  lemma NeedyMore(xs: seq<Shown>, x: Shown)
    ensures !Needy([]) && (Needy(xs + [x]) <==> Needy(xs) || x.status != Ready)
    ensures xs == [] ==> xs + [x] == [x]
  {
    if Needy(xs) {
      var y :| y in xs && y.status != Ready;
      assert y in xs + [x];
    }
    assert x in xs + [x];
  }

  /** What a person is needed for: each viable response that is not ready, by its action. */
  function NeedOne(x: Shown): seq<HumanNeed> {
    if x.status == Ready || x.status == Status.Inapplicable then [] else [NeedOf(CodeOf(x.status), x.action)]
  }

  function NeedsOf(xs: seq<Shown>): seq<HumanNeed> {
    if xs == [] then [] else NeedsOf(xs[..|xs| - 1]) + NeedOne(xs[|xs| - 1])
  }

  /** Everything a person is asked for about one capability. */
  function HumanFor(c: CapabilityType, state: CapabilityState, xs: seq<Shown>): seq<HumanNeed> {
    var viable := ViableOf(xs);
    if xs == [] then []
    else if viable == [] then [NeedFor(if state == Unavailable then NoSafePath else NoViableResponse, c)]
    else (if |viable| > 1 then [NeedFor(NoPriority, c)] else []) + NeedsOf(viable)
  }

  lemma NeedsMore(xs: seq<Shown>, x: Shown)
    ensures NeedsOf([]) == [] && NeedsOf(xs + [x]) == NeedsOf(xs) + NeedOne(x)
  {
    assert (xs + [x])[..|xs|] == xs;
  }

  /** The response asks for a person, for the reason its status gives. */
  ghost predicate Asks(x: Shown, n: HumanNeed) {
    && n.NeedOf? && n.action == x.action
    && ((x.status == ApprovalRequired && n.code == NeedsApproval) || (x.status == SafetyUnproven && n.code == SafetyNotProven)
        || (x.status == OwnerUndeclared && n.code == NoOwner) || (x.status == OwnerConflict && n.code == OwnersConflict))
  }

  lemma NeedMeaning(x: Shown)
    ensures forall n :: n in NeedOne(x) <==> Asks(x, n)
    ensures x.status != Status.Inapplicable ==> (NeedOne(x) == [] <==> x.status == Ready)
  {
  }

  /** Each of them is asked for, and nothing else is. */
  lemma {:induction false} NeedsMeaning(xs: seq<Shown>)
    ensures forall n :: n in NeedsOf(xs) <==> exists x :: x in xs && Asks(x, n)
    ensures (forall x :: x in xs ==> x.status != Status.Inapplicable) ==> (NeedsOf(xs) == [] <==> !Needy(xs))
  {
    hide NeedOne, Asks;
    if xs != [] {
      var init, x := xs[..|xs| - 1], xs[|xs| - 1];
      NeedsMeaning(init);
      NeedMeaning(x);
      assert xs == init + [x];
      NeedyMore(init, x);
      forall n ensures n in NeedsOf(xs) <==> exists y :: y in xs && Asks(y, n) {
        assert x in xs;
        assert n in NeedsOf(xs) <==> n in NeedsOf(init) || n in NeedOne(x);
      }
    }
  }

  function WeightOf(x: Shown, sole: bool): Level {
    if x.status != Ready then DecisionRequired else if sole then Awareness else NoAction
  }

  /** How far the first i viable responses raise the level. */
  ghost function Weight(viable: seq<Shown>, i: nat): Level
    requires i <= |viable|
  {
    if i > 0 && |viable| == 1 && viable[0].status == Ready then Awareness
    else if Needy(viable[..i]) then DecisionRequired else NoAction
  }

  lemma WeightStart(l: Level, viable: seq<Shown>)
    ensures l.Max(Weight(viable, 0)) == l
  {
  }

  lemma WeightMore(l: Level, viable: seq<Shown>, i: nat)
    requires i < |viable|
    ensures l.Max(Weight(viable, i)).Max(WeightOf(viable[i], |viable| == 1)) == l.Max(Weight(viable, i + 1))
  {
    assert viable[..i + 1] == viable[..i] + [viable[i]];
    NeedyMore(viable[..i], viable[i]);
    hide Needy;
    if i > 0 {
      assert |viable| > 1;
    } else {
      assert viable[..0] == [];
    }
  }

  /** The whole loop raises the level to a decision, or to awareness for a sole ready response. */
  lemma WeightIs(l: Level, viable: seq<Shown>)
    requires viable != [] && forall x :: x in viable ==> x.status != Status.Inapplicable
    ensures |viable| > 1 ==> l.Max(DecisionRequired).Max(Weight(viable, |viable|)) == l.Max(DecisionRequired)
    ensures |viable| == 1 ==> Weight(viable, |viable|) == if viable[0].status == Ready then Awareness else DecisionRequired
  {
    assert viable[..|viable|] == viable;
    assert viable[0] in viable;
  }

  /** The reason each viable response gives. */
  function CodeOne(c: CapabilityType, x: Shown, sole: bool): seq<(LevelCode, CapabilityType)> {
    if x.status == Ready then (if sole then [(ResponseReady, c)] else [])
    else if x.status == Status.Inapplicable then [] else [(CodeOf(x.status), c)]
  }

  function CodesOf(c: CapabilityType, xs: seq<Shown>, sole: bool): seq<(LevelCode, CapabilityType)> {
    if xs == [] then [] else CodesOf(c, xs[..|xs| - 1], sole) + CodeOne(c, xs[|xs| - 1], sole)
  }

  lemma CodesMore(c: CapabilityType, xs: seq<Shown>, x: Shown, sole: bool)
    ensures CodesOf(c, [], sole) == [] && CodesOf(c, xs + [x], sole) == CodesOf(c, xs, sole) + CodeOne(c, x, sole)
  {
    assert (xs + [x])[..|xs|] == xs;
  }

  /** Everything that raises the level for one capability. */
  function ReasonsFor(c: CapabilityType, state: CapabilityState, codes: seq<ReasonCode>, xs: seq<Shown>): seq<(LevelCode, CapabilityType)> {
    var viable := ViableOf(xs);
    if xs == [] then
      if !Affected(state) then [] else [(if FromDependencyOnly(codes) then ImpactFromDependency else NoDeclaredResponse, c)]
    else if viable == [] then [(if state == Unavailable then NoSafePath else NoViableResponse, c)]
    else (if |viable| > 1 then [(NoPriority, c)] else []) + CodesOf(c, viable, |viable| == 1)
  }

  /** Which reason belongs to which status. */
  ghost predicate Gives(x: Shown, code: LevelCode, sole: bool) {
    || (x.status == ApprovalRequired && code == NeedsApproval) || (x.status == SafetyUnproven && code == SafetyNotProven)
    || (x.status == OwnerUndeclared && code == NoOwner) || (x.status == OwnerConflict && code == OwnersConflict)
    || (x.status == Ready && sole && code == ResponseReady)
  }

  lemma CodeMeaning(c: CapabilityType, x: Shown, sole: bool)
    ensures forall p :: p in CodeOne(c, x, sole) <==> p.1 == c && Gives(x, p.0, sole)
  {
  }

  lemma {:induction false} CodesMeaning(c: CapabilityType, xs: seq<Shown>, sole: bool)
    ensures forall p :: p in CodesOf(c, xs, sole) <==> p.1 == c && exists x :: x in xs && Gives(x, p.0, sole)
  {
    hide CodeOne, Gives;
    if xs != [] {
      var init, x := xs[..|xs| - 1], xs[|xs| - 1];
      CodesMeaning(c, init, sole);
      CodeMeaning(c, x, sole);
      assert xs == init + [x];
      forall p ensures p in CodesOf(c, xs, sole) <==> p.1 == c && exists y :: y in xs && Gives(y, p.0, sole) {
        assert x in xs;
        assert p in CodesOf(c, xs, sole) <==> p in CodesOf(c, init, sole) || p in CodeOne(c, x, sole);
      }
    }
  }

  lemma ViableMeans(xs: seq<Shown>)
    ensures ViableOf(xs) == [] <==> forall x :: x in xs ==> x.status == Status.Inapplicable
  {
    FilterNone(xs, (x: Shown) => x.status != Status.Inapplicable);
  }

  ghost predicate RaisedBy(state: CapabilityState, codes: seq<ReasonCode>, xs: seq<Shown>, code: LevelCode) {
    var none := forall x :: x in xs ==> x.status == Status.Inapplicable;
    || (code == ImpactFromDependency && xs == [] && (state == Degraded || state == Unavailable) && OnlyDependencies(codes))
    || (code == NoDeclaredResponse && xs == [] && (state == Degraded || state == Unavailable) && !OnlyDependencies(codes))
    || (code == NoSafePath && xs != [] && none && state == Unavailable)
    || (code == NoViableResponse && xs != [] && none && state != Unavailable)
    || (code == NoPriority && |ViableOf(xs)| > 1)
    || (exists x :: x in xs && Gives(x, code, |ViableOf(xs)| == 1))
  }

  /** What raises the level: an impact that comes from dependencies alone or has
      no declared response; no safe path, or no viable response; no priority
      among several; and of the viable ones, for each that is not ready why, and
      for a ready and sole one that it is. */
  lemma ReasonsMeaning(c: CapabilityType, state: CapabilityState, codes: seq<ReasonCode>, xs: seq<Shown>, p: (LevelCode, CapabilityType))
    ensures p in ReasonsFor(c, state, codes, xs) <==> p.1 == c && RaisedBy(state, codes, xs, p.0)
  {
    OnlyDependenciesMeans(codes);
    ViableMeans(xs);
    var v := ViableOf(xs);
    assert forall x :: x in v <==> x in xs && x.status != Status.Inapplicable;
    CodesMeaning(c, v, |v| == 1);
    hide OnlyDependencies, FromDependencyOnly, CodesOf, ViableOf;
  }

  lemma NeedsOfViable(xs: seq<Shown>)
    ensures var v := ViableOf(xs); NeedsOf(v) == [] <==> forall x :: x in v ==> x.status == Ready
  {
    var v := ViableOf(xs);
    assert forall x :: x in v ==> x.status != Status.Inapplicable;
    hide ViableOf, NeedsOf, Asks;
    NeedsMeaning(v);
  }

  /** A person is asked for exactly when the boundary is a decision or more. */
  lemma HumanIffDecision(c: CapabilityType, state: CapabilityState, xs: seq<Shown>)
    ensures HumanFor(c, state, xs) != [] <==> BoundaryLevel(state, xs) == DecisionRequired || BoundaryLevel(state, xs) == ImmediateIntervention
  {
    NeedsOfViable(xs);
    hide ViableOf, NeedsOf;
    var v := ViableOf(xs);
    if |v| == 1 {
      assert v[0] in v;
      assert forall x :: x in v ==> x == v[0];
    }
  }

  /** What for: the missing path, the missing priority, and each viable response
      that is not ready, by its action and for the reason its status gives. */
  lemma HumanMeaning(c: CapabilityType, state: CapabilityState, xs: seq<Shown>, n: HumanNeed)
    ensures n in HumanFor(c, state, xs) <==> NeededFor(c, state, xs, n)
  {
    var v := ViableOf(xs);
    assert forall x :: x in v <==> x in xs && x.status != Status.Inapplicable;
    ViableMeans(xs);
    hide ViableOf;
    NeedsMeaning(v);
    AskerIsViable(xs, v, n);
    hide NeedsOf, Needy;
  }

  ghost predicate NeededFor(c: CapabilityType, state: CapabilityState, xs: seq<Shown>, n: HumanNeed) {
    var none := forall x :: x in xs ==> x.status == Status.Inapplicable;
    || (n == NeedFor(NoSafePath, c) && xs != [] && none && state == Unavailable)
    || (n == NeedFor(NoViableResponse, c) && xs != [] && none && state != Unavailable)
    || (n == NeedFor(NoPriority, c) && |ViableOf(xs)| > 1)
    || (exists x :: x in xs && Asks(x, n))
  }

  lemma AskerIsViable(xs: seq<Shown>, v: seq<Shown>, n: HumanNeed)
    requires forall x :: x in v <==> x in xs && x.status != Status.Inapplicable
    ensures (exists x :: x in xs && Asks(x, n)) <==> exists x :: x in v && Asks(x, n)
  {
    if x :| x in xs && Asks(x, n) {
      assert x in v;
    }
  }

  class Decision {
    var level: Level
    var reasons: seq<(LevelCode, CapabilityType)>
    var human: seq<HumanNeed>

    constructor ()
      ensures level == NoAction && reasons == [] && human == []
    {
      level, reasons, human := NoAction, [], [];
    }

    method Raise(l: Level, code: LevelCode, c: CapabilityType)
      modifies this`level, this`reasons
      ensures level == old(level).Max(l) && reasons == old(reasons) + [(code, c)]
    {
      if l.Rank() > level.Rank() {
        level := l;
      }
      reasons := reasons + [(code, c)];
    }

    method NeedHuman(need: HumanNeed)
      modifies this`human
      ensures human == old(human) + [need]
    {
      human := human + [need];
    }

    /** `decideCapability`: the level rises exactly to the boundary's; what the
        reasons and the needs for a person mean is said by `ReasonsMeaning` and
        `HumanMeaning`. */
    method DecideCapability(c: CapabilityType, state: CapabilityState, codes: seq<ReasonCode>, xs: seq<Shown>)
      modifies this
      ensures level == old(level).Max(BoundaryLevel(state, xs))
      ensures reasons == old(reasons) + ReasonsFor(c, state, codes, xs)
      ensures human == old(human) + HumanFor(c, state, xs)
    {
      if xs == [] {
        if Affected(state) {
          Raise(Awareness, if FromDependencyOnly(codes) then ImpactFromDependency else NoDeclaredResponse, c);
        }
        return;
      }
      var viable := ViableOf(xs);
      if viable == [] {
        var code := if state == Unavailable then NoSafePath else NoViableResponse;
        Raise(if state == Unavailable then ImmediateIntervention else DecisionRequired, code, c);
        NeedHuman(NeedFor(code, c));
        return;
      }
      BoundaryOfViable(state, xs);
      hide ViableOf, BoundaryLevel, NeedsOf, CodesOf, Level.Max, FromDependencyOnly;
      Offer(c, viable);
      JoinReasons(old(reasons), if |viable| > 1 then [(NoPriority, c)] else [], CodesOf(c, viable, |viable| == 1));
      JoinNeeds(old(human), if |viable| > 1 then [NeedFor(NoPriority, c)] else [], NeedsOf(viable));
    }

    lemma JoinReasons(a: seq<(LevelCode, CapabilityType)>, b: seq<(LevelCode, CapabilityType)>, c: seq<(LevelCode, CapabilityType)>)
      ensures a + b + c == a + (b + c)
    {
    }

    lemma JoinNeeds(a: seq<HumanNeed>, b: seq<HumanNeed>, c: seq<HumanNeed>)
      ensures a + b + c == a + (b + c)
    {
    }

    /** Several viable responses have no priority; each that is not ready needs a person. */
    method Offer(c: CapabilityType, viable: seq<Shown>)
      requires viable != [] && forall x :: x in viable ==> x.status != Status.Inapplicable
      modifies this
      ensures level == old(level).Max(if |viable| == 1 && viable[0].status == Ready then Awareness else DecisionRequired)
      ensures reasons == old(reasons) + (if |viable| > 1 then [(NoPriority, c)] else []) + CodesOf(c, viable, |viable| == 1)
      ensures human == old(human) + (if |viable| > 1 then [NeedFor(NoPriority, c)] else []) + NeedsOf(viable)
    {
      hide NeedsOf, CodesOf;
      if |viable| > 1 {
        Raise(DecisionRequired, NoPriority, c);
        NeedHuman(NeedFor(NoPriority, c));
      }
      WeightIs(old(level), viable);
      hide Weight;
      Weigh(c, viable);
    }

    /** The loop over the viable responses. */
    method Weigh(c: CapabilityType, viable: seq<Shown>)
      requires viable != [] && forall x :: x in viable ==> x.status != Status.Inapplicable
      modifies this
      ensures level == old(level).Max(Weight(viable, |viable|))
      ensures reasons == old(reasons) + CodesOf(c, viable, |viable| == 1)
      ensures human == old(human) + NeedsOf(viable)
    {
      hide Weight, Level.Max, NeedsOf, CodesOf, NeedOne, CodeOne, WeightOf;
      assert viable[..0] == [];
      WeightStart(old(level), viable);
      NeedsMore([], viable[0]);
      CodesMore(c, [], viable[0], |viable| == 1);
      for i := 0 to |viable|
        invariant level == old(level).Max(Weight(viable, i))
        invariant reasons == old(reasons) + CodesOf(c, viable[..i], |viable| == 1)
        invariant human == old(human) + NeedsOf(viable[..i])
      {
        var x := viable[i];
        assert viable[..i + 1] == viable[..i] + [x];
        WeightMore(old(level), viable, i);
        NeedsMore(viable[..i], x);
        CodesMore(c, viable[..i], x, |viable| == 1);
        WeighOne(c, x, |viable| == 1);
      }
      assert viable[..|viable|] == viable;
    }

    /** One viable response: ready, or in need of a person. */
    method WeighOne(c: CapabilityType, x: Shown, sole: bool)
      requires x.status != Status.Inapplicable
      modifies this
      ensures level == old(level).Max(WeightOf(x, sole))
      ensures reasons == old(reasons) + CodeOne(c, x, sole) && human == old(human) + NeedOne(x)
    {
      if x.status == Ready {
        if sole {
          Raise(Awareness, ResponseReady, c);
        }
        return;
      }
      var code := CodeOf(x.status);
      Raise(DecisionRequired, code, c);
      NeedHuman(NeedOf(code, x.action));
    }
  }

  function CodeOf(s: Status): LevelCode
    requires s != Status.Inapplicable && s != Ready
  {
    match s
    case ApprovalRequired => NeedsApproval
    case SafetyUnproven => SafetyNotProven
    case OwnerUndeclared => NoOwner
    case OwnerConflict => OwnersConflict
  }
}
