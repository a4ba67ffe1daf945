/** Hypotheses read off an assessment (pkg/investigate/candidates.go), and what
    it means that none of them is open. */
module Candidates {
  import opened Wrappers
  import opened OpsTypes
  import opened Contracts
  import opened Graphs
  import opened Resolution
  import opened EvidenceRules
  import opened Semantics
  import Evaluator

  datatype Status = Open | Maintained | Refuted

  datatype Kind = OfAssertion | OfDependency | OfEnvelope | OfLocal

  datatype Input = Input(kind: Kind, ref: string)

  /** The source spells these as one string. */
  datatype CandidateId =
    | CapabilityInput(capability: CapabilityType, input: Input)
    | EnvelopeInput(capability: CapabilityType, envelope: string, assertion: string)
    | SelectedInput(envelope: string, assertion: string)
  {
    function Names(): Input {
      match this
      case CapabilityInput(_, i) => i
      case EnvelopeInput(_, _, a) => Input(OfAssertion, a)
      case SelectedInput(_, a) => Input(OfAssertion, a)
    }
  }

  datatype Candidate = Candidate(id: CandidateId, status: Status)

  /** `requirementRef`. */
  function InputOf(r: Requirement): Input {
    if r.predicate_.Some? then Input(OfAssertion, r.predicate_.value.assertion)
    else if r.dependency.Some? then Input(OfDependency, r.dependency.value.slot)
    else if r.envelope != "" then Input(OfEnvelope, r.envelope)
    else Input(OfLocal, r.localCapability)
  }

  /** The reason is about this input: the subject itself or, for a dependency, what it leads to. */
  predicate About(s: Subject, i: Input) {
    match s
    case OnAssertion(slot) => i == Input(OfAssertion, slot)
    case OnDependencySlot(slot) => i == Input(OfDependency, slot)
    case OnDependency(slot, _, _) => i == Input(OfDependency, slot)
    case OnLocal(name) => i == Input(OfLocal, name)
    case OnEnvelope(name) => i == Input(OfEnvelope, name)
    case OnCapability(_) => false
  }

  predicate UnmetCode(c: ReasonCode) {
    c == PredicateUnmet || c == DependencyUnmet || c == EnvelopeUnmet || c == LocalUnmet
  }

  /** What the reasons say of one input: open as soon as one leaves it unproven. */
  ghost function StatusFrom(rs: set<Reason>, i: Input): Status {
    if exists r :: r in rs && About(r.subject, i) && !UnmetCode(r.code) then Open
    else if exists r :: r in rs && About(r.subject, i) then Maintained
    else Refuted
  }

  /** `statusFrom`, in any order of the reasons. */
  method FindStatus(rs: set<Reason>, i: Input) returns (st: Status)
    ensures st == StatusFrom(rs, i)
  {
    hide About, UnmetCode;
    st := Refuted;
    var left := rs;
    while left != {}
      invariant left <= rs && st == StatusFrom(rs - left, i)
    {
      var r :| r in left;
      assert rs - (left - {r}) == (rs - left) + {r};
      left := left - {r};
      if !About(r.subject, i) {
        continue;
      }
      if UnmetCode(r.code) {
        if st == Refuted {
          st := Maintained;
        }
        continue;
      }
      st := Open;
    }
    assert rs - left == rs;
  }

  function EnvelopeReasons(ta: TargetAssessment, name: string): set<Reason> {
    if name in ta.envelopes then ta.envelopes[name].reasons else {}
  }

  function EnvelopePredicates(c: Contract, name: string): seq<Predicate> {
    match FindEnvelope(c, name) case Some(e) => e.requirements case None => []
  }

  /** One requirement of a capability that is not AVAILABLE gives a hypothesis,
      and an envelope one for each of its predicates. */
  ghost predicate FromRequirement(ta: TargetAssessment, c: Contract, ty: CapabilityType, r: Requirement, x: Candidate)
    requires ty in ta.capabilities
  {
    || x == Candidate(CapabilityInput(ty, InputOf(r)), StatusFrom(ta.capabilities[ty].reasons, InputOf(r)))
    || (InputOf(r).kind == OfEnvelope && FromPredicates(ta, c, ty, InputOf(r).ref, x))
  }

  ghost predicate FromPredicates(ta: TargetAssessment, c: Contract, ty: CapabilityType, env: string, x: Candidate) {
    exists p :: p in EnvelopePredicates(c, env)
                && x == Candidate(EnvelopeInput(ty, env, p.assertion), StatusFrom(EnvelopeReasons(ta, env), Input(OfAssertion, p.assertion)))
  }

  ghost predicate FromCapability(ta: TargetAssessment, c: Contract, ty: CapabilityType, x: Candidate) {
    && ty in ta.capabilities && ta.capabilities[ty].state != Available && FindCapabilityByType(c, ty).Some?
    && exists r :: r in FindCapabilityByType(c, ty).value.requirements && FromRequirement(ta, c, ty, r, x)
  }

  ghost predicate FromSelection(ta: TargetAssessment, c: Contract, x: Candidate) {
    var sel := ta.envelopeSelection;
    && sel != "" && sel in ta.envelopes && ta.envelopes[sel].state != Satisfied
    && exists p :: p in EnvelopePredicates(c, sel) &&
         x == Candidate(SelectedInput(sel, p.assertion), StatusFrom(ta.envelopes[sel].reasons, Input(OfAssertion, p.assertion)))
  }

  ghost predicate IsCandidate(ta: TargetAssessment, c: Contract, x: Candidate) {
    (exists ty :: FromCapability(ta, c, ty, x)) || FromSelection(ta, c, x)
  }

  // ── deriveCandidates ──────────────────────────────────────────────────────

  method AddPredicates(rs: set<Reason>, ps: seq<Predicate>, id: string -> CandidateId) returns (out: set<Candidate>)
    ensures forall x :: x in out <==> exists p :: p in ps && x == Candidate(id(p.assertion), StatusFrom(rs, Input(OfAssertion, p.assertion)))
  {
    hide StatusFrom;
    out := {};
    for i := 0 to |ps|
      invariant forall x :: x in out <==> exists p :: p in ps[..i] && x == Candidate(id(p.assertion), StatusFrom(rs, Input(OfAssertion, p.assertion)))
    {
      assert ps[..i + 1] == ps[..i] + [ps[i]];
      var st := FindStatus(rs, Input(OfAssertion, ps[i].assertion));
      out := out + {Candidate(id(ps[i].assertion), st)};
    }
    assert ps[..|ps|] == ps;
  }

  method AddRequirement(ta: TargetAssessment, c: Contract, ty: CapabilityType, r: Requirement) returns (out: set<Candidate>)
    requires ty in ta.capabilities
    ensures forall x :: x in out <==> FromRequirement(ta, c, ty, r, x)
  {
    hide StatusFrom, EnvelopePredicates, EnvelopeReasons, InputOf;
    var i := InputOf(r);
    var st := FindStatus(ta.capabilities[ty].reasons, i);
    out := {Candidate(CapabilityInput(ty, i), st)};
    if i.kind == OfEnvelope {
      var id := (a: string) => EnvelopeInput(ty, i.ref, a);
      var more := AddPredicates(EnvelopeReasons(ta, i.ref), EnvelopePredicates(c, i.ref), id);
      out := out + more;
    }
  }

  method AddCapability(ta: TargetAssessment, c: Contract, ty: CapabilityType) returns (out: set<Candidate>)
    requires ty in ta.capabilities
    ensures forall x :: x in out <==> FromCapability(ta, c, ty, x)
  {
    hide FromRequirement, FindCapabilityByType;
    out := {};
    var cp := FindCapabilityByType(c, ty);
    if ta.capabilities[ty].state == Available || cp.None? {
      return;
    }
    var rs := cp.value.requirements;
    for i := 0 to |rs|
      invariant forall x :: x in out <==> exists r :: r in rs[..i] && FromRequirement(ta, c, ty, r, x)
    {
      assert rs[..i + 1] == rs[..i] + [rs[i]];
      var more := AddRequirement(ta, c, ty, rs[i]);
      out := out + more;
    }
    assert rs[..|rs|] == rs;
  }

  /** `deriveCandidates`, before its result is sorted. */
  method DeriveCandidates(ta: TargetAssessment, c: Contract) returns (out: set<Candidate>)
    ensures forall x :: x in out <==> IsCandidate(ta, c, x)
  {
    hide FromCapability, StatusFrom, EnvelopePredicates;
    out := {};
    var left := ta.capabilities.Keys;
    while left != {}
      invariant left <= ta.capabilities.Keys
      invariant forall x :: x in out <==> exists ty :: ty in ta.capabilities && ty !in left && FromCapability(ta, c, ty, x)
    {
      var ty :| ty in left;
      var more := AddCapability(ta, c, ty);
      out := out + more;
      left := left - {ty};
    }
    OnlyAssessed(ta, c);
    var sel := ta.envelopeSelection;
    if sel != "" && sel in ta.envelopes && ta.envelopes[sel].state != Satisfied {
      var id := (a: string) => SelectedInput(sel, a);
      var more := AddPredicates(ta.envelopes[sel].reasons, EnvelopePredicates(c, sel), id);
      out := out + more;
    }
  }

  lemma OnlyAssessed(ta: TargetAssessment, c: Contract)
    ensures forall ty, x :: FromCapability(ta, c, ty, x) ==> ty in ta.capabilities
  {
  }

  /** `hasOpen`. */
  predicate HasOpen(cs: set<Candidate>) {
    exists x :: x in cs && x.status == Open
  }

  ghost predicate NothingOpen(ta: TargetAssessment, c: Contract) {
    forall x :: IsCandidate(ta, c, x) ==> x.status != Open
  }

  // ── boundCandidates ───────────────────────────────────────────────────────

  /** The open assertion hypotheses a registered query could decide. */
  function Reserved(full: set<Candidate>, queryable: set<string>): set<Candidate> {
    set x | x in full && x.id.Names().kind == OfAssertion && x.status == Open && x.id.Names().ref in queryable
  }

  function Asked(order: map<string, nat>, x: Candidate): nat {
    if x.id.Names().ref in order then order[x.id.Names().ref] else 0
  }

  /** A call that may be made could decide x. */
  ghost predicate Callable(x: Candidate, queryable: set<string>) {
    x.status == Open && exists s :: s in queryable && x.id.Names() == Input(OfAssertion, s)
  }

  /** x's slot was never asked, or not after y's. */
  ghost predicate AskedNoLater(order: map<string, nat>, x: Candidate, y: Candidate) {
    var a, b := x.id.Names().ref, y.id.Names().ref;
    a !in order || order[a] <= if b in order then order[b] else 0
  }

  /** What the cut hides of the callable ones gave way only to callable ones asked no later. */
  ghost predicate CutFairly(full: set<Candidate>, kept: set<Candidate>, queryable: set<string>, order: map<string, nat>) {
    forall x, y :: x in kept && y in full - kept && Callable(y, queryable) ==> Callable(x, queryable) && AskedNoLater(order, x, y)
  }

  lemma ReservedCallable(full: set<Candidate>, queryable: set<string>)
    ensures forall x :: x in Reserved(full, queryable) <==> x in full && Callable(x, queryable)
  {
    forall x ensures x in Reserved(full, queryable) <==> x in full && Callable(x, queryable) {
      if x in Reserved(full, queryable) {
        assert x.id.Names() == Input(OfAssertion, x.id.Names().ref);
      }
    }
  }

  lemma NoLaterMeans(order: map<string, nat>, x: Candidate, y: Candidate)
    ensures AskedNoLater(order, x, y) <==> Asked(order, x) <= Asked(order, y)
  {
  }

  /** n elements of s, those asked least recently first. */
  method TakeOldest(s: set<Candidate>, order: map<string, nat>, n: nat) returns (kept: set<Candidate>)
    requires n <= |s|
    ensures kept <= s && |kept| == n
    ensures forall x, y :: x in kept && y in s - kept ==> Asked(order, x) <= Asked(order, y)
  {
    hide Asked;
    kept := {};
    while |kept| < n
      invariant kept <= s && |kept| <= n
      invariant forall x, y :: x in kept && y in s - kept ==> Asked(order, x) <= Asked(order, y)
    {
      assert |s - kept| == |s| - |kept|;
      var x := Oldest(s - kept, order);
      kept := kept + {x};
    }
  }

  method Oldest(s: set<Candidate>, order: map<string, nat>) returns (x: Candidate)
    requires s != {}
    ensures x in s && forall y :: y in s ==> Asked(order, x) <= Asked(order, y)
  {
    hide Asked;
    x :| x in s;
    var left := s - {x};
    while left != {}
      invariant x in s && left <= s && forall y :: y in s - left ==> Asked(order, x) <= Asked(order, y)
    {
      var y :| y in left;
      if Asked(order, y) < Asked(order, x) {
        x := y;
      }
      left := left - {y};
    }
    assert s - left == s;
  }

  /** `boundCandidates`: the bound never hides a queryable open hypothesis as
      long as those fit, and when they do not the least recently asked stay. */
  method BoundCandidates(full: set<Candidate>, queryable: set<string>, order: map<string, nat>, max: nat) returns (kept: set<Candidate>)
    ensures kept <= full && |kept| == if |full| <= max then |full| else max
    ensures |Reserved(full, queryable)| <= max ==> Reserved(full, queryable) <= kept
    ensures |Reserved(full, queryable)| > max ==> kept <= Reserved(full, queryable)
    ensures |Reserved(full, queryable)| > max ==>
      forall x, y :: x in kept && y in Reserved(full, queryable) - kept ==> Asked(order, x) <= Asked(order, y)
    ensures CutFairly(full, kept, queryable, order)
  {
    hide Asked, Reserved, Callable, AskedNoLater;
    ReservedCallable(full, queryable);
    if |full| <= max {
      return full;
    }
    var reserved := Reserved(full, queryable);
    if |reserved| > max {
      kept := TakeOldest(reserved, order, max);
      forall x, y | x in kept && y in full - kept && Callable(y, queryable) ensures AskedNoLater(order, x, y) {
        NoLaterMeans(order, x, y);
      }
      return;
    }
    assert |full - reserved| == |full| - |reserved|;
    var more := TakeOldest(full - reserved, map[], max - |reserved|);
    kept := reserved + more;
  }

  // ── no open hypothesis means decided ──────────────────────────────────────

  /** Every reason that leaves a requirement unproven is about its input. */
  lemma VerdictIsAbout(w: World, f: Facts, k: CapKey, r: Requirement)
    requires Sane(w) && k in Nodes(w) && r in RequirementsOf(w, k)
    ensures var v := RequirementVerdict(w, f, k, r);
      && (v.Unproven? ==> About(v.reason.subject, InputOf(r)) && !UnmetCode(v.reason.code))
      && (v.Unmet? ==> UnmetCode(v.reason.code))
  {
    hide CapResult, EnvelopeOf, EvidenceOf, Nodes, WorldOk, Acyclic, RequirementsOf, CapGraph;
    RequirementDescends(w, k, r);
    RequirementIsOk(w, k, r);
  }

  lemma ComposeKeeps(typ: CapabilityType, rs: seq<Requirement>, vs: seq<Verdict>)
    requires |rs| == |vs|
    ensures forall v :: v in vs && !v.Accepted? ==> v.reason in Compose(typ, rs, vs).reasons
    ensures forall x :: x in Compose(typ, rs, vs).reasons ==>
      x == Reason(ConflictingImpact, OnCapability(typ)) || exists v :: v in vs && !v.Accepted? && x == v.reason
    ensures Compose(typ, rs, vs).state == Unknown && (forall i :: 0 <= i < |vs| ==> !vs[i].Unproven?) ==>
      Reason(ConflictingImpact, OnCapability(typ)) in Compose(typ, rs, vs).reasons
  {
    hide ComposedState;
  }

  /** An UNKNOWN capability without an open hypothesis is unknown only because
      its proven failures disagree about the impact. */
  lemma DecidedCapability(w: World, f: Facts, k: CapKey)
    requires Sane(w) && k in Nodes(w)
    requires forall r :: r in RequirementsOf(w, k) ==> StatusFrom(CapResult(w, f, k).reasons, InputOf(r)) != Open
    ensures var res := CapResult(w, f, k);
      var conflict := Reason(ConflictingImpact, OnCapability(TypeOf(w, k)));
      && (res.state == Unknown ==> conflict in res.reasons)
      && forall x :: x in res.reasons ==> x == conflict || UnmetCode(x.code)
  {
    hide RequirementVerdict, Compose, InputOf, About, UnmetCode, Nodes, WorldOk, Acyclic, TypeOf;
    InNodes(w, k);
    OkTarget(w, k.uid);
    var rs := RequirementsOf(w, k);
    var vs := Verdicts(w, f, k, rs);
    ComposeKeeps(TypeOf(w, k), rs, vs);
    forall i | 0 <= i < |rs| ensures !vs[i].Unproven? && (vs[i].Unmet? ==> UnmetCode(vs[i].reason.code)) {
      VerdictIsAbout(w, f, k, rs[i]);
    }
  }

  /** The selected envelope likewise. */
  lemma DecidedEnvelope(f: Facts, t: Target, c: Contract, env: Envelope)
    requires forall p :: p in env.requirements ==> StatusFrom(EnvelopeOf(f, t, c, env).reasons, Input(OfAssertion, p.assertion)) != Open
    ensures EnvelopeOf(f, t, c, env).state != EnvUnknown
  {
    hide PredicateVerdict, StatusFrom;
    var vs := set p | p in env.requirements :: PredicateVerdict(f, t, c, p);
    if v :| v in vs && v.Unproven? {
      var p :| p in env.requirements && v == PredicateVerdict(f, t, c, p);
      PredicateIsAbout(f, t, c, p);
      StatusIsOpen(EnvelopeOf(f, t, c, env).reasons, v.reason, Input(OfAssertion, p.assertion));
    }
  }

  lemma PredicateIsAbout(f: Facts, t: Target, c: Contract, p: Predicate)
    ensures var v := PredicateVerdict(f, t, c, p);
      v.Unproven? ==> About(v.reason.subject, Input(OfAssertion, p.assertion)) && !UnmetCode(v.reason.code)
  {
    hide EvidenceOf;
  }

  lemma StatusIsOpen(rs: set<Reason>, r: Reason, i: Input)
    requires r in rs && About(r.subject, i) && !UnmetCode(r.code)
    ensures StatusFrom(rs, i) == Open
  {
  }

  /** When no hypothesis about a target is open, none of its capabilities is
      UNKNOWN except by conflicting impact, and its selected envelope is decided. */
  lemma NothingOpenIsDecided(w: World, f: Facts, t: Target, c: Contract)
    requires Sane(w) && Evaluator.ValidTarget(w, t, c) && t.identity.uid in w.ok
    requires NothingOpen(Evaluator.Assessed(w, f, t, c), c)
    ensures var ta := Evaluator.Assessed(w, f, t, c);
      && (forall ty :: ty in ta.capabilities ==> Decided(ty, ta.capabilities[ty]))
      && (t.envelopeSelection != "" && t.envelopeSelection in ta.envelopes ==> ta.envelopes[t.envelopeSelection].state != EnvUnknown)
  {
    hide CapResult, EnvelopeOf, EvidenceOf, Nodes, WorldOk, Acyclic, StatusFrom, Evaluator.EvidenceMap, Decided, FindCapabilityByType;
    var ta := Evaluator.Assessed(w, f, t, c);
    OkTarget(w, t.identity.uid);
    LookupUnique(c);
    forall ty | ty in ta.capabilities ensures Decided(ty, ta.capabilities[ty]) {
      DecidedType(w, f, t, c, ty);
    }
    var sel := t.envelopeSelection;
    if sel != "" && sel in ta.envelopes {
      var env := FindEnvelope(c, sel).value;
      if ta.envelopes[sel].state != Satisfied {
        forall p | p in env.requirements ensures StatusFrom(EnvelopeOf(f, t, c, env).reasons, Input(OfAssertion, p.assertion)) != Open {
          var x := Candidate(SelectedInput(sel, p.assertion), StatusFrom(ta.envelopes[sel].reasons, Input(OfAssertion, p.assertion)));
          assert FromSelection(ta, c, x);
          assert IsCandidate(ta, c, x);
        }
        DecidedEnvelope(f, t, c, env);
      }
    }
  }

  /** Not UNKNOWN, or only by conflicting impact: every other reason is a proven failure. */
  ghost predicate Decided(ty: CapabilityType, r: CapabilityResult) {
    r.state == Unknown ==>
      && Reason(ConflictingImpact, OnCapability(ty)) in r.reasons
      && forall x :: x in r.reasons ==> x == Reason(ConflictingImpact, OnCapability(ty)) || UnmetCode(x.code)
  }

  lemma DecidedType(w: World, f: Facts, t: Target, c: Contract, ty: CapabilityType)
    requires Sane(w) && Evaluator.ValidTarget(w, t, c) && t.identity.uid in w.ok
    requires NothingOpen(Evaluator.Assessed(w, f, t, c), c) && ty in Evaluator.Assessed(w, f, t, c).capabilities
    ensures Decided(ty, Evaluator.Assessed(w, f, t, c).capabilities[ty])
  {
    hide CapResult, Nodes, WorldOk, Acyclic, StatusFrom, Evaluator.EvidenceMap, Evaluator.EnvelopeMap;
    var ta := Evaluator.Assessed(w, f, t, c);
    var k := CapKey(t.identity.uid, ty.name);
    OkTarget(w, t.identity.uid);
    LookupUnique(c);
    Evaluator.TypeInNodes(w, t, c, ty);
    var cp := FindCapabilityByType(c, ty).value;
    assert RequirementsOf(w, k) == cp.requirements && TypeOf(w, k) == ty;
    if ta.capabilities[ty].state == Unknown {
      forall r | r in RequirementsOf(w, k) ensures StatusFrom(CapResult(w, f, k).reasons, InputOf(r)) != Open {
        var x := Candidate(CapabilityInput(ty, InputOf(r)), StatusFrom(ta.capabilities[ty].reasons, InputOf(r)));
        assert FromRequirement(ta, c, ty, r, x);
        assert FromCapability(ta, c, ty, x);
        assert IsCandidate(ta, c, x);
      }
      DecidedCapability(w, f, k);
    }
  }
}
