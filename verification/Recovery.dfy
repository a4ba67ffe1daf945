/** RecoveryAssessment: the evaluator run again on what was observed strictly
    after the execution ended (pkg/action/recovery.go). */
module Recovery {
  import opened Wrappers
  import opened OpsTypes
  import opened Contracts
  import opened Graphs
  import opened Resolution
  import opened EvidenceRules
  import opened Semantics
  import opened Guarantees
  import Evaluator
  import A = ActionTypes
  import Proposals

  /** What assessing recovery needs of a record. */
  datatype Ended = Ended(targetUid: string, binding: A.Binding, endedAt: Time, window: Duration, expected: seq<CapabilityType>)

  function EndedOf(r: A.Record): Ended {
    Ended(r.intent.targetUid, r.intent.binding, r.endedAt, r.intent.recoveryWindow, r.intent.expected)
  }

  function After(os: seq<Observation>, t: Time): seq<Observation> {
    Filter(os, (o: Observation) => o.observedAt > t)
  }

  function StateIn(ta: TargetAssessment, c: CapabilityType): CapabilityState {
    if c in ta.capabilities then ta.capabilities[c].state else Unknown
  }

  function CountState(ta: TargetAssessment, cs: seq<CapabilityType>, p: CapabilityState -> bool): nat {
    if cs == [] then 0 else CountState(ta, cs[..|cs| - 1], p) + if p(StateIn(ta, cs[|cs| - 1])) then 1 else 0
  }

  predicate IsAvailable(s: CapabilityState) { s == Available }

  predicate IsAffected(s: CapabilityState) { s == Degraded || s == Unavailable }

  /** The verdict on assessed states. */
  function Classify(r: Ended, ta: TargetAssessment, now: Time): A.Recovery {
    if CountState(ta, r.expected, IsAvailable) == |r.expected| then A.Recovered
    else if now < r.endedAt + r.window then A.Pending
    else if CountState(ta, r.expected, IsAvailable) > 0 then A.Partial
    else if CountState(ta, r.expected, IsAffected) > 0 then A.NotRecovered
    else A.Unconfirmed
  }

  ghost predicate Assessable(r: Ended, s: Snapshot) {
    var t := Proposals.TargetWithUid(s.targets, r.targetUid);
    t.Some? && A.BindingOf(t.value) == r.binding && r.targetUid in Evaluator.FinalWorld(s.targets, s.contracts).ok
  }

  /** The assessment of the record's target on the given facts. */
  ghost function AssessmentOn(s: Snapshot, r: Ended, f: Facts): TargetAssessment
    requires Assessable(r, s)
  {
    var w := Evaluator.FinalWorld(s.targets, s.contracts);
    var t := Proposals.TargetWithUid(s.targets, r.targetUid).value;
    Evaluator.WorldsOk(s.targets, s.contracts);
    OkTarget(w, r.targetUid);
    Evaluator.Assessed(w, f, t, ContractOf(s.contracts, t).value)
  }

  ghost function PostFacts(s: Snapshot, r: Ended, now: Time): Facts {
    Facts(now, After(s.facts.observations, r.endedAt))
  }

  /** What `assessRecovery` answers. */
  ghost function RecoveryOf(r: Ended, s: Snapshot, now: Time): A.Recovery {
    if !Assessable(r, s) then A.InapplicableNow else Classify(r, AssessmentOn(s, r, PostFacts(s, r, now)), now)
  }

  method CountStates(ta: TargetAssessment, expected: seq<CapabilityType>) returns (recovered: nat, proven: nat)
    ensures recovered == CountState(ta, expected, IsAvailable) && proven == CountState(ta, expected, IsAffected)
  {
    recovered, proven := 0, 0;
    for i := 0 to |expected|
      invariant recovered == CountState(ta, expected[..i], IsAvailable) && proven == CountState(ta, expected[..i], IsAffected)
    {
      assert expected[..i + 1][..i] == expected[..i];
      match StateIn(ta, expected[i])
      case Available => recovered := recovered + 1;
      case Unknown =>
      case _ => proven := proven + 1;
    }
    assert expected[..|expected|] == expected;
  }

  /** `assessRecovery`; no answer when there is no evaluation instant. */
  method AssessRecovery(r: Ended, s: Snapshot, now: Time) returns (rec: Option<A.Recovery>)
    ensures now != 0 ==> rec == Some(RecoveryOf(r, s, now))
    ensures now == 0 ==> rec == None || rec == Some(A.InapplicableNow)
  {
    hide Evaluator.FinalWorld, Evaluator.Assessed, Classify, After, CountState;
    var t := Proposals.TargetWithUid(s.targets, r.targetUid);
    if t.None? || A.BindingOf(t.value) != r.binding {
      return Some(A.InapplicableNow);
    }
    var post := s.(facts := Facts(now, After(s.facts.observations, r.endedAt)));
    var i := IndexOf(s.targets, t.value);
    var out := Evaluator.Evaluate(post, [i]);
    if out.NoEvaluationInstant? {
      return None;
    }
    var ta := out.targets[0];
    CorrectAssessment(r, s, post.facts, t.value, ta);
    if !ta.valid {
      return Some(A.InapplicableNow);
    }
    var recovered, proven := CountStates(ta, r.expected);
    rec := Some(Verdict(r, ta, now, recovered, proven));
  }

  function Verdict(r: Ended, ta: TargetAssessment, now: Time, recovered: nat, proven: nat): (v: A.Recovery)
    ensures recovered == CountState(ta, r.expected, IsAvailable) && proven == CountState(ta, r.expected, IsAffected) ==> v == Classify(r, ta, now)
  {
    if recovered == |r.expected| then A.Recovered
    else if now < r.endedAt + r.window then A.Pending
    else if recovered > 0 then A.Partial
    else if proven > 0 then A.NotRecovered
    else A.Unconfirmed
  }

  method IndexOf(ts: seq<Target>, t: Target) returns (i: nat)
    requires t in ts
    ensures i < |ts| && ts[i] == t
  {
    i := 0;
    while ts[i] != t
      invariant i < |ts| && t in ts[i..]
      decreases |ts| - i
    {
      i := i + 1;
    }
  }

  lemma CorrectAssessment(r: Ended, s: Snapshot, f: Facts, t: Target, ta: TargetAssessment)
    requires Proposals.TargetWithUid(s.targets, r.targetUid) == Some(t) && A.BindingOf(t) == r.binding
    requires Evaluator.Correct(s.(facts := f), t, ta)
    ensures ta.valid <==> Assessable(r, s)
    ensures ta.valid ==> ta == AssessmentOn(s, r, f)
  {
    hide Evaluator.FinalWorld, Evaluator.Assessed, Resolves, WorldOk, Acyclic;
    Evaluator.WorldsOk(s.targets, s.contracts);
    if ta.valid {
      OkTarget(Evaluator.FinalWorld(s.targets, s.contracts), r.targetUid);
    }
  }

  // ── what Recovered means ──────────────────────────────────────────────────

  lemma CountAll(ta: TargetAssessment, cs: seq<CapabilityType>, p: CapabilityState -> bool)
    ensures CountState(ta, cs, p) <= |cs|
    ensures CountState(ta, cs, p) == |cs| <==> forall c :: c in cs ==> p(StateIn(ta, c))
  {
    if cs != [] {
      CountAll(ta, cs[..|cs| - 1], p);
      assert cs == cs[..|cs| - 1] + [cs[|cs| - 1]];
    }
  }

  /** The state of a type in an assessment is its capability's meaning. */
  lemma StateMeaning(s: Snapshot, r: Ended, f: Facts, c: CapabilityType)
    requires Assessable(r, s)
    ensures var w := Evaluator.FinalWorld(s.targets, s.contracts);
      var k := CapKey(r.targetUid, c.name);
      var ta := AssessmentOn(s, r, f);
      && Sane(w)
      && (c in ta.capabilities ==> k in Nodes(w) && StateIn(ta, c) == CapResult(w, f, k).state)
      && (StateIn(ta, c) == Available ==> c in ta.capabilities)
  {
    hide Evaluator.FinalWorld, Evaluator.EvidenceMap, Evaluator.EnvelopeMap, CapResult, Nodes, WorldOk, Acyclic, Resolves, WellFormed;
    var w := Evaluator.FinalWorld(s.targets, s.contracts);
    var t := Proposals.TargetWithUid(s.targets, r.targetUid).value;
    Evaluator.WorldsOk(s.targets, s.contracts);
    OkTarget(w, r.targetUid);
    var ta := AssessmentOn(s, r, f);
    if c in ta.capabilities {
      Evaluator.TypeInNodes(w, t, ContractOf(s.contracts, t).value, c);
    }
  }

  /** Evidence that is current among later statements is current, with the same
      value, among all of them: the latest statement decides. */
  lemma LaterConfirms(os: seq<Observation>, ended: Time, now: Time)
    ensures Confirms(Facts(now, After(os, ended)), Facts(now, os))
  {
    var f, g := Facts(now, After(os, ended)), Facts(now, os);
    forall t, slot: AssertionSlot | EvidenceOf(f, t, slot).Current?
      ensures EvidenceOf(g, t, slot) == EvidenceOf(f, t, slot)
    {
      var v := EvidenceOf(f, t, slot).value;
      CurrentMeaning(f, t, slot, v);
      CurrentMeaning(g, t, slot, v);
      var b := AssertionBindingOf(t, slot.name).value;
      LatestOfLater(f, g, Wanted(t, slot.name, b.provider), ended);
    }
  }

  lemma LatestOfLater(f: Facts, g: Facts, want: ApplicabilityKey, ended: Time)
    requires f == Facts(g.at, After(g.observations, ended)) && Applicable(f, want) != {}
    ensures Latest(Applicable(g, want)) == Latest(Applicable(f, want))
  {
    var a, b := Applicable(f, want), Applicable(g, want);
    forall o ensures o in a <==> o in b && o.observedAt > ended { }
    LatestExists(a);
    var m :| m in Latest(a);
    forall o | o in b ensures o.observedAt <= m.observedAt { }
    forall o ensures o in Latest(b) <==> o in Latest(a) {
      if o in Latest(b) {
        assert m in b;
      }
    }
  }

  /** Recovered is justified: every expected capability is AVAILABLE, with its
      whole dependency closure grounded, on statements made strictly after the
      execution ended; and on all statements it is AVAILABLE too. */
  lemma RecoveredIsJustified(r: Ended, s: Snapshot, now: Time, c: CapabilityType)
    requires RecoveryOf(r, s, now) == A.Recovered && c in r.expected
    ensures var w := Evaluator.FinalWorld(s.targets, s.contracts);
      var k := CapKey(r.targetUid, c.name);
      && Sane(w) && k in Nodes(w)
      && (forall o :: o in PostFacts(s, r, now).observations ==> o.observedAt > r.endedAt)
      && ClosureGrounded(w, PostFacts(s, r, now), k)
      && CapResult(w, Facts(now, s.facts.observations), k).state == Available
  {
    hide Evaluator.FinalWorld, AssessmentOn, Nodes, WorldOk, Acyclic, CapResult, ClosureGrounded, Confirms, StateIn;
    var w := Evaluator.FinalWorld(s.targets, s.contracts);
    var f := PostFacts(s, r, now);
    var k := CapKey(r.targetUid, c.name);
    CountAll(AssessmentOn(s, r, f), r.expected, IsAvailable);
    StateMeaning(s, r, f, c);
    AvailableIsExact(w, f, k);
    LaterConfirms(s.facts.observations, r.endedAt, now);
    CapabilityCarries(w, f, Facts(now, s.facts.observations), k);
  }

  // ── what each verdict means ───────────────────────────────────────────────

  /** The contract of the one valid target with this UID declares c. */
  ghost predicate Declares(w: World, uid: string, c: CapabilityType) {
    exists t, dc, cp :: OneValid(w, uid, t) && OneContract(w, t.contractRef, dc) && cp in dc.capabilities && cp.typ == c
  }

  /** The state of expected type c on facts f: UNKNOWN when it is not declared. */
  ghost function ExpectedState(w: World, f: Facts, uid: string, c: CapabilityType): CapabilityState
    requires Sane(w)
  {
    if Declares(w, uid, c) && CapKey(uid, c.name) in Nodes(w) then CapResult(w, f, CapKey(uid, c.name)).state else Unknown
  }

  lemma CountSome(ta: TargetAssessment, cs: seq<CapabilityType>, p: CapabilityState -> bool)
    ensures CountState(ta, cs, p) > 0 <==> exists c :: c in cs && p(StateIn(ta, c))
  {
    if cs != [] {
      CountSome(ta, cs[..|cs| - 1], p);
      assert cs == cs[..|cs| - 1] + [cs[|cs| - 1]];
    }
  }

  /** What was observed strictly after the end, as of now. */
  ghost predicate IsPost(f: Facts, os: seq<Observation>, ended: Time, now: Time) {
    f.at == now && forall o :: o in f.observations <==> o in os && o.observedAt > ended
  }

  lemma StateIsExpected(s: Snapshot, r: Ended, f: Facts, c: CapabilityType)
    requires Assessable(r, s)
    ensures Sane(Evaluator.FinalWorld(s.targets, s.contracts))
    ensures StateIn(AssessmentOn(s, r, f), c) == ExpectedState(Evaluator.FinalWorld(s.targets, s.contracts), f, r.targetUid, c)
  {
    hide Evaluator.FinalWorld, Evaluator.EvidenceMap, Evaluator.EnvelopeMap, CapResult, Nodes, WorldOk, Acyclic, Resolves, WellFormed,
         UniqueValid, ContractOf, OneValid, OneContract;
    var w := Evaluator.FinalWorld(s.targets, s.contracts);
    var t := Proposals.TargetWithUid(s.targets, r.targetUid).value;
    Evaluator.WorldsOk(s.targets, s.contracts);
    OkTarget(w, r.targetUid);
    OneValidMeaning(w, r.targetUid);
    FirstIsUnique(s, r);
    OneContractMeaning(w, t);
    var dc := ContractOf(s.contracts, t).value;
    assert OneValid(w, r.targetUid, t) && OneContract(w, t.contractRef, dc);
    if exists cp :: cp in dc.capabilities && cp.typ == c {
      Evaluator.TypeInNodes(w, t, dc, c);
    }
  }

  /** The one valid target with a UID is the first with it. */
  lemma FirstIsUnique(s: Snapshot, r: Ended)
    requires Assessable(r, s)
    ensures var w := Evaluator.FinalWorld(s.targets, s.contracts);
      && w.targets == s.targets && w.contracts == s.contracts
      && UniqueValid(w, r.targetUid) == Proposals.TargetWithUid(s.targets, r.targetUid)
  {
    hide Resolves, Acyclic, OwnsCycle;
    var w := Evaluator.FinalWorld(s.targets, s.contracts);
    Evaluator.WorldsOk(s.targets, s.contracts);
    OkTarget(w, r.targetUid);
    OneValidMeaning(w, r.targetUid);
    var t := UniqueValid(w, r.targetUid).value;
    assert OneValid(w, r.targetUid, t);
    FirstUnique(s.targets, (x: Target) => x.identity.uid == r.targetUid, t);
  }

  /** The verdict on an assessable record, by the states of the expected
      capabilities on any facts that hold exactly what was observed after the
      end: all AVAILABLE is recovered at any time; anything else is pending
      until the window is over, and from then on partial when some are
      AVAILABLE, not recovered when none is and some are proven affected, and
      unconfirmed when all are UNKNOWN. */
  lemma VerdictIsExact(r: Ended, s: Snapshot, now: Time, f: Facts)
    requires Assessable(r, s) && IsPost(f, s.facts.observations, r.endedAt, now)
    ensures Sane(Evaluator.FinalWorld(s.targets, s.contracts))
    ensures var w := Evaluator.FinalWorld(s.targets, s.contracts);
      var st := (c: CapabilityType) => ExpectedState(w, f, r.targetUid, c);
      var v := RecoveryOf(r, s, now);
      var all := forall c :: c in r.expected ==> st(c) == Available;
      var some := exists c :: c in r.expected && st(c) == Available;
      var affected := exists c :: c in r.expected && (st(c) == Degraded || st(c) == Unavailable);
      var over := now >= r.endedAt + r.window;
      && (v == A.Recovered <==> all)
      && (v == A.Pending <==> !all && !over)
      && (v == A.Partial <==> !all && over && some)
      && (v == A.NotRecovered <==> over && !some && affected)
      && (v == A.Unconfirmed <==> over && r.expected != [] && forall c :: c in r.expected ==> st(c) == Unknown)
  {
    hide Evaluator.FinalWorld, AssessmentOn, Assessable, ExpectedState, StateIn, CountState, Acyclic, WorldOk;
    var w := Evaluator.FinalWorld(s.targets, s.contracts);
    var g := PostFacts(s, r, now);
    var ta := AssessmentOn(s, r, g);
    Evaluator.WorldsOk(s.targets, s.contracts);
    SameMembers(f, g);
    forall c ensures StateIn(ta, c) == ExpectedState(w, f, r.targetUid, c) {
      StateIsExpected(s, r, g, c);
      ExpectedAlike(w, f, g, r.targetUid, c);
    }
    CountAll(ta, r.expected, IsAvailable);
    CountSome(ta, r.expected, IsAvailable);
    CountSome(ta, r.expected, IsAffected);
    if r.expected != [] {
      assert r.expected[0] in r.expected;
    }
  }

  lemma ExpectedAlike(w: World, f: Facts, g: Facts, uid: string, c: CapabilityType)
    requires Sane(w) && f.at == g.at && forall t: Target, slot: string :: FiledSet(f, t, slot) == FiledSet(g, t, slot)
    ensures ExpectedState(w, f, uid, c) == ExpectedState(w, g, uid, c)
  {
    hide Declares, Nodes, CapResult, WorldOk, Acyclic, FiledSet;
    var k := CapKey(uid, c.name);
    if k in Nodes(w) {
      AgreeEverywhere(w, f, g, k);
      SupportContains(w, f, g, k);
    }
  }

  /** Inside the window nothing is final but recovery itself, and that the
      record no longer applies. */
  lemma FinalInsideWindow(r: Ended, s: Snapshot, now: Time)
    requires RecoveryOf(r, s, now).Final() && now < r.endedAt + r.window
    ensures RecoveryOf(r, s, now) == A.Recovered || (RecoveryOf(r, s, now) == A.InapplicableNow && !Assessable(r, s))
  {
    hide Assessable, AssessmentOn;
    if Assessable(r, s) {
      VerdictIsExact(r, s, now, PostFacts(s, r, now));
    }
  }

  /** What makes a record assessable: the target first found under its UID is
      valid, and every part of the binding is as it was when the attempt was
      decided. */
  lemma AssessableMeaning(r: Ended, s: Snapshot)
    ensures Assessable(r, s) <==>
      exists t :: && OneValid(Evaluator.FinalWorld(s.targets, s.contracts), r.targetUid, t)
                  && t.identity == r.binding.target && t.resolvedUid == r.binding.resolvedUid && t.contractRef == r.binding.contract
                  && multiset(t.assertionBindings) == r.binding.providers && multiset(t.dependencyBindings) == r.binding.dependencies
  {
    hide OneValid, UniqueValid, Evaluator.BaseWorld, Rejected, WorldOk, Acyclic;
    var w := Evaluator.FinalWorld(s.targets, s.contracts);
    Evaluator.WorldsOk(s.targets, s.contracts);
    OkTarget(w, r.targetUid);
    OneValidMeaning(w, r.targetUid);
    if r.targetUid in w.ok {
      var t := UniqueValid(w, r.targetUid).value;
      FinalTargets(s);
      assert OneValid(w, r.targetUid, t);
      TheOnly(w, r.targetUid, t);
      FirstUnique(s.targets, (x: Target) => x.identity.uid == r.targetUid, t);
    }
  }

  lemma FinalTargets(s: Snapshot)
    ensures Evaluator.FinalWorld(s.targets, s.contracts).targets == s.targets
  {
    hide Resolves, OwnsCycle;
  }

  lemma TheOnly(w: World, uid: string, t: Target)
    requires OneValid(w, uid, t)
    ensures uid in w.ok && t in w.targets && t.identity.uid == uid && forall x :: x in w.targets && x.identity.uid == uid ==> x == t
  {
  }

  /** Statements made before the end never matter: two snapshots that agree on
      what was observed after it get the same verdict. */
  lemma EarlierStatementsDoNotMatter(r: Ended, s: Snapshot, other: seq<Observation>, now: Time)
    requires forall o: Observation :: o.observedAt > r.endedAt ==> (o in s.facts.observations <==> o in other)
    ensures RecoveryOf(r, s, now) == RecoveryOf(r, s.(facts := Facts(s.facts.at, other)), now)
  {
    var s' := s.(facts := Facts(s.facts.at, other));
    if Assessable(r, s) {
      hide Evaluator.FinalWorld, AssessmentOn, Evaluator.Assessed, Classify;
      SameAssessment(s, s', r, PostFacts(s, r, now), PostFacts(s', r, now));
    }
  }

  lemma SameAssessment(s: Snapshot, s': Snapshot, r: Ended, f: Facts, g: Facts)
    requires Assessable(r, s) && s'.targets == s.targets && s'.contracts == s.contracts
    requires f.at == g.at && forall o: Observation :: o in f.observations <==> o in g.observations
    ensures Assessable(r, s') && AssessmentOn(s, r, f) == AssessmentOn(s', r, g)
  {
    hide Evaluator.FinalWorld, CapResult, EnvelopeOf, EvidenceOf, Nodes, WorldOk, Acyclic, FiledSet, WellFormed, Evaluator.CapabilityMap, Evaluator.EvidenceMap, Evaluator.EnvelopeMap, Resolves;
    var w := Evaluator.FinalWorld(s.targets, s.contracts);
    var t := Proposals.TargetWithUid(s.targets, r.targetUid).value;
    Evaluator.WorldsOk(s.targets, s.contracts);
    OkTarget(w, r.targetUid);
    var c := ContractOf(s.contracts, t).value;
    LookupUnique(c);
    SameMembers(f, g);
    forall k | k in Nodes(w) ensures CapResult(w, f, k) == CapResult(w, g, k) {
      AgreeEverywhere(w, f, g, k);
      SupportContains(w, f, g, k);
    }
    SameCapabilities(w, f, g, t, c);
    SameEvidence(f, g, t, c);
    SameEnvelopes(f, g, t, c);
  }

  lemma SameMembers(f: Facts, g: Facts)
    requires forall o: Observation :: o in f.observations <==> o in g.observations
    ensures forall t: Target, slot: string :: FiledSet(f, t, slot) == FiledSet(g, t, slot)
  {
  }

  lemma AgreeEverywhere(w: World, f: Facts, g: Facts, k: CapKey)
    requires Sane(w) && k in Nodes(w) && forall t: Target, slot: string :: FiledSet(f, t, slot) == FiledSet(g, t, slot)
    ensures AgreeOnSupport(w, f, g, k)
  {
    hide FiledSet, Nodes, WorldOk, Acyclic, Reaches, CapGraph, Reads;
  }

  lemma SameCapabilities(w: World, f: Facts, g: Facts, t: Target, c: Contract)
    requires Sane(w) && Evaluator.ValidTarget(w, t, c) && t.identity.uid in w.ok
    requires forall k :: k in Nodes(w) ==> CapResult(w, f, k) == CapResult(w, g, k)
    ensures Evaluator.CapabilityMap(w, f, t, c) == Evaluator.CapabilityMap(w, g, t, c)
  {
    hide CapResult, Nodes, WorldOk, Acyclic;
    forall ty | ty in (set cp | cp in c.capabilities :: cp.typ) ensures CapKey(t.identity.uid, ty.name) in Nodes(w) {
      Evaluator.TypeInNodes(w, t, c, ty);
    }
  }

  lemma SameEvidence(f: Facts, g: Facts, t: Target, c: Contract)
    requires f.at == g.at && forall slot: string :: FiledSet(f, t, slot) == FiledSet(g, t, slot)
    requires forall s :: s in c.assertions ==> FindSlot(c, s.name) == Some(s)
    ensures Evaluator.EvidenceMap(f, t, c) == Evaluator.EvidenceMap(g, t, c)
  {
    hide EvidenceOf, FindSlot, FiledSet;
    forall slot ensures EvidenceOf(f, t, slot) == EvidenceOf(g, t, slot) {
      EvidenceIsLocal(f, g, t, slot);
    }
  }

  lemma SameEnvelopes(f: Facts, g: Facts, t: Target, c: Contract)
    requires f.at == g.at && forall slot: string :: FiledSet(f, t, slot) == FiledSet(g, t, slot)
    requires forall e :: e in c.envelopes ==> FindEnvelope(c, e.name) == Some(e)
    ensures Evaluator.EnvelopeMap(f, t, c) == Evaluator.EnvelopeMap(g, t, c)
  {
    hide EnvelopeOf, FindEnvelope, FiledSet;
    forall env ensures EnvelopeOf(f, t, c, env) == EnvelopeOf(g, t, c, env) {
      EnvelopeIsLocal(f, g, t, c, env);
    }
  }
}
