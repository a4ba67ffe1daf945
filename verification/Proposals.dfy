/** Deriving the proposals of a step from the assessment and the declared
    profile (pkg/action/proposal.go). */
module Proposals {
  import opened Wrappers
  import opened OpsTypes
  import opened Profiles
  import opened ActionTypes
  import opened Protocol

  /** `targetOf`. */
  function TargetWithUid(ts: seq<Target>, uid: string): Option<Target> {
    First(ts, (t: Target) => t.identity.uid == uid)
  }

  /** The states of one target's capabilities. */
  function StatesOf(ta: TargetAssessment): map<CapabilityType, CapabilityState> {
    map c | c in ta.capabilities :: ta.capabilities[c].state
  }

  /** The response is declared for this target and triggered by its capability's state now. */
  predicate Triggered(t: TargetIdentity, caps: map<CapabilityType, CapabilityState>, r: Response) {
    r.Names(t) && r.for_ in caps && r.Triggers(caps[r.for_])
  }

  /** `applicable`: no precondition is proven unmet. */
  predicate Applicable(caps: map<CapabilityType, CapabilityState>, r: Response) {
    forall c :: c in r.preconditions ==> c in caps ==> caps[c] != Degraded && caps[c] != Unavailable
  }

  function ProofOf(caps: map<CapabilityType, CapabilityState>, c: CapabilityType): Proof {
    if c in caps then match caps[c] case Available => Proven case Unknown => Unproven case _ => Unmet else Unproven
  }

  // ── the human boundary, as sets ───────────────────────────────────────────

  /** The applicable triggered responses to capability k, told apart as the display tells them. */
  ghost function Viable(t: TargetIdentity, caps: map<CapabilityType, CapabilityState>, rs: seq<Response>, k: CapabilityType): set<ResponseKey> {
    set r | r in rs && Triggered(t, caps, r) && Applicable(caps, r) && r.for_ == k :: KeyOfResponse(r)
  }

  /** The execution contracts one such response is declared with. */
  ghost function Contracts(t: TargetIdentity, caps: map<CapabilityType, CapabilityState>, rs: seq<Response>, rk: ResponseKey): set<DeclarationKey> {
    set r | r in rs && Triggered(t, caps, r) && Applicable(caps, r) && r.execution.Some? && KeyOfResponse(r) == rk :: KeyOfDeclaration(r)
  }

  datatype ActionFor = ActionFor(for_: CapabilityType, action: ActionRef)

  /** The owners one action is declared with for one capability, applicable or not. */
  ghost function Owners(t: TargetIdentity, caps: map<CapabilityType, CapabilityState>, rs: seq<Response>, a: ActionFor): set<string> {
    set r | r in rs && Triggered(t, caps, r) && ActionFor(r.for_, r.action) == a :: r.owner
  }

  /** Triggered declarations with an execution contract. */
  ghost function Declarations(t: TargetIdentity, caps: map<CapabilityType, CapabilityState>, rs: seq<Response>): set<DeclarationKey> {
    set r | r in rs && Triggered(t, caps, r) && r.execution.Some? :: KeyOfDeclaration(r)
  }

  ghost predicate Competing(t: TargetIdentity, caps: map<CapabilityType, CapabilityState>, rs: seq<Response>, r: Response) {
    |Viable(t, caps, rs, r.for_)| > 1 || |Contracts(t, caps, rs, KeyOfResponse(r))| > 1
  }

  ghost predicate OwnersDiffer(t: TargetIdentity, caps: map<CapabilityType, CapabilityState>, rs: seq<Response>, r: Response) {
    |Owners(t, caps, rs, ActionFor(r.for_, r.action))| > 1
  }

  // ── proposalOf ────────────────────────────────────────────────────────────

  function SubjectOf(t: Target, r: Response, profile: string): ProposalSubject {
    ProposalSubject(BindingOf(t), r.action, r.for_, profile, KeyOfDeclaration(r))
  }

  function ProposalOf(t: Target, caps: map<CapabilityType, CapabilityState>, reasons: set<Reason>, r: Response, profile: string,
                      episode: nat, competing: bool, ownersDiffer: bool): Proposal
    requires r.for_ in caps && r.execution.Some?
  {
    var id := ProposalId(SubjectOf(t, r, profile), episode);
    var human := r.DeclaredHuman() + if competing then [NoPriorityAuthority] else [];
    var pre := seq(|r.preconditions|, i requires 0 <= i < |r.preconditions| => Precondition(ProofOf(caps, r.preconditions[i]), r.preconditions[i]));
    Proposal(id,
      Digest(id, caps[r.for_], reasons, multiset(pre), BindingOf(t), human, ownersDiffer, r.owner, multiset(r.risks), r.execution.value, profile),
      r, profile, BindingOf(t), r.for_, r.execution.value.expectedImpact, pre, human, ownersDiffer)
  }

  // ── the loops of derive ───────────────────────────────────────────────────

  function At<K, V>(m: map<K, set<V>>, k: K): set<V> {
    if k in m then m[k] else {}
  }

  lemma OneMore(t: TargetIdentity, caps: map<CapabilityType, CapabilityState>, rs: seq<Response>, r: Response)
    ensures forall k :: Viable(t, caps, rs + [r], k) == Viable(t, caps, rs, k) + Viable(t, caps, [r], k)
    ensures forall k :: Viable(t, caps, [r], k)
                        == if Triggered(t, caps, r) && Applicable(caps, r) && r.for_ == k then {KeyOfResponse(r)} else {}
    ensures forall rk :: Contracts(t, caps, rs + [r], rk) == Contracts(t, caps, rs, rk) + Contracts(t, caps, [r], rk)
    ensures forall rk :: Contracts(t, caps, [r], rk)
                        == if Triggered(t, caps, r) && Applicable(caps, r) && r.execution.Some? && KeyOfResponse(r) == rk then {KeyOfDeclaration(r)} else {}
    ensures forall a :: Owners(t, caps, rs + [r], a) == Owners(t, caps, rs, a) + Owners(t, caps, [r], a)
    ensures forall a :: Owners(t, caps, [r], a) == if Triggered(t, caps, r) && ActionFor(r.for_, r.action) == a then {r.owner} else {}
  {
    hide Triggered, Applicable, KeyOfResponse, KeyOfDeclaration;
  }

  /** The first pass over the profile: viable responses, contracts and owners. */
  method Survey(t: TargetIdentity, caps: map<CapabilityType, CapabilityState>, rs: seq<Response>)
    returns (viable: map<CapabilityType, set<ResponseKey>>, contracts: map<ResponseKey, set<DeclarationKey>>,
             owners: map<ActionFor, set<string>>)
    ensures forall k :: At(viable, k) == Viable(t, caps, rs, k)
    ensures forall rk :: At(contracts, rk) == Contracts(t, caps, rs, rk)
    ensures forall a :: At(owners, a) == Owners(t, caps, rs, a)
  {
    hide Triggered, Applicable, KeyOfResponse, Viable, Contracts, Owners;
    SurveyNothing(t, caps);
    viable, contracts, owners := map[], map[], map[];
    assert rs[..0] == [];
    for i := 0 to |rs|
      invariant forall k :: At(viable, k) == Viable(t, caps, rs[..i], k)
      invariant forall rk :: At(contracts, rk) == Contracts(t, caps, rs[..i], rk)
      invariant forall a :: At(owners, a) == Owners(t, caps, rs[..i], a)
    {
      var r := rs[i];
      assert rs[..i + 1] == rs[..i] + [r];
      OneMore(t, caps, rs[..i], r);
      if Triggered(t, caps, r) {
        var a := ActionFor(r.for_, r.action);
        owners := owners[a := At(owners, a) + {r.owner}];
        if Applicable(caps, r) {
          var rk := KeyOfResponse(r);
          viable := viable[r.for_ := At(viable, r.for_) + {rk}];
          if r.execution.Some? {
            contracts := contracts[rk := At(contracts, rk) + {KeyOfDeclaration(r)}];
          }
        }
      }
    }
    assert rs[..|rs|] == rs;
  }

  lemma SurveyNothing(t: TargetIdentity, caps: map<CapabilityType, CapabilityState>)
    ensures forall k :: Viable(t, caps, [], k) == {}
    ensures forall rk :: Contracts(t, caps, [], rk) == {}
    ensures forall a :: Owners(t, caps, [], a) == {}
  {
  }

  /** The second pass: one canonical response per declaration. */
  method Declare(t: TargetIdentity, caps: map<CapabilityType, CapabilityState>, rs: seq<Response>)
    returns (decls: map<DeclarationKey, Response>)
    ensures decls.Keys == Declarations(t, caps, rs)
    ensures forall d :: d in decls ==> decls[d] in rs && KeyOfDeclaration(decls[d]) == d && Triggered(t, caps, decls[d]) && decls[d].execution.Some?
  {
    hide Triggered, KeyOfDeclaration;
    decls := map[];
    for i := 0 to |rs|
      invariant decls.Keys == Declarations(t, caps, rs[..i])
      invariant forall d :: d in decls ==> decls[d] in rs && KeyOfDeclaration(decls[d]) == d && Triggered(t, caps, decls[d]) && decls[d].execution.Some?
    {
      var r := rs[i];
      assert rs[..i + 1] == rs[..i] + [r];
      if r.execution.Some? && Triggered(t, caps, r) && KeyOfDeclaration(r) !in decls {
        decls := decls[KeyOfDeclaration(r) := r];
      }
    }
    assert rs[..|rs|] == rs;
  }

  /** `episode`: one more than the recovered proposals of the subject. */
  method Episode(recs: map<Key, Record>, subject: ProposalSubject) returns (n: nat)
    ensures n == 1 + |RecoveredEpisodes(recs, subject)|
  {
    var done: set<int> := {};
    var keys := recs.Keys;
    while keys != {}
      invariant keys <= recs.Keys
      invariant done == set k | k in recs && k !in keys && k.id.subject == subject && recs[k].recovery == Recovered :: k.id.episode as int
    {
      var k :| k in keys;
      if k.id.subject == subject && recs[k].recovery == Recovered {
        done := done + {k.id.episode};
      }
      keys := keys - {k};
    }
    assert done == RecoveredEpisodes(recs, subject);
    n := 1 + |done|;
  }

  /** p is the proposal of declaration r for this target. */
  ghost predicate IsProposal(t: Target, ta: TargetAssessment, profile: Profile, recs: map<Key, Record>, r: Response, p: Proposal) {
    var caps := StatesOf(ta);
    && r in profile.responses && Triggered(t.identity, caps, r) && r.execution.Some?
    && p == ProposalOf(t, caps, ta.capabilities[r.for_].reasons, r, profile.revision,
              1 + |RecoveredEpisodes(recs, SubjectOf(t, r, profile.revision))|,
              Competing(t.identity, caps, profile.responses, r), OwnersDiffer(t.identity, caps, profile.responses, r))
  }

  /** The proposals of one valid target: exactly one per triggered declaration. */
  method DeriveTarget(t: Target, ta: TargetAssessment, profile: Profile, recs: map<Key, Record>)
    returns (out: map<DeclarationKey, Proposal>)
    ensures out.Keys == Declarations(t.identity, StatesOf(ta), profile.responses)
    ensures forall d :: d in out ==>
      KeyOfDeclaration(out[d].response) == d && IsProposal(t, ta, profile, recs, out[d].response, out[d])
  {
    hide Viable, Contracts, Owners, Declarations, Triggered, KeyOfDeclaration, StatesOf, IsProposal;
    var caps := StatesOf(ta);
    var viable, contracts, owners := Survey(t.identity, caps, profile.responses);
    var decls := Declare(t.identity, caps, profile.responses);
    out := map[];
    var left := decls.Keys;
    while left != {}
      invariant left <= decls.Keys && out.Keys == decls.Keys - left
      invariant forall d :: d in out ==>
        KeyOfDeclaration(out[d].response) == d && IsProposal(t, ta, profile, recs, out[d].response, out[d])
    {
      var d :| d in left;
      var p := ProposeOne(t, ta, profile, recs, decls[d], viable, contracts, owners);
      out := out[d := p];
      left := left - {d};
    }
  }

  /** The proposal of one triggered declaration, from the surveyed maps. */
  method ProposeOne(t: Target, ta: TargetAssessment, profile: Profile, recs: map<Key, Record>, r: Response,
                    viable: map<CapabilityType, set<ResponseKey>>, contracts: map<ResponseKey, set<DeclarationKey>>, owners: map<ActionFor, set<string>>)
    returns (p: Proposal)
    requires r in profile.responses && Triggered(t.identity, StatesOf(ta), r) && r.execution.Some?
    requires forall k :: At(viable, k) == Viable(t.identity, StatesOf(ta), profile.responses, k)
    requires forall rk :: At(contracts, rk) == Contracts(t.identity, StatesOf(ta), profile.responses, rk)
    requires forall a :: At(owners, a) == Owners(t.identity, StatesOf(ta), profile.responses, a)
    ensures IsProposal(t, ta, profile, recs, r, p) && p.response == r
  {
    hide Viable, Contracts, Owners, Triggered, RecoveredEpisodes, StatesOf, At;
    var caps := StatesOf(ta);
    CapsKeys(ta);
    TriggeredIn(t.identity, caps, r);
    var episode := Episode(recs, SubjectOf(t, r, profile.revision));
    var competing := |At(viable, r.for_)| > 1 || |At(contracts, KeyOfResponse(r))| > 1;
    var ownersDiffer := |At(owners, ActionFor(r.for_, r.action))| > 1;
    assert competing == Competing(t.identity, caps, profile.responses, r);
    assert ownersDiffer == OwnersDiffer(t.identity, caps, profile.responses, r);
    p := ProposalOf(t, caps, ta.capabilities[r.for_].reasons, r, profile.revision, episode, competing, ownersDiffer);
  }

  lemma CapsKeys(ta: TargetAssessment)
    ensures StatesOf(ta).Keys == ta.capabilities.Keys
    ensures forall c :: c in ta.capabilities ==> StatesOf(ta)[c] == ta.capabilities[c].state
  {
  }

  lemma TriggeredIn(t: TargetIdentity, caps: map<CapabilityType, CapabilityState>, r: Response)
    requires Triggered(t, caps, r)
    ensures r.for_ in caps
  {
  }

  lemma ProposalWellBuilt(t: Target, ta: TargetAssessment, profile: Profile, recs: map<Key, Record>, r: Response, p: Proposal)
    requires ProfileOk(profile) && IsProposal(t, ta, profile, recs, r, p)
    ensures WellBuilt(p) && p.response == r && p.id.episode == 1 + |RecoveredEpisodes(recs, p.id.subject)|
  {
    hide RecoveredEpisodes, Competing, OwnersDiffer, Triggered;
    assert ResponseOk(r);
  }

  // ── what a proposal says ──────────────────────────────────────────────────

  /** r is declared for this very target, and its capability is in a state that
      triggers it: a listed one, or by default an affected one. */
  ghost predicate Fires(t: TargetIdentity, ta: TargetAssessment, r: Response) {
    && r.target.namespace == t.namespace && r.target.name == t.name && (r.target.uid == "" || r.target.uid == t.uid)
    && r.for_ in ta.capabilities
    && var s := ta.capabilities[r.for_].state;
       if r.states == [] then s == Degraded || s == Unavailable else s in r.states
  }

  /** None of r's preconditions is known to be violated. */
  ghost predicate Possible(ta: TargetAssessment, r: Response) {
    forall c :: c in r.preconditions && c in ta.capabilities ==> ta.capabilities[c].state == Available || ta.capabilities[c].state == Unknown
  }

  /** There are two ways to respond: two responses for the capability that are
      told apart, or two execution contracts for this one. */
  ghost predicate Rivalled(t: TargetIdentity, ta: TargetAssessment, rs: seq<Response>, r: Response) {
    exists q, o :: q in rs && o in rs && Fires(t, ta, q) && Fires(t, ta, o) && Possible(ta, q) && Possible(ta, o) && (
      || (q.for_ == r.for_ && o.for_ == r.for_ && KeyOfResponse(q) != KeyOfResponse(o))
      || (q.execution.Some? && o.execution.Some? && KeyOfResponse(q) == KeyOfResponse(r) == KeyOfResponse(o) && q.execution != o.execution))
  }

  /** The action is declared with two owners for the capability. */
  ghost predicate Disputed(t: TargetIdentity, ta: TargetAssessment, rs: seq<Response>, r: Response) {
    exists q, o :: q in rs && o in rs && Fires(t, ta, q) && Fires(t, ta, o)
                   && q.for_ == r.for_ == o.for_ && q.action == r.action == o.action && q.owner != o.owner
  }

  lemma FiresMeaning(t: TargetIdentity, ta: TargetAssessment, r: Response)
    ensures Triggered(t, StatesOf(ta), r) <==> Fires(t, ta, r)
    ensures Applicable(StatesOf(ta), r) <==> Possible(ta, r)
  {
  }

  lemma MoreThanOne<T>(s: set<T>)
    ensures |s| > 1 <==> exists x, y :: x in s && y in s && x != y
  {
    if s != {} {
      var x :| x in s;
      var rest := s - {x};
      assert |rest| == |s| - 1;
      if rest != {} {
        var y :| y in rest;
        assert y in s && x != y;
      } else {
        assert s == {x};
      }
    }
  }

  lemma CompetingMeaning(t: TargetIdentity, ta: TargetAssessment, rs: seq<Response>, r: Response)
    ensures Competing(t, StatesOf(ta), rs, r) <==> Rivalled(t, ta, rs, r)
  {
    hide StatesOf, Triggered, Applicable, Fires, Possible, KeyOfResponse;
    var caps := StatesOf(ta);
    forall q ensures (Triggered(t, caps, q) <==> Fires(t, ta, q)) && (Applicable(caps, q) <==> Possible(ta, q)) {
      FiresMeaning(t, ta, q);
    }
    MoreThanOne(Viable(t, caps, rs, r.for_));
    MoreThanOne(Contracts(t, caps, rs, KeyOfResponse(r)));
    RivalResponses(t, ta, rs, r);
    RivalContracts(t, ta, rs, r);
  }

  lemma RivalResponses(t: TargetIdentity, ta: TargetAssessment, rs: seq<Response>, r: Response)
    ensures var vs := Viable(t, StatesOf(ta), rs, r.for_);
      (exists x, y :: x in vs && y in vs && x != y) <==>
        exists q, o :: q in rs && o in rs && Fires(t, ta, q) && Fires(t, ta, o) && Possible(ta, q) && Possible(ta, o)
                       && q.for_ == r.for_ && o.for_ == r.for_ && KeyOfResponse(q) != KeyOfResponse(o)
  {
    hide StatesOf, Triggered, Applicable, Fires, Possible, KeyOfResponse;
    var caps, vs := StatesOf(ta), Viable(t, StatesOf(ta), rs, r.for_);
    forall q ensures (Triggered(t, caps, q) <==> Fires(t, ta, q)) && (Applicable(caps, q) <==> Possible(ta, q)) {
      FiresMeaning(t, ta, q);
    }
    forall q | q in rs && Fires(t, ta, q) && Possible(ta, q) && q.for_ == r.for_ ensures KeyOfResponse(q) in vs { }
    if x, y :| x in vs && y in vs && x != y {
      var q :| q in rs && Fires(t, ta, q) && Possible(ta, q) && q.for_ == r.for_ && KeyOfResponse(q) == x;
      var o :| o in rs && Fires(t, ta, o) && Possible(ta, o) && o.for_ == r.for_ && KeyOfResponse(o) == y;
    }
  }

  lemma RivalContracts(t: TargetIdentity, ta: TargetAssessment, rs: seq<Response>, r: Response)
    ensures var ds := Contracts(t, StatesOf(ta), rs, KeyOfResponse(r));
      (exists x, y :: x in ds && y in ds && x != y) <==>
        exists q, o :: q in rs && o in rs && Fires(t, ta, q) && Fires(t, ta, o) && Possible(ta, q) && Possible(ta, o)
                       && q.execution.Some? && o.execution.Some? && KeyOfResponse(q) == KeyOfResponse(r) == KeyOfResponse(o) && q.execution != o.execution
  {
    hide StatesOf, Triggered, Applicable, Fires, Possible, KeyOfResponse;
    var caps, ds := StatesOf(ta), Contracts(t, StatesOf(ta), rs, KeyOfResponse(r));
    forall q ensures (Triggered(t, caps, q) <==> Fires(t, ta, q)) && (Applicable(caps, q) <==> Possible(ta, q)) {
      FiresMeaning(t, ta, q);
    }
    forall q | q in rs && Fires(t, ta, q) && Possible(ta, q) && q.execution.Some? && KeyOfResponse(q) == KeyOfResponse(r) ensures KeyOfDeclaration(q) in ds { }
    if x, y :| x in ds && y in ds && x != y {
      var q :| q in rs && Fires(t, ta, q) && Possible(ta, q) && q.execution.Some? && KeyOfResponse(q) == KeyOfResponse(r) && KeyOfDeclaration(q) == x;
      var o :| o in rs && Fires(t, ta, o) && Possible(ta, o) && o.execution.Some? && KeyOfResponse(o) == KeyOfResponse(r) && KeyOfDeclaration(o) == y;
    }
  }

  lemma OwnersMeaning(t: TargetIdentity, ta: TargetAssessment, rs: seq<Response>, r: Response)
    ensures OwnersDiffer(t, StatesOf(ta), rs, r) <==> Disputed(t, ta, rs, r)
  {
    hide StatesOf, Triggered, Fires;
    var caps := StatesOf(ta);
    var os := Owners(t, caps, rs, ActionFor(r.for_, r.action));
    forall q ensures Triggered(t, caps, q) <==> Fires(t, ta, q) {
      FiresMeaning(t, ta, q);
    }
    MoreThanOne(os);
    forall q | q in rs && Fires(t, ta, q) && q.for_ == r.for_ && q.action == r.action ensures q.owner in os { }
    if x, y :| x in os && y in os && x != y {
      var q :| q in rs && Fires(t, ta, q) && q.for_ == r.for_ && q.action == r.action && q.owner == x;
      var o :| o in rs && Fires(t, ta, o) && o.for_ == r.for_ && o.action == r.action && o.owner == y;
    }
  }

  /** What a proposal rests on: a declaration that fires, the state and proof of
      its preconditions, a person wherever the declaration is risky, asks for
      one, may interrupt or has a rival, and a conflict wherever owners differ. */
  lemma ProposalMeaning(t: Target, ta: TargetAssessment, profile: Profile, recs: map<Key, Record>, r: Response, p: Proposal)
    requires IsProposal(t, ta, profile, recs, r, p)
    ensures r in profile.responses && Fires(t.identity, ta, r) && r.execution.Some? && p.response == r && p.profile == profile.revision
    ensures p.for_ == r.for_ && p.expected == r.execution.value.expectedImpact
    ensures p.binding.target == t.identity && p.binding.resolvedUid == t.resolvedUid && p.binding.contract == t.contractRef
    ensures p.binding.providers == multiset(t.assertionBindings) && p.binding.dependencies == multiset(t.dependencyBindings)
    ensures p.human != [] <==>
      r.requiresApproval || r.risks != [] || r.execution.value.mayInterrupt != [] || Rivalled(t.identity, ta, profile.responses, r)
    ensures p.ownerConflict <==> Disputed(t.identity, ta, profile.responses, r)
    ensures |p.preconditions| == |r.preconditions|
    ensures forall i :: 0 <= i < |r.preconditions| ==>
      var c := r.preconditions[i];
      var s := if c in ta.capabilities then ta.capabilities[c].state else Unknown;
      && p.preconditions[i].subject == c
      && (p.preconditions[i].proof == Proven <==> s == Available)
      && (p.preconditions[i].proof == Unproven <==> s == Unknown)
      && (p.preconditions[i].proof == Unmet <==> s == Degraded || s == Unavailable)
  {
    hide RecoveredEpisodes, Rivalled, Competing, OwnersDiffer, Disputed;
    CompetingMeaning(t.identity, ta, profile.responses, r);
    OwnersMeaning(t.identity, ta, profile.responses, r);
    FiresMeaning(t.identity, ta, r);
  }

  /** Proposals with one digest are about the same thing in every respect that a
      person or a provider may rely on: an approval given for one state of
      affairs does not carry over to another. */
  lemma DigestCovers(t: Target, ta: TargetAssessment, profile: Profile, recs: map<Key, Record>, r: Response, p: Proposal,
                     t': Target, ta': TargetAssessment, profile': Profile, recs': map<Key, Record>, r': Response, p': Proposal)
    requires IsProposal(t, ta, profile, recs, r, p) && IsProposal(t', ta', profile', recs', r', p') && p.digest == p'.digest
    ensures p.id == p'.id && r.for_ == r'.for_ && r.action == r'.action && r.owner == r'.owner && r.execution == r'.execution
    ensures r.for_ in ta.capabilities && r.for_ in ta'.capabilities
    ensures ta.capabilities[r.for_].state == ta'.capabilities[r.for_].state && ta.capabilities[r.for_].reasons == ta'.capabilities[r.for_].reasons
    ensures multiset(p.preconditions) == multiset(p'.preconditions) && p.human == p'.human && p.ownerConflict == p'.ownerConflict
    ensures r.requiresApproval == r'.requiresApproval && multiset(r.risks) == multiset(r'.risks) && profile.revision == profile'.revision
    ensures t.identity == t'.identity && t.resolvedUid == t'.resolvedUid && t.contractRef == t'.contractRef
    ensures multiset(t.assertionBindings) == multiset(t'.assertionBindings) && multiset(t.dependencyBindings) == multiset(t'.dependencyBindings)
  {
    hide RecoveredEpisodes, Competing, OwnersDiffer, Triggered;
    TriggeredIn(t.identity, StatesOf(ta), r);
    TriggeredIn(t'.identity, StatesOf(ta'), r');
    CapsKeys(ta);
    CapsKeys(ta');
  }

  /** p belongs to some valid target of the assessment. */
  ghost predicate Justified(targets: seq<Target>, assessment: seq<TargetAssessment>, profile: Profile, recs: map<Key, Record>, p: Proposal) {
    exists t, ta :: ta in assessment && ta.valid && TargetWithUid(targets, ta.target.uid) == Some(t)
                    && IsProposal(t, ta, profile, recs, p.response, p)
  }

  /** The ID under which declaration d of target t is proposed now. */
  ghost function IdFor(t: Target, d: DeclarationKey, revision: string, recs: map<Key, Record>): ProposalId {
    var subject := ProposalSubject(BindingOf(t), d.response.action, d.response.for_, revision, d);
    ProposalId(subject, 1 + |RecoveredEpisodes(recs, subject)|)
  }

  /** All triggered declarations of the target are proposed. */
  ghost predicate Covered(t: Target, ta: TargetAssessment, profile: Profile, recs: map<Key, Record>, props: map<ProposalId, Proposal>) {
    forall d :: d in Declarations(t.identity, StatesOf(ta), profile.responses) ==> IdFor(t, d, profile.revision, recs) in props
  }

  lemma ProposalHasId(t: Target, ta: TargetAssessment, profile: Profile, recs: map<Key, Record>, r: Response, p: Proposal)
    requires IsProposal(t, ta, profile, recs, r, p)
    ensures p.id == IdFor(t, KeyOfDeclaration(r), profile.revision, recs)
  {
  }

  /** `derive`: exactly one proposal for every triggered declaration of every
      valid target, and no other. */
  method Derive(targets: seq<Target>, assessment: seq<TargetAssessment>, profile: Option<Profile>, recs: map<Key, Record>)
    returns (props: map<ProposalId, Proposal>)
    requires profile.Some? ==> ProfileOk(profile.value)
    ensures WellDerived(props, recs)
    ensures profile.None? ==> props == map[]
    ensures profile.Some? ==> forall id :: id in props ==> Justified(targets, assessment, profile.value, recs, props[id])
    ensures profile.Some? ==> forall ta :: ta in assessment && ta.valid && TargetWithUid(targets, ta.target.uid).Some? ==>
      Covered(TargetWithUid(targets, ta.target.uid).value, ta, profile.value, recs, props)
  {
    hide Justified, Covered, WellDerived, TargetWithUid, ProfileOk;
    props := map[];
    NothingDerived(recs);
    if profile.None? {
      return;
    }
    for i := 0 to |assessment|
      invariant WellDerived(props, recs)
      invariant forall id :: id in props ==> Justified(targets, assessment, profile.value, recs, props[id])
      invariant forall ta :: ta in assessment[..i] && ta.valid && TargetWithUid(targets, ta.target.uid).Some? ==>
        Covered(TargetWithUid(targets, ta.target.uid).value, ta, profile.value, recs, props)
    {
      var ta := assessment[i];
      assert assessment[..i + 1] == assessment[..i] + [ta];
      var t := TargetWithUid(targets, ta.target.uid);
      if !ta.valid || t.None? {
        continue;
      }
      ghost var before := props;
      props := AddTarget(t.value, ta, targets, assessment, profile.value, recs, props);
      forall t', ta' | Covered(t', ta', profile.value, recs, before)
        ensures Covered(t', ta', profile.value, recs, props)
      {
        CoveredMore(t', ta', profile.value, recs, before, props);
      }
    }
    assert assessment[..|assessment|] == assessment;
  }

  lemma NothingDerived(recs: map<Key, Record>)
    ensures WellDerived(map[], recs)
  {
  }

  lemma CoveredMore(t: Target, ta: TargetAssessment, profile: Profile, recs: map<Key, Record>,
                    a: map<ProposalId, Proposal>, b: map<ProposalId, Proposal>)
    requires Covered(t, ta, profile, recs, a) && forall id :: id in a ==> id in b
    ensures Covered(t, ta, profile, recs, b)
  {
    hide Declarations, IdFor;
  }

  method AddTarget(t: Target, ta: TargetAssessment, ghost targets: seq<Target>, ghost assessment: seq<TargetAssessment>,
                   profile: Profile, recs: map<Key, Record>, props: map<ProposalId, Proposal>) returns (more: map<ProposalId, Proposal>)
    requires ProfileOk(profile) && ta in assessment && ta.valid && TargetWithUid(targets, ta.target.uid) == Some(t)
    requires WellDerived(props, recs)
    requires forall id :: id in props ==> Justified(targets, assessment, profile, recs, props[id])
    ensures WellDerived(more, recs)
    ensures forall id :: id in more ==> Justified(targets, assessment, profile, recs, more[id])
    ensures forall id :: id in props ==> id in more
    ensures Covered(t, ta, profile, recs, more)
  {
    hide IsProposal, WellBuilt, RecoveredEpisodes, TargetWithUid, ProfileOk, Declarations, IdFor, KeyOfDeclaration;
    more := props;
    var found := DeriveTarget(t, ta, profile, recs);
    var left := found.Keys;
    while left != {}
      invariant left <= found.Keys
      invariant WellDerived(more, recs)
      invariant forall id :: id in more ==> Justified(targets, assessment, profile, recs, more[id])
      invariant forall id :: id in props ==> id in more
      invariant forall d :: d in found && d !in left ==> IdFor(t, d, profile.revision, recs) in more
    {
      var d :| d in left;
      var p := found[d];
      ProposalWellBuilt(t, ta, profile, recs, p.response, p);
      ProposalHasId(t, ta, profile, recs, p.response, p);
      assert Justified(targets, assessment, profile, recs, p);
      more := more[p.id := p];
      left := left - {d};
    }
  }
}
