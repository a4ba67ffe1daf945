/** The display and automatic dispatch draw the same boundary, although each
    computes it on its own: `declared` and `decideCapability` of
    pkg/interaction/project.go, `derive` of pkg/action/proposal.go and the
    gates of pkg/action/engine.go. */
module Agreement {
  import opened Wrappers
  import opened OpsTypes
  import opened Profiles
  import A = ActionTypes
  import opened Proposals
  import Protocol
  import E = EngineRules
  import opened Interaction

  // ── counting images ───────────────────────────────────────────────────────

  /** Two functions that tell the same elements apart have images of one size. */
  lemma {:induction false} SameKernel<T, U, V>(s: set<T>, f: T -> U, g: T -> V)
    requires forall x, y :: x in s && y in s ==> (f(x) == f(y) <==> g(x) == g(y))
    ensures |(set x | x in s :: f(x))| == |(set x | x in s :: g(x))|
  {
    if s == {} {
      assert (set x | x in s :: f(x)) == {} && (set x | x in s :: g(x)) == {};
    } else {
      var x :| x in s;
      var rest := s - {x};
      SameKernel(rest, f, g);
      ImageSplit(s, x, f);
      ImageSplit(s, x, g);
      assert f(x) in (set y | y in rest :: f(y)) <==> g(x) in (set y | y in rest :: g(y)) by {
        if f(x) in (set y | y in rest :: f(y)) {
          var y :| y in rest && f(y) == f(x);
          assert g(y) == g(x);
        }
        if g(x) in (set y | y in rest :: g(y)) {
          var y :| y in rest && g(y) == g(x);
          assert f(y) == f(x);
        }
      }
    }
  }

  /** The same, for images given as sets. */
  lemma SameSizes<T, U, V>(s: set<T>, f: T -> U, g: T -> V, a: set<U>, b: set<V>)
    requires forall x, y :: x in s && y in s ==> (f(x) == f(y) <==> g(x) == g(y))
    requires (forall x :: x in s ==> f(x) in a && g(x) in b)
    requires (forall z :: z in a ==> exists x :: x in s && f(x) == z) && (forall z :: z in b ==> exists x :: x in s && g(x) == z)
    ensures |a| == |b|
  {
    SameKernel(s, f, g);
    assert a == (set x | x in s :: f(x));
    assert b == (set x | x in s :: g(x));
  }

  lemma ImageSplit<T, U>(s: set<T>, x: T, f: T -> U)
    requires x in s
    ensures |(set y | y in s :: f(y))| == |(set y | y in s - {x} :: f(y))| + if f(x) in (set y | y in s - {x} :: f(y)) then 0 else 1
  {
    var a, b := set y | y in s :: f(y), set y | y in s - {x} :: f(y);
    forall z ensures z in a <==> z in b + {f(x)} {
      if z in a {
        var y :| y in s && z == f(y);
      }
    }
    assert a == b + {f(x)};
  }

  lemma {:induction false} DistinctSize(xs: seq<Shown>)
    requires Distinct(xs)
    ensures |Elements(xs)| == |xs|
  {
    if xs != [] {
      var init := xs[..|xs| - 1];
      assert xs == init + [xs[|xs| - 1]];
      DistinctSize(init);
      ElementsAppend(init, xs[|xs| - 1]);
      assert xs[|xs| - 1] !in Elements(init);
    }
  }

  lemma {:induction false} ViableDistinct(xs: seq<Shown>)
    requires Distinct(xs)
    ensures Distinct(ViableOf(xs))
    ensures forall x :: x in ViableOf(xs) <==> x in xs && x.status != Status.Inapplicable
  {
    if xs != [] {
      assert xs == [xs[0]] + xs[1..];
      ViableDistinct(xs[1..]);
      assert xs[0] !in xs[1..];
    }
  }

  // ── the display tells apart what the response key tells apart ─────────────

  /** Each precondition is displayed as often as it is declared. */
  lemma {:induction false} ProofCounts(caps: map<CapabilityType, CapabilityState>, cs: seq<CapabilityType>, p: A.Precondition)
    ensures multiset(ProofsOf(caps, cs))[p] == if p.proof == ProofOf(caps, p.subject) then multiset(cs)[p.subject] else 0
  {
    if cs != [] {
      var init, c := cs[..|cs| - 1], cs[|cs| - 1];
      assert cs == init + [c];
      ProofCounts(caps, init, p);
      assert multiset(ProofsOf(caps, cs)) == multiset(ProofsOf(caps, init)) + multiset{A.Precondition(ProofOf(caps, c), c)};
    }
  }

  lemma SameProofs(caps: map<CapabilityType, CapabilityState>, cs: seq<CapabilityType>, ds: seq<CapabilityType>)
    ensures multiset(ProofsOf(caps, cs)) == multiset(ProofsOf(caps, ds)) <==> multiset(cs) == multiset(ds)
  {
    hide ProofsOf;
    var ms, ns := multiset(ProofsOf(caps, cs)), multiset(ProofsOf(caps, ds));
    if multiset(cs) == multiset(ds) {
      forall p ensures ms[p] == ns[p] {
        ProofCounts(caps, cs, p);
        ProofCounts(caps, ds, p);
      }
      assert ms == ns;
    }
    if ms == ns {
      forall c ensures multiset(cs)[c] == multiset(ds)[c] {
        ProofCounts(caps, cs, A.Precondition(ProofOf(caps, c), c));
        ProofCounts(caps, ds, A.Precondition(ProofOf(caps, c), c));
      }
      assert multiset(cs) == multiset(ds);
    }
  }

  lemma SameStatus(caps: map<CapabilityType, CapabilityState>, r: Response, q: Response)
    requires A.KeyOfResponse(r) == A.KeyOfResponse(q)
    ensures OwnStatus(caps, r) == OwnStatus(caps, q)
  {
    hide ProofOf;
    assert forall c :: c in r.preconditions <==> c in multiset(r.preconditions);
    assert forall c :: c in q.preconditions <==> c in multiset(q.preconditions);
    assert |multiset(r.risks)| == |r.risks| && |multiset(q.risks)| == |q.risks|;
  }

  /** Two triggered declarations are displayed alike exactly when they have the
      same response key. */
  lemma SameDisplay(t: TargetIdentity, caps: map<CapabilityType, CapabilityState>, rs: seq<Response>, r: Response, q: Response)
    ensures ShownOf(t, caps, rs, r) == ShownOf(t, caps, rs, q) <==> A.KeyOfResponse(r) == A.KeyOfResponse(q)
  {
    hide OwnStatus, ProofsOf, Owners;
    SameProofs(caps, r.preconditions, q.preconditions);
    if A.KeyOfResponse(r) == A.KeyOfResponse(q) {
      SameStatus(caps, r, q);
    }
  }

  lemma InapplicableMeans(t: TargetIdentity, caps: map<CapabilityType, CapabilityState>, rs: seq<Response>, r: Response)
    ensures ShownOf(t, caps, rs, r).status != Status.Inapplicable <==> Applicable(caps, r)
  {
    hide OwnersDiffer;
  }

  // ── the theorems ──────────────────────────────────────────────────────────

  /** xs is what `declared` lists for capability k. */
  ghost predicate Lists(t: TargetIdentity, caps: map<CapabilityType, CapabilityState>, rs: seq<Response>, k: CapabilityType, xs: seq<Shown>) {
    Elements(xs) == ShownSet(t, caps, rs, k) && Distinct(xs)
  }

  ghost function ViableResponses(t: TargetIdentity, caps: map<CapabilityType, CapabilityState>, rs: seq<Response>, k: CapabilityType): set<Response> {
    set r | r in rs && Triggered(t, caps, r) && Applicable(caps, r) && r.for_ == k
  }

  lemma ViableElements(t: TargetIdentity, caps: map<CapabilityType, CapabilityState>, rs: seq<Response>, k: CapabilityType, xs: seq<Shown>)
    requires Lists(t, caps, rs, k, xs)
    ensures Elements(ViableOf(xs)) == set r | r in ViableResponses(t, caps, rs, k) :: ShownOf(t, caps, rs, r)
  {
    hide Triggered, Applicable, ShownOf, ViableOf;
    ViableDistinct(xs);
    forall r ensures ShownOf(t, caps, rs, r).status != Status.Inapplicable <==> Applicable(caps, r) {
      InapplicableMeans(t, caps, rs, r);
    }
    var vs := set r | r in ViableResponses(t, caps, rs, k) :: ShownOf(t, caps, rs, r);
    forall x ensures x in Elements(ViableOf(xs)) <==> x in vs {
      assert x in xs <==> x in Elements(xs);
      if x in ViableOf(xs) {
        var r :| r in rs && Triggered(t, caps, r) && r.for_ == k && x == ShownOf(t, caps, rs, r);
        assert r in ViableResponses(t, caps, rs, k);
      }
    }
  }

  /** Both sides count the same number of viable responses per capability. */
  lemma SameCount(t: TargetIdentity, caps: map<CapabilityType, CapabilityState>, rs: seq<Response>, k: CapabilityType, xs: seq<Shown>)
    requires Lists(t, caps, rs, k, xs)
    ensures |ViableOf(xs)| == |Viable(t, caps, rs, k)|
  {
    hide Triggered, Applicable, ShownOf, ViableOf;
    ViableElements(t, caps, rs, k, xs);
    ViableDistinct(xs);
    DistinctSize(ViableOf(xs));
    var vs := ViableResponses(t, caps, rs, k);
    forall r, q | r in vs && q in vs
      ensures ShownOf(t, caps, rs, r) == ShownOf(t, caps, rs, q) <==> A.KeyOfResponse(r) == A.KeyOfResponse(q)
    {
      SameDisplay(t, caps, rs, r, q);
    }
    var f := (r: Response) => A.KeyOfResponse(r);
    var g := (r: Response) => ShownOf(t, caps, rs, r);
    SameSizes(vs, f, g, Viable(t, caps, rs, k), Elements(ViableOf(xs)));
  }

  /** The gates that depend on the declaration alone. */
  predicate OwnGates(p: A.Proposal) {
    && p.response.owner != "" && !p.ownerConflict
    && (forall i :: 0 <= i < |p.preconditions| ==> p.preconditions[i].proof == A.Proven)
  }

  /** No person is needed and nothing in the declaration blocks. */
  predicate Automatic(p: A.Proposal) {
    p.human == [] && OwnGates(p)
  }

  lemma GatesIncludeOwn(inp: E.StepInput, local: map<A.Key, A.Record>, p: A.Proposal, resend: bool)
    requires p.response.execution.Some? && E.GatesPass(inp, local, p, resend)
    ensures OwnGates(p)
  {
  }

  /** What OwnGates asks of the declaration. */
  lemma ProvenMeans(t: Target, ta: TargetAssessment, profile: Profile, recs: map<A.Key, A.Record>, r: Response, p: A.Proposal)
    requires IsProposal(t, ta, profile, recs, r, p)
    ensures OwnGates(p) <==>
      && r.owner != "" && !OwnersDiffer(t.identity, StatesOf(ta), profile.responses, r)
      && forall c :: c in r.preconditions ==> ProofOf(StatesOf(ta), c) == A.Proven
    ensures p.human == [] <==> r.DeclaredHuman() == [] && !Competing(t.identity, StatesOf(ta), profile.responses, r)
  {
    hide StatesOf, OwnersDiffer, Competing, Protocol.RecoveredEpisodes, Triggered, ProofOf;
    assert forall i :: 0 <= i < |p.preconditions| ==> p.preconditions[i] == A.Precondition(ProofOf(StatesOf(ta), r.preconditions[i]), r.preconditions[i]);
    assert |p.preconditions| == |r.preconditions|;
    if OwnGates(p) {
      forall c | c in r.preconditions ensures ProofOf(StatesOf(ta), c) == A.Proven {
        var i :| 0 <= i < |r.preconditions| && r.preconditions[i] == c;
        assert p.preconditions[i].proof == A.Proven;
      }
    }
  }

  /** Ready on the display says the same about the declaration, except that the
      display does not know the execution contract. */
  lemma ReadyMeans(t: TargetIdentity, caps: map<CapabilityType, CapabilityState>, rs: seq<Response>, r: Response)
    ensures ShownOf(t, caps, rs, r).status == Ready <==>
      && r.owner != "" && !OwnersDiffer(t, caps, rs, r) && !r.requiresApproval && r.risks == []
      && forall c :: c in r.preconditions ==> ProofOf(caps, c) == A.Proven
  {
    hide OwnersDiffer;
  }

  lemma ProvenIsApplicable(caps: map<CapabilityType, CapabilityState>, r: Response)
    requires forall c :: c in r.preconditions ==> ProofOf(caps, c) == A.Proven
    ensures Applicable(caps, r)
  {
  }

  lemma OnlyOne(s: set<Shown>, xs: seq<Shown>, x: Shown)
    requires Elements(xs) == s && |xs| == 1 && x in s
    ensures xs == [x]
  {
    assert x in xs;
  }

  /** Automatic dispatch agrees with the display: a proposal needs no person and
      passes its own gates exactly when its response applies, is the only
      viable one displayed for the capability, and is Ready, and the display
      hides nothing that matters: one execution contract, which interrupts
      nothing. */
  lemma AutomaticIffReady(t: Target, ta: TargetAssessment, profile: Profile, recs: map<A.Key, A.Record>, p: A.Proposal, xs: seq<Shown>)
    requires IsProposal(t, ta, profile, recs, p.response, p)
    requires Lists(t.identity, StatesOf(ta), profile.responses, p.for_, xs)
    ensures Automatic(p) <==>
      && Applicable(StatesOf(ta), p.response)
      && |ViableOf(xs)| == 1 && ViableOf(xs)[0].status == Ready
      && |Contracts(t.identity, StatesOf(ta), profile.responses, A.KeyOfResponse(p.response))| <= 1
      && p.response.execution.value.mayInterrupt == []
  {
    hide StatesOf, OwnersDiffer, Viable, Contracts, Protocol.RecoveredEpisodes, Triggered, ProofOf, Applicable, ShownOf, ViableOf, ShownSet, ViableResponses;
    var caps, rs, r := StatesOf(ta), profile.responses, p.response;
    ProvenMeans(t, ta, profile, recs, r, p);
    ReadyMeans(t.identity, caps, rs, r);
    SameCount(t.identity, caps, rs, p.for_, xs);
    if forall c :: c in r.preconditions ==> ProofOf(caps, c) == A.Proven {
      ProvenIsApplicable(caps, r);
    }
    if Applicable(caps, r) {
      ViableHas(t.identity, caps, rs, r, xs);
      if |ViableOf(xs)| == 1 {
        OnlyOne(Elements(ViableOf(xs)), ViableOf(xs), ShownOf(t.identity, caps, rs, r));
      }
    }
  }

  lemma ViableHas(t: TargetIdentity, caps: map<CapabilityType, CapabilityState>, rs: seq<Response>, r: Response, xs: seq<Shown>)
    requires r in rs && Triggered(t, caps, r) && Applicable(caps, r) && Lists(t, caps, rs, r.for_, xs)
    ensures ShownOf(t, caps, rs, r) in Elements(ViableOf(xs)) && |ViableOf(xs)| >= 1
  {
    hide Triggered, Applicable, ShownOf, ViableOf, Lists;
    ViableElements(t, caps, rs, r.for_, xs);
    assert r in ViableResponses(t, caps, rs, r.for_);
  }

  /** When a proposal may go out without a person, the display raises no more
      than AWARENESS and asks nobody. */
  lemma AutomaticIsShownReady(t: Target, ta: TargetAssessment, profile: Profile, recs: map<A.Key, A.Record>, p: A.Proposal,
                              xs: seq<Shown>, inp: E.StepInput, local: map<A.Key, A.Record>)
    requires IsProposal(t, ta, profile, recs, p.response, p) && p.human == [] && E.GatesPass(inp, local, p, false)
    requires Lists(t.identity, StatesOf(ta), profile.responses, p.for_, xs)
    ensures |ViableOf(xs)| == 1 && ViableOf(xs)[0].status == Ready
    ensures forall state :: BoundaryLevel(state, xs) == Awareness
  {
    hide StatesOf, Lists, Protocol.RecoveredEpisodes, ViableOf, Applicable, Contracts;
    GatesIncludeOwn(inp, local, p, false);
    AutomaticIffReady(t, ta, profile, recs, p, xs);
    forall state ensures BoundaryLevel(state, xs) == Awareness {
      BoundaryOfViable(state, xs);
    }
  }

  /** In one step at most one proposal per capability of a target may go out
      without a person. */
  lemma AutomaticIsUnique(t: Target, ta: TargetAssessment, profile: Profile, recs: map<A.Key, A.Record>, p: A.Proposal, q: A.Proposal)
    requires IsProposal(t, ta, profile, recs, p.response, p) && IsProposal(t, ta, profile, recs, q.response, q)
    requires p.for_ == q.for_ && Automatic(p) && Automatic(q)
    ensures p.id == q.id
  {
    hide StatesOf, OwnersDiffer, Protocol.RecoveredEpisodes, Triggered, ProofOf, Applicable, A.KeyOfResponse;
    var caps, rs := StatesOf(ta), profile.responses;
    ProvenMeans(t, ta, profile, recs, p.response, p);
    ProvenMeans(t, ta, profile, recs, q.response, q);
    ProvenIsApplicable(caps, p.response);
    ProvenIsApplicable(caps, q.response);
    SameMember(Viable(t.identity, caps, rs, p.for_), A.KeyOfResponse(p.response), A.KeyOfResponse(q.response));
    var rk := A.KeyOfResponse(p.response);
    SameMember(Contracts(t.identity, caps, rs, rk), A.KeyOfDeclaration(p.response), A.KeyOfDeclaration(q.response));
    SameSubject(p.response, q.response);
  }

  lemma SameMember<T>(s: set<T>, x: T, y: T)
    requires x in s && y in s && |s| <= 1
    ensures x == y
  {
    if x != y {
      assert |s - {x}| >= 1 by { assert y in s - {x}; }
    }
  }

  lemma SameSubject(r: Response, q: Response)
    requires A.KeyOfDeclaration(r) == A.KeyOfDeclaration(q)
    ensures r.action == q.action && r.for_ == q.for_
  {
  }
}
