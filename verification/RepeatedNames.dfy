/** How far the promise of the deploy order reaches when a release lists a
    component more than once, which nothing prevents. */
module RepeatedNames {
  import opened Wrappers
  import opened Graphs
  import opened Release
  import opened ReleaseOrder

  /** What `Order` promises: an order exactly when there is no cycle, dependencies first. */
  ghost predicate Kept(names: seq<Name>, comps: Components) {
    && (Accepted(names, comps) <==> Acyclic(ReleaseGraph(names, comps)))
    && (Accepted(names, comps) ==> DependenciesFirst(names, comps, KahnOrder(names, comps)))
  }

  ghost predicate OneName(names: seq<Name>) {
    forall n, m :: n in names && m in names ==> n == m
  }

  // ── a cycle refutes any order ─────────────────────────────────────────────

  /** Dependencies first leaves no room for a cycle among what is listed. */
  lemma FirstIsAcyclic(names: seq<Name>, comps: Components, out: seq<Name>, i: nat)
    requires DependenciesFirst(names, comps, out) && i < |out| && out[i] !in out[..i]
    ensures !OnCycle(ReleaseGraph(names, comps), out[i])
  {
    hide Needs;
    var g, v := ReleaseGraph(names, comps), out[i];
    if OnCycle(g, v) {
      var c :| c in Succ(g, v) && Reaches(g, c, v);
      var before := set n | n in out[..i];
      forall m, w | m in before && w in Succ(g, m) ensures w in before {
        var j :| 0 <= j < i && out[j] == m;
        assert w in out[..j];
      }
      assert c in out[..i];
      ClosedContainsReachable(g, before, c, v);
    }
  }

  lemma {:induction false} FirstPlace(out: seq<Name>, n: Name) returns (i: nat)
    requires n in out
    ensures i < |out| && out[i] == n && n !in out[..i]
  {
    if n in out[..|out| - 1] {
      i := FirstPlace(out[..|out| - 1], n);
      assert out[..|out| - 1][..i] == out[..i];
    } else {
      i := |out| - 1;
      assert out == out[..i] + [out[i]];
    }
  }

  /** A release with a cycle that still gets an order gets a wrong one. */
  lemma CycleIsNeverFirst(names: seq<Name>, comps: Components, v: Name)
    requires Accepted(names, comps) && OnCycle(ReleaseGraph(names, comps), v) && v in names
    ensures !DependenciesFirst(names, comps, KahnOrder(names, comps))
  {
    hide KahnOrder, OnCycle, DependenciesFirst;
    AcceptedIsPermutation(names, comps);
    var out := KahnOrder(names, comps);
    assert v in multiset(names) && v in multiset(out);
    var i := FirstPlace(out, v);
    if DependenciesFirst(names, comps, out) {
      FirstIsAcyclic(names, comps, out, i);
    }
  }

  // ── small releases ────────────────────────────────────────────────────────

  lemma InsideOne(names: seq<Name>, a: Name)
    ensures Inside(names, []) == [] && Inside(names, [a]) == if a in names then [a] else []
  {
    InsideStep(names, [], a);
    assert [] + [a] == [a];
  }

  lemma InsideTwo(names: seq<Name>, a: Name, b: Name)
    requires a in names && b in names
    ensures Inside(names, [a, b]) == [a, b]
  {
    InsideOne(names, a);
    InsideStep(names, [a], b);
    assert [a] + [b] == [a, b];
  }

  /** Only n needs anything, and it needs root r: no cycle. */
  lemma OneNeedIsAcyclic(names: seq<Name>, n: Name, r: Name)
    requires r in names && r != n
    ensures Acyclic(ReleaseGraph(names, map[n := [r]]))
  {
    var g := ReleaseGraph(names, map[n := [r]]);
    OneNeed(names, n, r);
    hide Reaches, ReleaseGraph;
    forall v ensures !OnCycle(g, v) {
      if OnCycle(g, v) {
        var c :| c in Succ(g, v) && Reaches(g, c, v);
        ClosedContainsReachable(g, {r}, r, v);
      }
    }
  }

  lemma OneNeed(names: seq<Name>, n: Name, r: Name)
    requires r in names && r != n
    ensures var g := ReleaseGraph(names, map[n := [r]]);
      (forall v, c :: c in Succ(g, v) ==> v == n && c == r) && Closed(g, {r})
  {
    InsideOne(names, r);
  }

  /** A component that needs another and is listed twice is refused. */
  lemma RepeatedDependentIsRefused(names: seq<Name>, n: Name, r: Name)
    requires r in names && r != n && multiset(names)[n] >= 2
    ensures !Accepted(names, map[n := [r]]) && Acyclic(ReleaseGraph(names, map[n := [r]]))
  {
    hide Accepted;
    OneNeedIsAcyclic(names, n, r);
    hide Acyclic;
    AcyclicAccepted(names, map[n := [r]]);
    InsideOne(names, r);
    assert n in multiset(names);
    assert !IsRoot(names, map[n := [r]], n);
  }

  lemma SpareOf(names: seq<Name>, comps: Components, ds: seq<Name>, d: Name)
    ensures Spare(names, comps, []) == 0
    ensures Spare(names, comps, ds + [d]) == Spare(names, comps, ds) + if IsRoot(names, comps, d) && multiset(names)[d] > 1 then multiset(names)[d] - 1 else 0
  {
    assert (ds + [d])[..|ds|] == ds;
  }

  lemma LacksOf(ds: seq<Name>, d: Name, s: set<Name>)
    ensures Lacks([], s) == 0
    ensures Lacks(ds + [d], s) == Lacks(ds, s) + if d in s then 1 else 0
  {
    assert (ds + [d])[..|ds|] == ds;
  }

  /** A component that needs itself gets through on the surplus of a repeated root. */
  lemma SelfNeedIsAccepted(names: seq<Name>, n: Name, r: Name)
    requires multiset(names)[n] == 1 && multiset(names)[r] >= 2 && r != n
    ensures Accepted(names, map[n := [r, n]]) && OnCycle(ReleaseGraph(names, map[n := [r, n]]), n)
  {
    hide Accepted, Inside;
    var comps := map[n := [r, n]];
    assert n in multiset(names) && r in multiset(names);
    InsideTwo(names, r, n);
    InsideOne(names, n);
    ReachesRefl(ReleaseGraph(names, comps), n);
    AcceptedExactly(names, comps);
    SpareOf(names, comps, [], r);
    SpareOf(names, comps, [r], n);
    assert [] + [r] == [r] && [r] + [n] == [r, n];
    forall s ensures !Stuck(names, comps, s) {
      LacksOf([], r, s);
      LacksOf([r], n, s);
    }
  }

  // ── which lists of names are safe ─────────────────────────────────────────

  /** A release of one component keeps the promise however often it is listed. */
  lemma OneNameKeeps(names: seq<Name>, comps: Components)
    requires OneName(names)
    ensures Kept(names, comps)
  {
    hide Accepted, KahnOrder, DependenciesFirst, Acyclic, Spare, Needs;
    forall n | n in names ensures Spare(names, comps, Needs(names, comps, n)) == 0 {
      OneNameSpare(names, comps, n);
    }
    OrderWithoutSurplus(names, comps);
    if Acyclic(ReleaseGraph(names, comps)) {
      forall n | n in names ensures IsRoot(names, comps, n) {
        OneNameRoot(names, comps, n);
      }
    }
  }

  lemma OneNameRoot(names: seq<Name>, comps: Components, n: Name)
    requires OneName(names) && n in names && Acyclic(ReleaseGraph(names, comps))
    ensures IsRoot(names, comps, n)
  {
    var ds := Needs(names, comps, n);
    if ds != [] {
      NeedsInside(names, comps, n, ds[0]);
      var g := ReleaseGraph(names, comps);
      ReachesRefl(g, n);
      assert n in Succ(g, n);
      assert OnCycle(g, n);
    }
  }

  lemma OneNameSpare(names: seq<Name>, comps: Components, n: Name)
    requires OneName(names) && n in names
    ensures Spare(names, comps, Needs(names, comps, n)) == 0
  {
    var ds := Needs(names, comps, n);
    if ds != [] {
      forall d | d in ds ensures !IsRoot(names, comps, d) {
        NeedsInside(names, comps, n, d);
        assert d == n;
      }
      NoRootsNoSpare(names, comps, ds);
    }
  }

  lemma {:induction false} NoRootsNoSpare(names: seq<Name>, comps: Components, ds: seq<Name>)
    requires forall d :: d in ds ==> !IsRoot(names, comps, d)
    ensures Spare(names, comps, ds) == 0
  {
    hide IsRoot;
    if ds != [] {
      NoRootsNoSpare(names, comps, ds[..|ds| - 1]);
    }
  }

  /** Whatever the components declare, the promise is kept: exactly for releases
      whose names are distinct, or that list one component only. */
  lemma PromiseExactly(names: seq<Name>)
    ensures (forall comps :: Kept(names, comps)) <==> Distinct(names) || OneName(names)
  {
    hide Accepted, KahnOrder, DependenciesFirst, Acyclic, OnCycle, OneName;
    if Distinct(names) {
      forall comps ensures Kept(names, comps) {
        OrderIsExact(names, comps);
        assert Accepted(names, comps) <==> |KahnOrder(names, comps)| == |names| by { AcceptedSays(names, comps); }
      }
    } else if OneName(names) {
      forall comps ensures Kept(names, comps) {
        OneNameKeeps(names, comps);
      }
    } else {
      var r, n := TwoNames(names);
      if multiset(names)[n] >= 2 {
        RepeatedDependentIsRefused(names, n, r);
        assert !Kept(names, map[n := [r]]);
      } else {
        SelfNeedIsAccepted(names, n, r);
        CyclicSays(names, map[n := [r, n]], n);
        assert !Kept(names, map[n := [r, n]]);
      }
    }
  }

  lemma AcceptedSays(names: seq<Name>, comps: Components)
    ensures Accepted(names, comps) <==> |KahnOrder(names, comps)| == |names|
  {
  }

  lemma CyclicSays(names: seq<Name>, comps: Components, n: Name)
    requires OnCycle(ReleaseGraph(names, comps), n)
    ensures !Acyclic(ReleaseGraph(names, comps))
  {
  }

  /** A repeated name, and another one. */
  lemma TwoNames(names: seq<Name>) returns (r: Name, n: Name)
    requires !Distinct(names) && !OneName(names)
    ensures multiset(names)[r] >= 2 && multiset(names)[n] >= 1 && r != n && r in names && n in names
  {
    DistinctCounts(names);
    r :| r in names && multiset(names)[r] != 1;
    var a, b :| a in names && b in names && a != b;
    n := if a == r then b else a;
    assert r in multiset(names) && n in multiset(names);
  }

  // ── when a need can come too late ─────────────────────────────────────────

  /** All surplus copies among ds, were every one of them a root. */
  function Surplus(names: seq<Name>, ds: seq<Name>): nat {
    if ds == [] then 0
    else
      var d := ds[|ds| - 1];
      Surplus(names, ds[..|ds| - 1]) + if multiset(names)[d] > 1 then multiset(names)[d] - 1 else 0
  }

  lemma SurplusOf(names: seq<Name>, ds: seq<Name>, d: Name)
    ensures Surplus(names, []) == 0
    ensures Surplus(names, ds + [d]) == Surplus(names, ds) + if multiset(names)[d] > 1 then multiset(names)[d] - 1 else 0
  {
    assert (ds + [d])[..|ds|] == ds;
  }

  /** d stands before every n in the order. */
  ghost predicate Precedes(out: seq<Name>, d: Name, n: Name) {
    forall i {:trigger out[i]} :: 0 <= i < |out| && out[i] == n ==> d in out[..i]
  }

  lemma {:induction false} SpareWithin(names: seq<Name>, comps: Components, ds: seq<Name>)
    ensures Spare(names, comps, ds) <= Surplus(names, ds)
  {
    hide IsRoot;
    if ds != [] {
      SpareWithin(names, comps, ds[..|ds| - 1]);
    }
  }

  /** When whatever is listed twice is a root, all surplus is spare. */
  lemma {:induction false} SpareIsSurplus(names: seq<Name>, comps: Components, ds: seq<Name>)
    requires forall d :: d in ds && multiset(names)[d] > 1 ==> IsRoot(names, comps, d)
    ensures Spare(names, comps, ds) == Surplus(names, ds)
  {
    hide IsRoot;
    if ds != [] {
      SpareIsSurplus(names, comps, ds[..|ds| - 1]);
    }
  }

  lemma {:induction false} LacksTwo(ds: seq<Name>, n: Name, d: Name, s: set<Name>)
    requires n !in ds && s <= {n, d}
    ensures Lacks(ds, s) <= multiset(ds)[d]
  {
    if ds != [] {
      LacksTwo(ds[..|ds| - 1], n, d, s);
      assert ds == ds[..|ds| - 1] + [ds[|ds| - 1]];
    }
  }

  /** With enough surplus n gets through although what it needs needs n. */
  lemma SurplusLetsCycleThrough(names: seq<Name>, n: Name, ds: seq<Name>, d: Name)
    requires multiset(names)[n] == 1 && multiset(names)[d] == 1 && d in ds && n !in ds
    requires Surplus(names, Inside(names, ds)) >= multiset(Inside(names, ds))[d]
    ensures var comps := map[n := ds, d := [n]];
      Accepted(names, comps) && OnCycle(ReleaseGraph(names, comps), n) && !Precedes(KahnOrder(names, comps), d, n)
  {
    hide Accepted, Inside, KahnOrder, OnCycle, Precedes, Stuck;
    var comps := map[n := ds, d := [n]];
    assert n in multiset(names) && d in multiset(names);
    InsideOne(names, n);
    AcceptedExactly(names, comps);
    forall s ensures !Stuck(names, comps, s) {
      NeverStuckTwo(names, n, ds, d, s);
    }
    assert DependentsOnce(names, comps);
    MutualCycle(names, n, ds, d);
    LateNeed(names, n, ds, d);
  }

  lemma NeverStuckTwo(names: seq<Name>, n: Name, ds: seq<Name>, d: Name, s: set<Name>)
    requires multiset(names)[n] == 1 && multiset(names)[d] == 1 && d in ds && n !in ds
    requires Surplus(names, Inside(names, ds)) >= multiset(Inside(names, ds))[d]
    ensures !Stuck(names, map[n := ds, d := [n]], s)
  {
    hide Inside, Spare, Lacks, Surplus;
    var comps := map[n := ds, d := [n]];
    InsideOne(names, n);
    LacksOf([], n, s);
    assert [] + [n] == [n];
    assert n in multiset(names) && Needs(names, comps, d) == [n];
    SpareIsSurplus(names, comps, Inside(names, ds));
    if s <= {n, d} {
      LacksTwo(Inside(names, ds), n, d, s);
    }
  }

  lemma MutualCycle(names: seq<Name>, n: Name, ds: seq<Name>, d: Name)
    requires multiset(names)[n] == 1 && multiset(names)[d] == 1 && d in ds && n !in ds
    ensures OnCycle(ReleaseGraph(names, map[n := ds, d := [n]]), n)
  {
    hide Reaches;
    var comps := map[n := ds, d := [n]];
    var g := ReleaseGraph(names, comps);
    assert n in multiset(names) && d in multiset(names);
    InsideOne(names, n);
    assert d in Succ(g, n) && n in Succ(g, d);
    ReachesEdge(g, d, n);
  }

  /** d is finished only after n, which it needs. */
  lemma LateNeed(names: seq<Name>, n: Name, ds: seq<Name>, d: Name)
    requires multiset(names)[n] == 1 && multiset(names)[d] == 1 && d in ds && n !in ds
    requires Accepted(names, map[n := ds, d := [n]])
    ensures !Precedes(KahnOrder(names, map[n := ds, d := [n]]), d, n)
  {
    hide KahnOrder, Earned, Ends, Distinct;
    var comps := map[n := ds, d := [n]];
    var out := KahnOrder(names, comps);
    assert n in multiset(names) && d in multiset(names);
    AcceptedIsPermutation(names, comps);
    assert n in multiset(out);
    var i := FirstPlace(out, n);
    if d in out[..i] {
      var j := FirstPlace(out[..i], d);
      OrderEnds(names, comps);
      EndsEarned(names, comps, out);
      assert out[..i][..j] == out[..j];
      assert n !in out[..i] ==> n !in out[..i][..j];
      NothingBefore(names, comps, out, n, d, j);
    }
  }

  /** Whoever needs n alone comes after n. */
  lemma NothingBefore(names: seq<Name>, comps: Components, out: seq<Name>, n: Name, d: Name, j: nat)
    requires Earned(names, comps, out) && j < |out| && out[j] == d && n in names && DepsOf(comps, d) == [n]
    ensures n in out[..j]
  {
    InsideOne(names, n);
    assert Credit([n], out[..j]) == multiset(out[..j])[n] by {
      assert [n][..0] == [];
    }
  }

  /** Whatever the other components declare, n comes after the component d that
      it needs: exactly when the surplus of all it needs is less than the number
      of times it needs d. This does not depend on how the release is sorted. */
  lemma NeedIsSafeExactly(names: seq<Name>, n: Name, ds: seq<Name>, d: Name)
    requires multiset(names)[n] == 1 && multiset(names)[d] == 1 && d in ds && n !in ds
    ensures (forall comps :: DepsOf(comps, n) == ds && Accepted(names, comps) ==> Precedes(KahnOrder(names, comps), d, n))
            <==> Surplus(names, Inside(names, ds)) < multiset(Inside(names, ds))[d]
  {
    hide Accepted, Inside, KahnOrder, Precedes, Surplus, OnCycle;
    if Surplus(names, Inside(names, ds)) < multiset(Inside(names, ds))[d] {
      forall comps | DepsOf(comps, n) == ds && Accepted(names, comps) ensures Precedes(KahnOrder(names, comps), d, n) {
        NeedPrecedes(names, comps, n, d);
      }
    } else {
      SurplusLetsCycleThrough(names, n, ds, d);
      assert DepsOf(map[n := ds, d := [n]], n) == ds;
    }
  }

  lemma NeedPrecedes(names: seq<Name>, comps: Components, n: Name, d: Name)
    requires d in DepsOf(comps, n) && multiset(names)[d] == 1
    requires Surplus(names, Needs(names, comps, n)) < multiset(Needs(names, comps, n))[d]
    ensures Precedes(KahnOrder(names, comps), d, n)
  {
    hide KahnOrder, Ends, IsRoot, Spare, Surplus;
    var out := KahnOrder(names, comps);
    assert d in multiset(names);
    OrderEnds(names, comps);
    SpareWithin(names, comps, Needs(names, comps, n));
    forall i | 0 <= i < |out| && out[i] == n ensures d in out[..i] {
      NeedComesFirst(names, comps, out, i, d);
    }
  }

  // ── three releases ────────────────────────────────────────────────────────

  /** A component listed twice that needs another: refused without a cycle. */
  lemma RepeatedNameIsRefused(a: Name, b: Name)
    requires a != b
    ensures var names, comps := [b, a, a], map[a := [b]];
      |KahnOrder(names, comps)| != |names| && Acyclic(ReleaseGraph(names, comps))
  {
    hide KahnOrder, Acyclic;
    RepeatedDependentIsRefused([b, a, a], a, b);
  }

  /** A root listed twice: a cycle is accepted. */
  lemma RepeatedRootHidesCycle(r: Name, n: Name, s: Name)
    requires r != n && r != s && n != s
    ensures var names, comps := [r, r, n, s], map[n := [r, s], s := [n]];
      |KahnOrder(names, comps)| == |names| && !Acyclic(ReleaseGraph(names, comps))
  {
    var names := [r, r, n, s];
    InsideTwo(names, r, s);
    hide KahnOrder, Inside, OnCycle, Surplus;
    SurplusOf(names, [], r);
    SurplusOf(names, [r], s);
    assert [] + [r] == [r] && [r] + [s] == [r, s];
    assert names == [r, r] + [n, s];
    SurplusLetsCycleThrough(names, n, [r, s], s);
  }

  /** The same components with the same dependencies, no cycle among them:
      listed one way a dependency comes too late, listed another way none does.
      What is listed how often cannot decide it for a given release. */
  lemma ListingDecides(r: Name, t: Name, s: Name, n: Name)
    requires r != t && s != n && r != n && r != s && t != n && t != s
    ensures var comps := map[n := [r, s], s := [t]];
      && multiset([r, r, t, s, n]) == multiset([t, r, r, s, n])
      && KahnOrder([r, r, t, s, n], comps) == [r, r, t, n, s]
      && KahnOrder([t, r, r, s, n], comps) == [t, r, r, s, n]
  {
    hide *;
    ListedOneWay(r, t, s, n);
    ListedAnotherWay(r, t, s, n);
  }

  lemma ListedOneWay(r: Name, t: Name, s: Name, n: Name)
    requires r != t && s != n && r != n && r != s && t != n && t != s
    ensures KahnOrder([r, r, t, s, n], map[n := [r, s], s := [t]]) == [r, r, t, n, s]
  {
    hide Kahn, Build, DependentsKnown;
    var names, comps := [r, r, t, s, n], map[n := [r, s], s := [t]];
    var e := Build(names, comps, 5);
    Listing(names, r, t, s, n);
    RootsFive(names, e.inDegree);
    assert names[..3] == [r, r, t];
    NeedTooLate(e.inDegree, e.dependents, r, t, s, n);
  }

  lemma ListedAnotherWay(r: Name, t: Name, s: Name, n: Name)
    requires r != t && s != n && r != n && r != s && t != n && t != s
    ensures KahnOrder([t, r, r, s, n], map[n := [r, s], s := [t]]) == [t, r, r, s, n]
    ensures multiset([r, r, t, s, n]) == multiset([t, r, r, s, n])
  {
    hide Kahn, Build, DependentsKnown;
    var names, comps := [t, r, r, s, n], map[n := [r, s], s := [t]];
    var e := Build(names, comps, 5);
    assert multiset([r, r, t, s, n]) == multiset(names);
    Listing(names, r, t, s, n);
    RootsFive(names, e.inDegree);
    assert names[..3] == [t, r, r];
    NeedInTime(e.inDegree, e.dependents, r, t, s, n);
  }

  lemma RootsFive(xs: seq<Name>, degree: map<Name, int>)
    requires |xs| == 5 && forall x :: x in xs ==> x in degree
    requires degree[xs[0]] == 0 && degree[xs[1]] == 0 && degree[xs[2]] == 0 && degree[xs[3]] != 0 && degree[xs[4]] != 0
    ensures Roots(xs, degree) == xs[..3]
  {
    assert xs[..4][..3] == xs[..3] && xs[..3][..2] == xs[..2] && xs[..2][..1] == xs[..1] && xs[..1][..0] == [];
    assert xs[..3] == xs[..2] + [xs[2]] && xs[..2] == xs[..1] + [xs[1]] && xs[..1] == [xs[0]];
    assert Roots(xs[..1], degree) == xs[..1];
    assert Roots(xs[..2], degree) == xs[..2];
    assert Roots(xs[..3], degree) == xs[..3];
    assert Roots(xs[..4], degree) == xs[..3];
  }

  /** What is counted over any listing of these. */
  lemma Listing(names: seq<Name>, r: Name, t: Name, s: Name, n: Name)
    requires r != t && s != n && r != n && r != s && t != n && t != s && multiset(names) == multiset([r, r, t, s, n])
    ensures var e := Build(names, map[n := [r, s], s := [t]], |names|);
      && DependentsKnown(e.inDegree, e.dependents) && (forall x :: x in e.inDegree <==> x in names)
      && Shape(e.inDegree, e.dependents, r, t, s, n)
  {
    hide Build, Counted, DependentsKnown;
    var comps := map[n := [r, s], s := [t]];
    BuildKnows(names, comps, |names|);
    BuildCounts(names, comps, |names|);
    assert names[..|names|] == names;
    CountedShape(names, Build(names, comps, |names|), r, t, s, n);
  }

  lemma ListedNeeds(names: seq<Name>, r: Name, t: Name, s: Name, n: Name)
    requires r != t && s != n && r != n && r != s && t != n && t != s && multiset(names) == multiset([r, r, t, s, n])
    ensures var comps := map[n := [r, s], s := [t]];
      && Needs(names, comps, n) == [r, s] && Needs(names, comps, s) == [t]
      && forall m :: m != n && m != s ==> Needs(names, comps, m) == []
    ensures r in names && t in names && s in names && n in names
    ensures multiset(names)[n] == 1 && multiset(names)[s] == 1
  {
    assert forall x :: x in names <==> x in multiset(names);
    InsideTwo(names, r, s);
    InsideOne(names, t);
  }

  lemma CountedShape(names: seq<Name>, e: Edges, r: Name, t: Name, s: Name, n: Name)
    requires r != t && s != n && r != n && r != s && t != n && t != s && multiset(names) == multiset([r, r, t, s, n])
    requires Counted(names, map[n := [r, s], s := [t]], e, names)
    ensures Shape(e.inDegree, e.dependents, r, t, s, n)
  {
    hide Needs, Mul, EntriesOf;
    var comps := map[n := [r, s], s := [t]];
    ListedNeeds(names, r, t, s, n);
    MulAdd(0, multiset(names)[r], 0);
    MulAdd(0, multiset(names)[t], 0);
    MulAdd(0, 1, 0);
    MulAdd(0, 2, 0);
    forall d, m ensures EntriesOf(e, d, m) == (if m == n && (d == r || d == s) then 1 else 0) + (if m == s && d == t then 1 else 0) {
      MulAdd(0, multiset(names)[m], 0);
    }
    OneEntry(e, r, n);
    OneEntry(e, s, n);
    OneEntry(e, t, s);
    NoEntry(e, n);
  }

  lemma OneEntry(e: Edges, d: Name, m: Name)
    requires forall y :: EntriesOf(e, d, y) == if y == m then 1 else 0
    ensures At(e.dependents, d) == [m]
  {
    var xs := At(e.dependents, d);
    assert forall y :: multiset(xs)[y] == EntriesOf(e, d, y);
    assert multiset(xs) == multiset{m};
    assert |xs| == |multiset(xs)|;
    assert xs[0] in multiset(xs);
  }

  lemma NoEntry(e: Edges, d: Name)
    requires forall y :: EntriesOf(e, d, y) == 0
    ensures At(e.dependents, d) == []
  {
    var xs := At(e.dependents, d);
    assert forall y :: multiset(xs)[y] == EntriesOf(e, d, y);
    assert multiset(xs) == multiset{};
    assert |xs| == |multiset(xs)|;
  }

  ghost predicate Shape(degree: map<Name, int>, dependents: map<Name, seq<Name>>, r: Name, t: Name, s: Name, n: Name) {
    && r in degree && t in degree && s in degree && n in degree
    && degree[r] == 0 && degree[t] == 0 && degree[s] == 1 && degree[n] == 2
    && At(dependents, r) == [n] && At(dependents, t) == [s] && At(dependents, s) == [n] && At(dependents, n) == []
  }

  lemma RelaxOne(degree: map<Name, int>, tail: seq<Name>, x: Name)
    requires x in degree
    ensures Relax(degree, tail, []) == (degree, tail)
    ensures Relax(degree, tail, [x]) == (degree[x := degree[x] - 1], if degree[x] == 1 then tail + [x] else tail)
  {
    assert [x][..0] == [];
  }

  /** The two copies of r let n go before s, which still waits for t. */
  lemma NeedTooLate(degree: map<Name, int>, dependents: map<Name, seq<Name>>, r: Name, t: Name, s: Name, n: Name)
    requires DependentsKnown(degree, dependents) && Shape(degree, dependents, r, t, s, n) && r != t && s != n && r != n && r != s && t != n && t != s
    ensures Kahn(degree, dependents, [r, r, t], []) == [r, r, t, n, s]
  {
    hide Kahn, DependentsKnown, Relax, Positive;
    var d1 := degree[n := 1];
    var d2 := d1[n := 0];
    var d3 := d2[s := 0];
    var d4 := d3[n := -1];
    RelaxOne(degree, [r, t], n);
    RelaxOne(d1, [t], n);
    RelaxOne(d2, [n], s);
    RelaxOne(d3, [s], n);
    RelaxOne(d3, [], n);
    assert [r, r, t][1..] == [r, t] && [r, t][1..] == [t] && [t] + [n] == [t, n] && [t, n][1..] == [n] && [n] + [s] == [n, s] && [n, s][1..] == [s] && [s][1..] == [];
    KahnStep(degree, dependents, [r, r, t], []);
    KahnStep(d1, dependents, [r, t], [r]);
    KahnStep(d2, dependents, [t, n], [r, r]);
    KahnStep(d3, dependents, [n, s], [r, r, t]);
    KahnStep(d3, dependents, [s], [r, r, t, n]);
    KahnEnd(d4, dependents, [r, r, t, n, s]);
    assert [] + [r] == [r] && [r] + [r] == [r, r] && [r, r] + [t] == [r, r, t] && [r, r, t] + [n] == [r, r, t, n] && [r, r, t, n] + [s] == [r, r, t, n, s];
  }

  /** With t first s is queued before n. */
  lemma NeedInTime(degree: map<Name, int>, dependents: map<Name, seq<Name>>, r: Name, t: Name, s: Name, n: Name)
    requires DependentsKnown(degree, dependents) && Shape(degree, dependents, r, t, s, n) && r != t && s != n && r != n && r != s && t != n && t != s
    ensures Kahn(degree, dependents, [t, r, r], []) == [t, r, r, s, n]
  {
    hide Kahn, DependentsKnown, Relax, Positive;
    var d1 := degree[s := 0];
    var d2 := d1[n := 1];
    var d3 := d2[n := 0];
    var d4 := d3[n := -1];
    RelaxOne(degree, [r, r], s);
    RelaxOne(d1, [r, s], n);
    RelaxOne(d2, [s], n);
    RelaxOne(d3, [n], n);
    RelaxOne(d4, [], n);
    assert [t, r, r][1..] == [r, r] && [r, r] + [s] == [r, r, s] && [r, r, s][1..] == [r, s] && [r, s][1..] == [s] && [s] + [n] == [s, n] && [s, n][1..] == [n] && [n][1..] == [];
    KahnStep(degree, dependents, [t, r, r], []);
    KahnStep(d1, dependents, [r, r, s], [t]);
    KahnStep(d2, dependents, [r, s], [t, r]);
    KahnStep(d3, dependents, [s, n], [t, r, r]);
    KahnStep(d4, dependents, [n], [t, r, r, s]);
    KahnEnd(d4, dependents, [t, r, r, s, n]);
    assert [] + [t] == [t] && [t] + [r] == [t, r] && [t, r] + [r] == [t, r, r] && [t, r, r] + [s] == [t, r, r, s] && [t, r, r, s] + [n] == [t, r, r, s, n];
  }
}
