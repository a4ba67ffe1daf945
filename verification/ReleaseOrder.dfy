/** What the deploy order promises: it exists exactly when the dependencies
    within the release have no cycle, and puts every dependency first; and what
    becomes of the promise when a release lists a component more than once. */
module ReleaseOrder {
  import opened Wrappers
  import opened Graphs
  import opened Release

  /** Every needed component stands before the one that needs it. */
  ghost predicate DependenciesFirst(names: seq<Name>, comps: Components, out: seq<Name>) {
    forall i, d {:trigger d in Needs(names, comps, out[i])} :: 0 <= i < |out| && d in Needs(names, comps, out[i]) ==> d in out[..i]
  }

  /** n needs nothing in the release. */
  predicate IsRoot(names: seq<Name>, comps: Components, n: Name) {
    Needs(names, comps, n) == []
  }

  /** A component that needs another is listed once. */
  ghost predicate DependentsOnce(names: seq<Name>, comps: Components) {
    forall n {:trigger multiset(names)[n]} {:trigger n in names} :: n in names && !IsRoot(names, comps, n) ==> multiset(names)[n] == 1
  }

  /** The surplus copies of the repeated roots among ds, counted with repetition. */
  function Spare(names: seq<Name>, comps: Components, ds: seq<Name>): nat {
    if ds == [] then 0
    else
      var d := ds[|ds| - 1];
      Spare(names, comps, ds[..|ds| - 1]) + if IsRoot(names, comps, d) && multiset(names)[d] > 1 then multiset(names)[d] - 1 else 0
  }

  /** How many of ds are in s, counted with repetition. */
  function Lacks(ds: seq<Name>, s: set<Name>): nat {
    if ds == [] then 0 else Lacks(ds[..|ds| - 1], s) + if ds[|ds| - 1] in s then 1 else 0
  }

  /** Components that wait for each other, and that no surplus lets through:
      each needs more within s than it has surplus outside. */
  ghost predicate Stuck(names: seq<Name>, comps: Components, s: set<Name>) {
    && s != {}
    && (forall n :: n in s ==> n in names && !IsRoot(names, comps, n))
    && forall n :: n in s ==> Lacks(Needs(names, comps, n), s) > Spare(names, comps, Needs(names, comps, n))
  }

  // ── what the counts are ───────────────────────────────────────────────────

  function Mul(a: nat, b: nat): nat {
    a * b
  }

  lemma MulAdd(a: nat, b: nat, c: nat)
    ensures Mul(a + c, b) == Mul(a, b) + Mul(c, b) && Mul(b, a + c) == Mul(b, a) + Mul(b, c)
    ensures Mul(0, b) == 0 && Mul(b, 0) == 0 && Mul(1, b) == b && Mul(b, 1) == b
  {
  }

  lemma MulOrder(m: nat, a: nat, b: nat)
    requires m >= 1
    ensures Mul(m, a) <= Mul(m, b) <==> a <= b
  {
    if a > b {
      assert m * a >= m * (b + 1) == m * b + m;
    } else {
      assert m * a <= m * b;
    }
  }

  lemma InsideStep(names: seq<Name>, ds: seq<Name>, d: Name)
    ensures Inside(names, []) == []
    ensures Inside(names, ds + [d]) == Inside(names, ds) + if d in names then [d] else []
  {
    assert (ds + [d])[..|ds|] == ds;
  }

  lemma AddOne(e: Edges, n: Name, d: Name)
    requires n in e.inDegree
    ensures var r := AddEdge(e, n, d);
      && r.inDegree.Keys == e.inDegree.Keys
      && (forall m :: m in e.inDegree ==> r.inDegree[m] == e.inDegree[m] + if m == n then 1 else 0)
      && (forall c, m :: multiset(At(r.dependents, c))[m] == multiset(At(e.dependents, c))[m] + if c == d && m == n then 1 else 0)
  {
  }

  lemma {:induction false} AddCounts(names: seq<Name>, e: Edges, n: Name, ds: seq<Name>)
    requires n in e.inDegree
    ensures var r := AddEdges(names, e, n, ds);
      && (forall m :: m in e.inDegree ==> r.inDegree[m] == e.inDegree[m] + if m == n then |Inside(names, ds)| else 0)
      && (forall d, m :: multiset(At(r.dependents, d))[m]
                         == multiset(At(e.dependents, d))[m] + if m == n then multiset(Inside(names, ds))[d] else 0)
  {
    hide Inside, AddEdge;
    if ds == [] {
      InsideStep(names, [], Name(""));
    } else {
      var init, d := ds[..|ds| - 1], ds[|ds| - 1];
      AddCounts(names, e, n, init);
      assert ds == init + [d];
      InsideStep(names, init, d);
      if d in names {
        AddOne(AddEdges(names, e, n, init), n, d);
      }
    }
  }

  /** e counts xs: a component's in-degree and its entries among the dependents
      of d are as many times what it needs as it occurs. */
  ghost predicate Counted(names: seq<Name>, comps: Components, e: Edges, xs: seq<Name>) {
    && (forall m :: m in names ==> m in e.inDegree && e.inDegree[m] == Mul(multiset(xs)[m], |Needs(names, comps, m)|))
    && (forall d, m :: EntriesOf(e, d, m) == Mul(multiset(xs)[m], multiset(Needs(names, comps, m))[d]))
  }

  function EntriesOf(e: Edges, d: Name, m: Name): nat {
    multiset(At(e.dependents, d))[m]
  }

  lemma CountedStep(names: seq<Name>, comps: Components, e: Edges, xs: seq<Name>, n: Name)
    requires n in names && Counted(names, comps, e, xs)
    ensures Counted(names, comps, AddEdges(names, e, n, DepsOf(comps, n)), xs + [n])
  {
    hide Mul, AddEdges, EntriesOf, Inside;
    var r := AddEdges(names, e, n, DepsOf(comps, n));
    AddedCounts(names, comps, e, n);
    hide Needs, DepsOf;
    forall m ensures multiset(xs + [n])[m] == multiset(xs)[m] + if m == n then 1 else 0 { }
    forall m | m in names ensures r.inDegree[m] == Mul(multiset(xs + [n])[m], |Needs(names, comps, m)|) {
      MulAdd(multiset(xs)[m], |Needs(names, comps, m)|, 1);
    }
    forall d, m ensures EntriesOf(r, d, m) == Mul(multiset(xs + [n])[m], multiset(Needs(names, comps, m))[d]) {
      MulAdd(multiset(xs)[m], multiset(Needs(names, comps, m))[d], 1);
    }
  }

  lemma AddedCounts(names: seq<Name>, comps: Components, e: Edges, n: Name)
    requires n in e.inDegree
    ensures var r := AddEdges(names, e, n, DepsOf(comps, n));
      && r.inDegree.Keys == e.inDegree.Keys
      && (forall m :: m in e.inDegree ==> r.inDegree[m] == e.inDegree[m] + if m == n then |Needs(names, comps, m)| else 0)
      && (forall d, m :: EntriesOf(r, d, m) == EntriesOf(e, d, m) + if m == n then multiset(Needs(names, comps, m))[d] else 0)
  {
    hide Inside, AddEdges, DepsOf;
    AddCounts(names, e, n, DepsOf(comps, n));
  }

  lemma {:induction false} BuildCounts(names: seq<Name>, comps: Components, k: nat)
    requires k <= |names|
    ensures Counted(names, comps, Build(names, comps, k), names[..k])
  {
    hide Counted, Build, AddEdges, Needs, DepsOf;
    if k == 0 {
      BuildNothing(names, comps);
    } else {
      BuildCounts(names, comps, k - 1);
      BuildOne(names, comps, k - 1);
      CountedStep(names, comps, Build(names, comps, k - 1), names[..k - 1], names[k - 1]);
      assert names[..k] == names[..k - 1] + [names[k - 1]];
    }
  }

  lemma BuildOne(names: seq<Name>, comps: Components, k: nat)
    requires k < |names|
    ensures Build(names, comps, k + 1) == AddEdges(names, Build(names, comps, k), names[k], DepsOf(comps, names[k]))
  {
  }

  lemma BuildNothing(names: seq<Name>, comps: Components)
    ensures Counted(names, comps, Build(names, comps, 0), names[..0])
  {
    hide Needs;
    assert names[..0] == [];
  }

  // ── credit ────────────────────────────────────────────────────────────────

  /** How often the finished list has counted against ds: a component finished
      twice counts twice for each occurrence. */
  function Credit(ds: seq<Name>, done: seq<Name>): nat {
    if ds == [] then 0 else Credit(ds[..|ds| - 1], done) + multiset(done)[ds[|ds| - 1]]
  }

  lemma {:induction false} CreditNone(ds: seq<Name>)
    ensures Credit(ds, []) == 0
  {
    if ds != [] {
      CreditNone(ds[..|ds| - 1]);
    }
  }

  lemma {:induction false} CreditMore(ds: seq<Name>, done: seq<Name>, x: Name)
    ensures Credit(ds, done + [x]) == Credit(ds, done) + multiset(ds)[x]
  {
    if ds != [] {
      CreditMore(ds[..|ds| - 1], done, x);
      assert ds == ds[..|ds| - 1] + [ds[|ds| - 1]];
    }
  }

  /** Without a member of s no more is counted than everything else, surplus included. */
  lemma {:induction false} CreditAtMost(names: seq<Name>, comps: Components, ds: seq<Name>, done: seq<Name>, s: set<Name>)
    requires forall d :: d in ds ==> d in names && multiset(done)[d] <= if IsRoot(names, comps, d) then multiset(names)[d] else 1
    requires forall d :: d in s ==> d !in done && !IsRoot(names, comps, d)
    ensures Credit(ds, done) <= |ds| - Lacks(ds, s) + Spare(names, comps, ds)
  {
    hide IsRoot;
    if ds != [] {
      CreditAtMost(names, comps, ds[..|ds| - 1], done, s);
      assert multiset(names)[ds[|ds| - 1]] >= 1;
    }
  }

  /** With all the rest finished exactly that is counted. */
  lemma {:induction false} CreditExactly(names: seq<Name>, comps: Components, ds: seq<Name>, done: seq<Name>, s: set<Name>)
    requires forall d :: d in ds ==> d in names && (d in s ==> !IsRoot(names, comps, d))
    requires forall d :: d in ds ==>
      multiset(done)[d] == if d in s then 0 else if IsRoot(names, comps, d) then multiset(names)[d] else 1
    ensures Credit(ds, done) == |ds| - Lacks(ds, s) + Spare(names, comps, ds)
  {
    hide IsRoot;
    if ds != [] {
      CreditExactly(names, comps, ds[..|ds| - 1], done, s);
      assert multiset(names)[ds[|ds| - 1]] >= 1;
    }
  }

  // ── roots and the others ──────────────────────────────────────────────────

  /** The roots of xs, or the others, in order. */
  function Pick(names: seq<Name>, comps: Components, xs: seq<Name>, roots: bool): (r: seq<Name>)
    ensures forall n :: n in r <==> n in xs && (IsRoot(names, comps, n) <==> roots)
  {
    if xs == [] then []
    else Pick(names, comps, xs[..|xs| - 1], roots) + if IsRoot(names, comps, xs[|xs| - 1]) <==> roots then [xs[|xs| - 1]] else []
  }

  lemma PickStep(names: seq<Name>, comps: Components, xs: seq<Name>, x: Name, roots: bool)
    ensures Pick(names, comps, [], roots) == []
    ensures Pick(names, comps, xs + [x], roots) == Pick(names, comps, xs, roots) + if IsRoot(names, comps, x) <==> roots then [x] else []
  {
    hide IsRoot;
    assert (xs + [x])[..|xs|] == xs;
  }

  lemma {:induction false} PickSizes(names: seq<Name>, comps: Components, xs: seq<Name>)
    ensures |Pick(names, comps, xs, true)| + |Pick(names, comps, xs, false)| == |xs|
  {
    hide IsRoot, Pick;
    if xs == [] {
      PickStep(names, comps, [], Name(""), true);
      PickStep(names, comps, [], Name(""), false);
    } else {
      var init, x := xs[..|xs| - 1], xs[|xs| - 1];
      PickSizes(names, comps, init);
      assert xs == init + [x];
      PickStep(names, comps, init, x, true);
      PickStep(names, comps, init, x, false);
    }
  }

  lemma {:induction false} PickCounts(names: seq<Name>, comps: Components, xs: seq<Name>, roots: bool, n: Name)
    ensures multiset(Pick(names, comps, xs, roots))[n] == if IsRoot(names, comps, n) <==> roots then multiset(xs)[n] else 0
  {
    hide IsRoot, Pick;
    if xs == [] {
      PickStep(names, comps, [], n, roots);
    } else {
      var init, x := xs[..|xs| - 1], xs[|xs| - 1];
      PickCounts(names, comps, init, roots, n);
      assert xs == init + [x];
      PickStep(names, comps, init, x, roots);
    }
  }

  /** The queue starts with the roots, each as often as it is listed. */
  lemma {:induction false} RootsArePicked(names: seq<Name>, comps: Components, degree: map<Name, int>, xs: seq<Name>)
    requires forall n :: n in xs ==> n in degree && (degree[n] == 0 <==> IsRoot(names, comps, n))
    ensures Roots(xs, degree) == Pick(names, comps, xs, true)
  {
    hide IsRoot;
    if xs != [] {
      RootsArePicked(names, comps, degree, xs[..|xs| - 1]);
    }
  }

  // ── the loop invariant ────────────────────────────────────────────────────

  /** Every finished component that needs others was fully counted when it went. */
  ghost predicate Earned(names: seq<Name>, comps: Components, out: seq<Name>) {
    forall i {:trigger out[i]} :: 0 <= i < |out| && !IsRoot(names, comps, out[i]) ==>
      Credit(Needs(names, comps, out[i]), out[..i]) >= |Needs(names, comps, out[i])|
  }

  function Left(names: seq<Name>, comps: Components, n: Name, done: seq<Name>): int {
    Mul(multiset(names)[n], |Needs(names, comps, n)|) - Mul(multiset(names)[n], Credit(Needs(names, comps, n), done))
  }

  /** Where Kahn's loop stands: first all roots, then exactly the others that
      are fully counted, each once. */
  ghost predicate Stands(names: seq<Name>, comps: Components, degree: map<Name, int>, queue: seq<Name>, ordered: seq<Name>) {
    var roots := Pick(names, comps, names, true);
    && (forall n :: n in degree <==> n in names)
    && (forall n :: n in names ==> degree[n] == Left(names, comps, n, ordered))
    && roots <= ordered + queue
    && Distinct((ordered + queue)[|roots|..])
    && (forall n :: n in (ordered + queue)[|roots|..] <==> n in names && !IsRoot(names, comps, n) && degree[n] <= 0)
    && Earned(names, comps, ordered)
  }

  /** The dependents list each component as often as all its copies together need d. */
  ghost predicate Inverse(names: seq<Name>, comps: Components, dependents: map<Name, seq<Name>>) {
    forall d, m :: multiset(At(dependents, d))[m] == Mul(multiset(names)[m], multiset(Needs(names, comps, m))[d])
  }

  /** Each of ds loses one; who comes down to nothing joins the queue, once. */
  lemma {:induction false} RelaxAny(degree: map<Name, int>, tail: seq<Name>, ds: seq<Name>)
    requires forall n :: n in ds ==> n in degree
    ensures var r := Relax(degree, tail, ds);
      && (forall n :: n in degree ==> r.0[n] == degree[n] - multiset(ds)[n])
      && tail <= r.1 && Distinct(r.1[|tail|..])
      && forall n :: n in r.1[|tail|..] <==> n in degree && degree[n] > 0 && r.0[n] <= 0
  {
    if ds != [] {
      var init, n := ds[..|ds| - 1], ds[|ds| - 1];
      assert ds == init + [n];
      RelaxAny(degree, tail, init);
      var r := Relax(degree, tail, init);
      if r.0[n] == 1 {
        assert (r.1 + [n])[|tail|..] == r.1[|tail|..] + [n];
      }
    }
  }

  lemma StepStands(names: seq<Name>, comps: Components, degree: map<Name, int>, dependents: map<Name, seq<Name>>, queue: seq<Name>, ordered: seq<Name>)
    requires Stands(names, comps, degree, queue, ordered) && Inverse(names, comps, dependents) && queue != []
    requires DependentsKnown(degree, dependents)
    ensures forall n :: n in At(dependents, queue[0]) ==> n in degree
    ensures var r := Relax(degree, queue[1..], At(dependents, queue[0]));
      Stands(names, comps, r.0, r.1, ordered + [queue[0]])
  {
    hide Relax, Distinct, Left, Mul, Credit, IsRoot, Pick, Earned, Inverse;
    var x := queue[0];
    var ds := At(dependents, x);
    var r := Relax(degree, queue[1..], ds);
    var roots := Pick(names, comps, names, true);
    RelaxAny(degree, queue[1..], ds);
    var all, joined := ordered + queue, r.1[|queue[1..]|..];
    assert ordered + [x] + r.1 == all + joined;
    assert (all + joined)[|roots|..] == all[|roots|..] + joined;
    forall n | n in names
      ensures r.0[n] == Left(names, comps, n, ordered + [x]) && (IsRoot(names, comps, n) ==> multiset(ds)[n] == 0)
    {
      CountedOnce(names, comps, dependents, ordered, x, n);
    }
    JoinDistinct(all[|roots|..], joined);
    EarnedMore(names, comps, degree, queue, ordered);
  }

  lemma JoinDistinct(a: seq<Name>, b: seq<Name>)
    requires Distinct(a) && Distinct(b) && forall n :: n in b ==> n !in a
    ensures Distinct(a + b)
  {
    forall i, j | 0 <= i < j < |a + b| ensures (a + b)[i] != (a + b)[j] {
      if i < |a| <= j {
        assert b[j - |a|] in b && a[i] in a;
      }
    }
  }

  lemma CountedOnce(names: seq<Name>, comps: Components, dependents: map<Name, seq<Name>>, ordered: seq<Name>, x: Name, n: Name)
    requires Inverse(names, comps, dependents)
    ensures Left(names, comps, n, ordered + [x]) == Left(names, comps, n, ordered) - multiset(At(dependents, x))[n]
    ensures IsRoot(names, comps, n) ==> multiset(At(dependents, x))[n] == 0
  {
    hide Credit, Inside, Mul;
    var ds, m := Needs(names, comps, n), multiset(names)[n];
    CreditMore(ds, ordered, x);
    MulAdd(Credit(ds, ordered), m, multiset(ds)[x]);
  }

  /** The head of the queue is a root or fully counted. */
  lemma EarnedMore(names: seq<Name>, comps: Components, degree: map<Name, int>, queue: seq<Name>, ordered: seq<Name>)
    requires Stands(names, comps, degree, queue, ordered) && queue != []
    ensures Earned(names, comps, ordered + [queue[0]])
  {
    hide Credit, Inside, Mul, Distinct, Pick;
    var x := queue[0];
    var out := ordered + [x];
    var roots := Pick(names, comps, names, true);
    forall i | 0 <= i < |out| && !IsRoot(names, comps, out[i])
      ensures Credit(Needs(names, comps, out[i]), out[..i]) >= |Needs(names, comps, out[i])|
    {
      if i < |ordered| {
        assert out[..i] == ordered[..i] && out[i] == ordered[i];
      } else {
        assert out[..i] == ordered && (ordered + queue)[i] == x;
        RootsBefore(roots, ordered + queue, i);
        MulOrder(multiset(names)[x], |Needs(names, comps, x)|, Credit(Needs(names, comps, x), ordered));
      }
    }
  }

  lemma RootsBefore(roots: seq<Name>, all: seq<Name>, i: nat)
    requires roots <= all && i < |all|
    ensures if i < |roots| then all[i] in roots else all[i] in all[|roots|..]
  {
    if i < |roots| {
      assert roots[i] == all[i];
    } else {
      assert all[|roots|..][i - |roots|] == all[i];
    }
  }

  /** What the loop ends with: the roots, then exactly the components that were
      fully counted, and no more of these in the end than in the list. */
  ghost predicate Ends(names: seq<Name>, comps: Components, out: seq<Name>) {
    var roots := Pick(names, comps, names, true);
    && roots <= out && Distinct(out[|roots|..]) && Earned(names, comps, out)
    && (forall n :: n in out[|roots|..] <==>
          n in names && !IsRoot(names, comps, n) && Credit(Needs(names, comps, n), out) >= |Needs(names, comps, n)|)
  }

  lemma {:induction false} KahnEnds(names: seq<Name>, comps: Components, degree: map<Name, int>, dependents: map<Name, seq<Name>>, queue: seq<Name>, ordered: seq<Name>)
    requires Stands(names, comps, degree, queue, ordered) && Inverse(names, comps, dependents) && DependentsKnown(degree, dependents)
    ensures Ends(names, comps, Kahn(degree, dependents, queue, ordered))
    decreases Positive(degree), |queue|
  {
    hide Inside, Needs, Relax, Inverse, Positive, Stands, Ends;
    if queue == [] {
      StandsEnds(names, comps, degree, ordered);
      KahnEnd(degree, dependents, ordered);
    } else {
      QueueKnown(names, comps, degree, queue, ordered);
      KahnStep(degree, dependents, queue, ordered);
      StepStands(names, comps, degree, dependents, queue, ordered);
      var (degree', queue') := Relax(degree, queue[1..], At(dependents, queue[0]));
      KahnEnds(names, comps, degree', dependents, queue', ordered + [queue[0]]);
    }
  }

  lemma QueueKnown(names: seq<Name>, comps: Components, degree: map<Name, int>, queue: seq<Name>, ordered: seq<Name>)
    requires Stands(names, comps, degree, queue, ordered)
    ensures forall n :: n in queue ==> n in degree
  {
    hide Left, IsRoot, Earned, Distinct;
    var roots := Pick(names, comps, names, true);
    forall i | 0 <= i < |queue| ensures queue[i] in degree {
      var j := |ordered| + i;
      assert (ordered + queue)[j] == queue[i];
      if j < |roots| {
        assert roots[j] == queue[i] && queue[i] in roots;
      } else {
        assert (ordered + queue)[|roots|..][j - |roots|] == queue[i];
      }
    }
  }

  lemma StandsEnds(names: seq<Name>, comps: Components, degree: map<Name, int>, ordered: seq<Name>)
    requires Stands(names, comps, degree, [], ordered)
    ensures Ends(names, comps, ordered)
  {
    hide Mul, Credit, Inside, Distinct, Pick, Earned, IsRoot;
    assert ordered + [] == ordered;
    forall n | n in names ensures degree[n] <= 0 <==> Credit(Needs(names, comps, n), ordered) >= |Needs(names, comps, n)| {
      MulOrder(multiset(names)[n], |Needs(names, comps, n)|, Credit(Needs(names, comps, n), ordered));
    }
  }

  lemma StartStands(names: seq<Name>, comps: Components)
    ensures var e := Build(names, comps, |names|);
      && DependentsKnown(e.inDegree, e.dependents) && Inverse(names, comps, e.dependents)
      && Stands(names, comps, e.inDegree, Roots(names, e.inDegree), [])
  {
    hide Build, Roots, Pick, Needs, Left, Counted, Inverse;
    var e := Build(names, comps, |names|);
    BuildKnows(names, comps, |names|);
    BuildCounts(names, comps, |names|);
    assert names[..|names|] == names;
    forall n | n in names
      ensures e.inDegree[n] == Left(names, comps, n, []) && (e.inDegree[n] <= 0 <==> IsRoot(names, comps, n)) && e.inDegree[n] >= 0
    {
      CountedStarts(names, comps, e, n);
    }
    CountedInverse(names, comps, e);
    RootsArePicked(names, comps, e.inDegree, names);
    var roots := Pick(names, comps, names, true);
    assert [] + roots == roots && roots[|roots|..] == [];
  }

  lemma CountedStarts(names: seq<Name>, comps: Components, e: Edges, n: Name)
    requires Counted(names, comps, e, names) && n in names
    ensures n in e.inDegree && e.inDegree[n] == Left(names, comps, n, [])
    ensures (e.inDegree[n] <= 0 <==> IsRoot(names, comps, n)) && e.inDegree[n] >= 0
  {
    hide Inside, Needs, Mul, Credit, EntriesOf;
    CreditNone(Needs(names, comps, n));
    MulAdd(0, multiset(names)[n], 0);
    MulOrder(multiset(names)[n], |Needs(names, comps, n)|, 0);
  }

  lemma CountedInverse(names: seq<Name>, comps: Components, e: Edges)
    requires Counted(names, comps, e, names)
    ensures Inverse(names, comps, e.dependents)
  {
    hide Needs, Mul, At;
    forall d, m ensures multiset(At(e.dependents, d))[m] == Mul(multiset(names)[m], multiset(Needs(names, comps, m))[d]) {
      assert EntriesOf(e, d, m) == multiset(At(e.dependents, d))[m];
    }
  }

  /** What `Order` computes, on any list of names. */
  lemma OrderEnds(names: seq<Name>, comps: Components)
    ensures Ends(names, comps, KahnOrder(names, comps))
  {
    hide Stands, Ends, Inverse, Build, Roots, Kahn, DependentsKnown;
    var e := Build(names, comps, |names|);
    StartStands(names, comps);
    KahnEnds(names, comps, e.inDegree, e.dependents, Roots(names, e.inDegree), []);
  }

  // ── what is finished, how often ───────────────────────────────────────────

  lemma OutCounts(names: seq<Name>, comps: Components, out: seq<Name>)
    requires Ends(names, comps, out)
    ensures forall d :: multiset(out)[d] == if IsRoot(names, comps, d) then multiset(names)[d] else if d in out[|Pick(names, comps, names, true)|..] then 1 else 0
    ensures forall d :: d in out ==> d in names
  {
    hide IsRoot, Pick, Earned, Distinct, Credit;
    var roots := Pick(names, comps, names, true);
    var rest := out[|roots|..];
    assert out == roots + rest;
    forall d
      ensures multiset(out)[d] == if IsRoot(names, comps, d) then multiset(names)[d] else if d in rest then 1 else 0
    {
      PickCounts(names, comps, names, true, d);
      OnceInDistinct(rest, d);
    }
  }

  lemma PrefixCounts(out: seq<Name>, i: nat, d: Name)
    requires i <= |out|
    ensures multiset(out[..i])[d] <= multiset(out)[d]
  {
    assert out == out[..i] + out[i..];
  }

  /** Whatever is stuck is never finished. */
  lemma {:induction false} StuckStays(names: seq<Name>, comps: Components, out: seq<Name>, s: set<Name>, i: nat)
    requires Ends(names, comps, out) && Stuck(names, comps, s) && i <= |out|
    ensures forall n :: n in s ==> n !in out[..i]
  {
    hide Ends, Stuck, IsRoot, Lacks, Spare, Needs;
    if i > 0 {
      StuckStays(names, comps, out, s, i - 1);
      var x := out[i - 1];
      assert out[..i] == out[..i - 1] + [x];
      StuckSays(names, comps, s);
      StillStuck(names, comps, out, s, i - 1);
    }
  }

  lemma StuckSays(names: seq<Name>, comps: Components, s: set<Name>)
    requires Stuck(names, comps, s)
    ensures forall n :: n in s ==> !IsRoot(names, comps, n) && Lacks(Needs(names, comps, n), s) > Spare(names, comps, Needs(names, comps, n))
  {
    hide IsRoot, Lacks, Spare, Needs;
  }

  lemma StillStuck(names: seq<Name>, comps: Components, out: seq<Name>, s: set<Name>, i: nat)
    requires Ends(names, comps, out) && i < |out| && forall n :: n in s ==> n !in out[..i] && !IsRoot(names, comps, n)
    requires out[i] in s ==> Lacks(Needs(names, comps, out[i]), s) > Spare(names, comps, Needs(names, comps, out[i]))
    ensures out[i] !in s
  {
    var ds := Needs(names, comps, out[i]);
    CreditBound(names, comps, out, i, ds, s);
    hide Ends, Credit, Lacks, Spare, Needs;
    assert Earned(names, comps, out) by { EndsEarned(names, comps, out); }
  }

  lemma EndsEarned(names: seq<Name>, comps: Components, out: seq<Name>)
    requires Ends(names, comps, out)
    ensures Earned(names, comps, out)
  {
  }

  lemma CreditBound(names: seq<Name>, comps: Components, out: seq<Name>, i: nat, ds: seq<Name>, s: set<Name>)
    requires Ends(names, comps, out) && i <= |out| && forall n :: n in s ==> n !in out[..i] && !IsRoot(names, comps, n)
    requires forall d :: d in ds ==> d in names
    ensures Credit(ds, out[..i]) <= |ds| - Lacks(ds, s) + Spare(names, comps, ds)
  {
    hide Ends, IsRoot, Pick, Credit, Lacks, Spare;
    OutCounts(names, comps, out);
    forall d ensures multiset(out[..i])[d] <= multiset(out)[d] {
      PrefixCounts(out, i, d);
    }
    CreditAtMost(names, comps, ds, out[..i], s);
  }

  /** The components that are never finished. */
  ghost function Unfinished(names: seq<Name>, comps: Components, out: seq<Name>): set<Name> {
    set n | n in names && !IsRoot(names, comps, n) && n !in out
  }

  /** Whatever is not finished was stuck. */
  lemma UnfinishedAreStuck(names: seq<Name>, comps: Components, out: seq<Name>)
    requires Ends(names, comps, out) && Unfinished(names, comps, out) != {}
    ensures Stuck(names, comps, Unfinished(names, comps, out))
  {
    hide IsRoot, Pick, Credit, Lacks, Spare, Earned, Inside, Distinct;
    var s := Unfinished(names, comps, out);
    OutCounts(names, comps, out);
    var rest := out[|Pick(names, comps, names, true)|..];
    assert forall d :: d in rest ==> d in out;
    forall d | d in out && !IsRoot(names, comps, d) ensures multiset(out)[d] == 1 { }
    forall n | n in s ensures Lacks(Needs(names, comps, n), s) > Spare(names, comps, Needs(names, comps, n)) {
      CreditExactly(names, comps, Needs(names, comps, n), out, s);
    }
  }

  // ── lengths ───────────────────────────────────────────────────────────────

  lemma {:induction false} SetSize(xs: seq<Name>)
    ensures |set n | n in xs| <= |xs| && (|set n | n in xs| == |xs| <==> Distinct(xs))
  {
    if xs != [] {
      var init, x := xs[..|xs| - 1], xs[|xs| - 1];
      assert xs == init + [x];
      SetSize(init);
      assert (set n | n in xs) == (set n | n in init) + {x};
      if x in init {
        var i :| 0 <= i < |init| && init[i] == x;
        assert xs[i] == xs[|xs| - 1];
      }
    }
  }

  lemma SubsetSize<T>(a: set<T>, b: set<T>)
    requires a <= b
    ensures |a| <= |b| && (|a| == |b| ==> a == b)
  {
    assert |b - a| == |b| - |a|;
  }

  /** A list of distinct members of all is as long as it exactly when it is complete and all repeats nothing. */
  lemma SameLength(some: seq<Name>, all: seq<Name>)
    requires Distinct(some) && forall n :: n in some ==> n in all
    ensures |some| == |all| <==> Distinct(all) && forall n :: n in all ==> n in some
  {
    var a, b := set n | n in some, set n | n in all;
    SetSize(some);
    SetSize(all);
    SubsetSize(a, b);
    if forall n :: n in all ==> n in some {
      assert b <= a;
    }
    if a == b {
      assert forall n :: n in all ==> n in b && n in a;
    }
  }

  lemma {:induction false} DistinctCounts(xs: seq<Name>)
    ensures Distinct(xs) <==> forall n :: n in xs ==> multiset(xs)[n] == 1
  {
    if Distinct(xs) {
      forall n | n in xs ensures multiset(xs)[n] == 1 {
        OnceInDistinct(xs, n);
      }
    } else {
      var i, j :| 0 <= i < j < |xs| && xs[i] == xs[j];
      assert xs == xs[..j] + [xs[j]] + xs[j + 1..];
      assert xs[..j][i] == xs[j];
      assert multiset(xs)[xs[j]] >= 2;
    }
  }

  lemma DependentsOnceMeans(names: seq<Name>, comps: Components)
    ensures DependentsOnce(names, comps) <==> Distinct(Pick(names, comps, names, false))
  {
    hide IsRoot, Pick;
    var others := Pick(names, comps, names, false);
    DistinctCounts(others);
    forall n ensures multiset(others)[n] == if IsRoot(names, comps, n) then 0 else multiset(names)[n] {
      PickCounts(names, comps, names, false, n);
    }
  }

  // ── when an order is given ────────────────────────────────────────────────

  /** `Order` answers with an order rather than an error. */
  ghost predicate Accepted(names: seq<Name>, comps: Components) {
    |KahnOrder(names, comps)| == |names|
  }

  /** On any list of names, repeated or not: an order is given exactly when every
      component that needs another is listed once and none are stuck. */
  lemma AcceptedExactly(names: seq<Name>, comps: Components)
    ensures Accepted(names, comps) <==> DependentsOnce(names, comps) && forall s :: !Stuck(names, comps, s)
  {
    hide KahnOrder, Ends, IsRoot, Pick, Stuck, DependentsOnce;
    var out := KahnOrder(names, comps);
    OrderEnds(names, comps);
    AcceptedMeans(names, comps, out);
    if Unfinished(names, comps, out) != {} {
      UnfinishedAreStuck(names, comps, out);
    } else {
      forall s ensures !Stuck(names, comps, s) {
        if Stuck(names, comps, s) {
          StuckStays(names, comps, out, s, |out|);
          assert out[..|out|] == out;
          StuckUnfinished(names, comps, out, s);
        }
      }
    }
  }

  lemma StuckUnfinished(names: seq<Name>, comps: Components, out: seq<Name>, s: set<Name>)
    requires Stuck(names, comps, s) && forall n :: n in s ==> n !in out
    ensures Unfinished(names, comps, out) != {}
  {
    hide IsRoot, Lacks, Spare, Needs;
    var n :| n in s;
    assert n in Unfinished(names, comps, out);
  }

  lemma AcceptedMeans(names: seq<Name>, comps: Components, out: seq<Name>)
    requires Ends(names, comps, out)
    ensures |out| == |names| <==> DependentsOnce(names, comps) && Unfinished(names, comps, out) == {}
    ensures |out| == |names| ==> multiset(out) == multiset(names)
  {
    hide IsRoot, Pick, Earned, Credit, Distinct, DependentsOnce;
    var roots, others := Pick(names, comps, names, true), Pick(names, comps, names, false);
    var rest := out[|roots|..];
    PickSizes(names, comps, names);
    SameLength(rest, others);
    DependentsOnceMeans(names, comps);
    OutCounts(names, comps, out);
    assert out == roots + rest;
    forall n | n in others ensures n in rest <==> n !in Unfinished(names, comps, out) {
      assert n in roots ==> IsRoot(names, comps, n);
    }
    assert (forall n :: n in others ==> n in rest) <==> Unfinished(names, comps, out) == {};
    if |out| == |names| {
      forall d ensures multiset(out)[d] == multiset(names)[d] {
        PickCounts(names, comps, names, false, d);
        OnceInDistinct(others, d);
      }
      assert multiset(out) == multiset(names);
    }
  }

  /** An order given lists each component as often as the release does. */
  lemma AcceptedIsPermutation(names: seq<Name>, comps: Components)
    requires Accepted(names, comps)
    ensures multiset(KahnOrder(names, comps)) == multiset(names)
  {
    hide KahnOrder, Ends;
    OrderEnds(names, comps);
    AcceptedMeans(names, comps, KahnOrder(names, comps));
  }

  // ── cycles ────────────────────────────────────────────────────────────────

  /** Components that each need another of them are never without a cycle. */
  lemma {:induction false} EndlessNeeds(g: Graph<Name>, s: set<Name>, v: Name)
    requires Acyclic(g) && v in s && s <= g.Keys
    requires forall n :: n in s ==> exists d :: d in Succ(g, n) && d in s
    ensures false
    decreases Below(g, v)
  {
    var w :| w in Succ(g, v) && w in s;
    BelowShrinks(g, v, w);
    EndlessNeeds(g, s, w);
  }

  lemma {:induction false} LacksNone(ds: seq<Name>, s: set<Name>)
    ensures Lacks(ds, s) > 0 <==> exists d :: d in ds && d in s
  {
    if ds != [] {
      LacksNone(ds[..|ds| - 1], s);
      assert ds == ds[..|ds| - 1] + [ds[|ds| - 1]];
    }
  }

  lemma NeedsInside(names: seq<Name>, comps: Components, n: Name, d: Name)
    requires d in Needs(names, comps, n)
    ensures d in names
  {
  }

  /** Without a cycle nothing is stuck. */
  lemma AcyclicNeverStuck(names: seq<Name>, comps: Components, s: set<Name>)
    requires Acyclic(ReleaseGraph(names, comps))
    ensures !Stuck(names, comps, s)
  {
    hide Acyclic, Needs, IsRoot, Lacks, Spare;
    var g := ReleaseGraph(names, comps);
    if Stuck(names, comps, s) {
      forall n | n in s ensures exists d :: d in Succ(g, n) && d in s {
        LacksNone(Needs(names, comps, n), s);
        var d :| d in Needs(names, comps, n) && d in s;
        assert d in Succ(g, n);
      }
      var v :| v in s;
      EndlessNeeds(g, s, v);
    }
  }

  /** A release without a cycle gets an order exactly when no component that
      needs another is listed twice. */
  lemma AcyclicAccepted(names: seq<Name>, comps: Components)
    requires Acyclic(ReleaseGraph(names, comps))
    ensures Accepted(names, comps) <==> DependentsOnce(names, comps)
  {
    hide Acyclic, Accepted, DependentsOnce, Stuck;
    AcceptedExactly(names, comps);
    forall s ensures !Stuck(names, comps, s) {
      AcyclicNeverStuck(names, comps, s);
    }
  }

  /** Exactly when the verdict on cycles is right. */
  lemma VerdictExactly(names: seq<Name>, comps: Components)
    ensures (Accepted(names, comps) <==> Acyclic(ReleaseGraph(names, comps))) <==>
      if Acyclic(ReleaseGraph(names, comps)) then DependentsOnce(names, comps)
      else !DependentsOnce(names, comps) || exists s :: Stuck(names, comps, s)
  {
    hide Acyclic, Accepted, DependentsOnce, Stuck;
    AcceptedExactly(names, comps);
    if Acyclic(ReleaseGraph(names, comps)) {
      AcyclicAccepted(names, comps);
    }
  }

  /** The components on cycles through v. */
  ghost function Around(names: seq<Name>, comps: Components, v: Name): set<Name> {
    set n | n in names && Reaches(ReleaseGraph(names, comps), v, n) && Reaches(ReleaseGraph(names, comps), n, v)
  }

  lemma NextAround(names: seq<Name>, comps: Components, v: Name, n: Name)
    requires OnCycle(ReleaseGraph(names, comps), v) && n in Around(names, comps, v)
    ensures exists d :: d in Needs(names, comps, n) && d in Around(names, comps, v)
  {
    hide Reaches, Needs;
    var g := ReleaseGraph(names, comps);
    ReachesSplit(g, n, v);
    var c :| c in Succ(g, n) && Reaches(g, c, v);
    NeedsInside(names, comps, n, c);
    ReachesEdge(g, n, c);
    ReachesTrans(g, v, n, c);
  }

  /** Without surplus every cycle is stuck. */
  lemma CycleIsStuck(names: seq<Name>, comps: Components, v: Name)
    requires OnCycle(ReleaseGraph(names, comps), v)
    requires forall n :: n in names ==> Spare(names, comps, Needs(names, comps, n)) == 0
    ensures Stuck(names, comps, Around(names, comps, v))
  {
    hide Spare, OnCycle, Reaches, Inside, Lacks;
    var s := Around(names, comps, v);
    SelfAround(names, comps, v);
    forall n | n in s ensures !IsRoot(names, comps, n) && Lacks(Needs(names, comps, n), s) > 0 {
      NextAround(names, comps, v, n);
      LacksNone(Needs(names, comps, n), s);
    }
  }

  lemma SelfAround(names: seq<Name>, comps: Components, v: Name)
    requires OnCycle(ReleaseGraph(names, comps), v)
    ensures v in Around(names, comps, v)
  {
    hide Reaches;
    ReachesRefl(ReleaseGraph(names, comps), v);
  }

  // ── dependencies first ────────────────────────────────────────────────────

  lemma {:induction false} LacksOne(ds: seq<Name>, d: Name)
    ensures Lacks(ds, {d}) == multiset(ds)[d]
  {
    if ds != [] {
      LacksOne(ds[..|ds| - 1], d);
      assert ds == ds[..|ds| - 1] + [ds[|ds| - 1]];
    }
  }

  /** Surplus is too little to stand in for d: then d comes first. */
  lemma NeedComesFirst(names: seq<Name>, comps: Components, out: seq<Name>, i: nat, d: Name)
    requires Ends(names, comps, out) && i < |out| && d in Needs(names, comps, out[i])
    requires !IsRoot(names, comps, d) ==> Spare(names, comps, Needs(names, comps, out[i])) < multiset(Needs(names, comps, out[i]))[d]
    ensures d in out[..i]
  {
    var ds := Needs(names, comps, out[i]);
    if IsRoot(names, comps, d) {
      RootComesFirst(names, comps, out, i, d);
    } else if d !in out[..i] {
      LacksOne(ds, d);
      CreditBound(names, comps, out, i, ds, {d});
      EndsEarned(names, comps, out);
    }
  }

  /** Roots go before everything that needs something. */
  lemma RootComesFirst(names: seq<Name>, comps: Components, out: seq<Name>, i: nat, d: Name)
    requires Ends(names, comps, out) && i < |out| && d in Needs(names, comps, out[i]) && IsRoot(names, comps, d)
    ensures d in out[..i]
  {
    hide Earned, Distinct, Credit;
    var roots := Pick(names, comps, names, true);
    NeedsInside(names, comps, out[i], d);
    RootsBefore(roots, out, i);
    var j :| 0 <= j < |roots| && roots[j] == d;
    assert roots == out[..|roots|];
    assert out[..i][j] == d;
  }

  /** Dependencies come first wherever no component's surplus of repeated roots
      reaches the number of times it needs some component that is no root. */
  lemma FirstWithoutSurplus(names: seq<Name>, comps: Components)
    requires forall n, d {:trigger d in Needs(names, comps, n)} :: n in names && d in Needs(names, comps, n) && !IsRoot(names, comps, d) ==>
      Spare(names, comps, Needs(names, comps, n)) < multiset(Needs(names, comps, n))[d]
    ensures DependenciesFirst(names, comps, KahnOrder(names, comps))
  {
    hide KahnOrder, Ends, IsRoot, Spare, Needs;
    var out := KahnOrder(names, comps);
    OrderEnds(names, comps);
    OutCounts(names, comps, out);
    forall i, d | 0 <= i < |out| && d in Needs(names, comps, out[i]) ensures d in out[..i] {
      assert out[i] in out;
      NeedComesFirst(names, comps, out, i, d);
    }
  }

  // ── the promise ───────────────────────────────────────────────────────────

  /** Where no component needs a repeated root, `Order` gives an order exactly
      when no component that needs another is listed twice and there is no
      cycle, and the order puts dependencies first. */
  lemma OrderWithoutSurplus(names: seq<Name>, comps: Components)
    requires forall n :: n in names ==> Spare(names, comps, Needs(names, comps, n)) == 0
    ensures Accepted(names, comps) <==> DependentsOnce(names, comps) && Acyclic(ReleaseGraph(names, comps))
    ensures DependenciesFirst(names, comps, KahnOrder(names, comps))
  {
    hide Accepted, DependentsOnce, Stuck, KahnOrder, DependenciesFirst, OnCycle, IsRoot, Spare, Needs;
    AcceptedExactly(names, comps);
    var g := ReleaseGraph(names, comps);
    if Acyclic(g) {
      AcyclicAccepted(names, comps);
    } else {
      var v :| OnCycle(g, v);
      CycleIsStuck(names, comps, v);
    }
    forall n, d | n in names && d in Needs(names, comps, n) ensures 0 < multiset(Needs(names, comps, n))[d] { }
    FirstWithoutSurplus(names, comps);
  }

  lemma {:induction false} NoSurplus(names: seq<Name>, comps: Components, ds: seq<Name>)
    requires Distinct(names)
    ensures Spare(names, comps, ds) == 0
  {
    hide IsRoot, Distinct;
    if ds != [] {
      NoSurplus(names, comps, ds[..|ds| - 1]);
      OnceInDistinct(names, ds[|ds| - 1]);
    }
  }

  /** For distinct names: `Order` succeeds (its result has full length) exactly
      when the release has no dependency cycle, and then the result is a
      permutation of the names with every dependency first. */
  lemma OrderIsExact(names: seq<Name>, comps: Components)
    requires Distinct(names)
    ensures |KahnOrder(names, comps)| == |names| <==> Acyclic(ReleaseGraph(names, comps))
    ensures |KahnOrder(names, comps)| == |names| ==>
      && multiset(KahnOrder(names, comps)) == multiset(names)
      && DependenciesFirst(names, comps, KahnOrder(names, comps))
  {
    hide KahnOrder, Acyclic, DependenciesFirst, IsRoot, Distinct, Spare, Needs;
    forall n | n in names ensures Spare(names, comps, Needs(names, comps, n)) == 0 && multiset(names)[n] == 1 {
      NoSurplus(names, comps, Needs(names, comps, n));
      OnceInDistinct(names, n);
    }
    OrderWithoutSurplus(names, comps);
    if Accepted(names, comps) {
      AcceptedIsPermutation(names, comps);
    }
  }
}
