/** Finite directed graphs given by successor lists, and reachability in them. */
module Graphs {

  type Graph<N(==)> = map<N, seq<N>>

  function Succ<N>(g: Graph<N>, v: N): seq<N> {
    if v in g then g[v] else []
  }

  ghost predicate Hop<N>(g: Graph<N>, p: seq<N>, i: int) {
    0 <= i < |p| - 1 ==> p[i + 1] in Succ(g, p[i])
  }

  ghost predicate IsPath<N>(g: Graph<N>, p: seq<N>) {
    p != [] && forall i {:trigger Hop(g, p, i)} :: Hop(g, p, i)
  }

  ghost predicate PathFromTo<N>(g: Graph<N>, p: seq<N>, a: N, b: N) {
    IsPath(g, p) && p[0] == a && p[|p| - 1] == b
  }

  /** b can be reached from a by zero or more edges. */
  ghost predicate Reaches<N(!new)>(g: Graph<N>, a: N, b: N) {
    exists p :: PathFromTo(g, p, a, b)
  }

  /** b can be reached from a by one or more edges. */
  ghost predicate ReachesPlus<N(!new)>(g: Graph<N>, a: N, b: N) {
    exists c :: c in Succ(g, a) && Reaches(g, c, b)
  }

  ghost predicate OnCycle<N(!new)>(g: Graph<N>, v: N) {
    ReachesPlus(g, v, v)
  }

  ghost predicate Acyclic<N(!new)>(g: Graph<N>) {
    forall v :: !OnCycle(g, v)
  }

  /** No edge leaves s. */
  ghost predicate Closed<N(!new)>(g: Graph<N>, s: set<N>) {
    forall v, w :: v in s && w in Succ(g, v) ==> w in s
  }

  lemma ReachesRefl<N(!new)>(g: Graph<N>, a: N)
    ensures Reaches(g, a, a)
  {
    assert PathFromTo(g, [a], a, a);
  }

  lemma ReachesTrans<N(!new)>(g: Graph<N>, a: N, b: N, c: N)
    requires Reaches(g, a, b) && Reaches(g, b, c)
    ensures Reaches(g, a, c)
  {
    var p :| PathFromTo(g, p, a, b);
    var q :| PathFromTo(g, q, b, c);
    var r := p + q[1..];
    forall i
      ensures Hop(g, r, i)
    {
      assert Hop(g, p, i) && Hop(g, q, i - |p| + 1);
    }
    assert PathFromTo(g, r, a, c);
  }

  lemma ReachesEdge<N(!new)>(g: Graph<N>, a: N, b: N)
    requires b in Succ(g, a)
    ensures Reaches(g, a, b)
  {
    assert PathFromTo(g, [a, b], a, b);
  }

  lemma ReachesStep<N(!new)>(g: Graph<N>, a: N, b: N, c: N)
    requires b in Succ(g, a) && Reaches(g, b, c)
    ensures Reaches(g, a, c) && ReachesPlus(g, a, c)
  {
    ReachesEdge(g, a, b);
    ReachesTrans(g, a, b, c);
  }

  lemma PlusIsReaches<N(!new)>(g: Graph<N>, a: N, b: N)
    requires ReachesPlus(g, a, b)
    ensures Reaches(g, a, b)
  {
    var c :| c in Succ(g, a) && Reaches(g, c, b);
    ReachesStep(g, a, c, b);
  }

  lemma PlusTrans<N(!new)>(g: Graph<N>, a: N, b: N, c: N)
    requires ReachesPlus(g, a, b) && Reaches(g, b, c)
    ensures ReachesPlus(g, a, c)
  {
    var d :| d in Succ(g, a) && Reaches(g, d, b);
    ReachesTrans(g, d, b, c);
  }

  /** A path of distinct end points has at least one edge. */
  lemma ReachesSplit<N(!new)>(g: Graph<N>, a: N, b: N)
    requires Reaches(g, a, b)
    ensures a == b || ReachesPlus(g, a, b)
  {
    var p :| PathFromTo(g, p, a, b);
    if |p| > 1 {
      var q := p[1..];
      forall i ensures Hop(g, q, i) { assert Hop(g, p, i + 1); }
      assert Hop(g, p, 0);
      assert PathFromTo(g, q, p[1], b);
    }
  }

  /** Nothing outside a closed set can be reached from inside it. */
  lemma {:induction false} ClosedContainsReachable<N(!new)>(g: Graph<N>, s: set<N>, a: N, b: N)
    requires Closed(g, s) && a in s && Reaches(g, a, b)
    ensures b in s
  {
    var p :| PathFromTo(g, p, a, b);
    var i := 0;
    while i < |p| - 1
      invariant 0 <= i < |p| && p[i] in s
    {
      assert Hop(g, p, i);
      i := i + 1;
    }
  }

  /** Two distinct nodes that reach each other both lie on a cycle. */
  lemma MutualIsCycle<N(!new)>(g: Graph<N>, a: N, b: N)
    requires a != b && Reaches(g, a, b) && Reaches(g, b, a)
    ensures OnCycle(g, a)
  {
    ReachesSplit(g, a, b);
    PlusTrans(g, a, b, a);
  }

  /** The nodes of g that v reaches by one or more edges. */
  ghost function Below<N(!new)>(g: Graph<N>, v: N): set<N> {
    set m | m in g.Keys && ReachesPlus(g, v, m)
  }

  /** In an acyclic graph every edge leads to a node with strictly less below it. */
  lemma BelowShrinks<N(!new)>(g: Graph<N>, v: N, w: N)
    requires !OnCycle(g, w) && w in Succ(g, v) && w in g
    ensures Below(g, w) < Below(g, v)
  {
    ReachesRefl(g, w);
    assert w in Below(g, v) && w !in Below(g, w);
    forall m | m in Below(g, w) ensures m in Below(g, v) {
      PlusIsReaches(g, w, m);
    }
  }

  /** A graph with fewer edges has fewer paths. */
  lemma SubgraphReaches<N(!new)>(g: Graph<N>, h: Graph<N>, a: N, b: N)
    requires forall v, w :: w in Succ(g, v) ==> w in Succ(h, v)
    requires Reaches(g, a, b)
    ensures Reaches(h, a, b)
  {
    var p :| PathFromTo(g, p, a, b);
    forall i ensures Hop(h, p, i) { assert Hop(g, p, i); }
    assert PathFromTo(h, p, a, b);
  }
}
