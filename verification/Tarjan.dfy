/** Tarjan's strongly connected components, as the cycle rejection of
    pkg/operations/evaluator.go runs it: discovery indices, low links, an
    explicit stack, and the list of components that hold a cycle. */
module Tarjan {
  import opened Graphs

  /** n reaches a node still being explored that was discovered no later than n. */
  ghost predicate Back<N(!new)>(g: Graph<N>, index: map<N, nat>, gray: set<N>, n: N) {
    exists x :: x in gray && x in index && n in index && index[x] <= index[n] && Reaches(g, n, x)
  }

  /** The stack holds visited nodes in discovery order. */
  ghost predicate Ordered<N>(index: map<N, nat>, stack: seq<N>, next: nat) {
    && (forall n :: n in stack ==> n in index)
    && (forall i, j :: 0 <= i < j < |stack| ==> index[stack[i]] < index[stack[j]])
    && (forall n :: n in index ==> index[n] < next)
  }

  /** Popped nodes are closed under edges; a node no longer being explored has
      no unvisited successor. */
  ghost predicate Frontier<N(!new)>(g: Graph<N>, index: map<N, nat>, stack: seq<N>, gray: set<N>) {
    && (forall n :: n in gray ==> n in stack)
    && (forall n, m :: n in index && n !in stack && m in Succ(g, n) ==> m in index && m !in stack)
    && (forall n, m :: n in stack && n !in gray && m in Succ(g, n) ==> m in index)
  }

  /** Each stack node reaches all later ones. */
  ghost predicate Chain<N(!new)>(g: Graph<N>, stack: seq<N>) {
    forall i, j {:trigger Reaches(g, stack[i], stack[j])} :: 0 <= i <= j < |stack| ==> Reaches(g, stack[i], stack[j])
  }

  ghost predicate AllBack<N(!new)>(g: Graph<N>, index: map<N, nat>, stack: seq<N>, gray: set<N>) {
    forall n {:trigger Back(g, index, gray, n)} :: n in stack ==> Back(g, index, gray, n)
  }

  /** The search state between two operations. gray holds the nodes whose
      exploration has begun and not ended: the recursion stack. */
  ghost predicate Inv<N(!new)>(g: Graph<N>, index: map<N, nat>, stack: seq<N>, gray: set<N>, next: nat) {
    && Ordered(index, stack, next)
    && Frontier(g, index, stack, gray)
    && Chain(g, stack)
    && AllBack(g, index, stack, gray)
  }

  /** No edge from seg into base leads below l. */
  ghost predicate LowBound<N(!new)>(g: Graph<N>, index: map<N, nat>, base: seq<N>, seg: seq<N>, l: nat) {
    forall x, y :: x in seg && y in Succ(g, x) && y in base && y in index ==> l <= index[y]
  }

  ghost predicate LowWitness<N(!new)>(g: Graph<N>, index: map<N, nat>, stack: seq<N>, v: N, l: nat) {
    exists y :: y in stack && y in index && index[y] == l && Reaches(g, v, y)
  }

  ghost predicate IndexExtends<N>(a: map<N, nat>, b: map<N, nat>) {
    forall n :: n in a ==> n in b && b[n] == a[n]
  }

  /** c lists, without repetition, all nodes mutually reachable with each of its nodes. */
  ghost predicate IsComponent<N(!new)>(g: Graph<N>, c: seq<N>) {
    && c != []
    && (forall i, j :: 0 <= i < j < |c| ==> c[i] != c[j])
    && (forall n, m {:trigger Reaches(g, n, m)} :: n in c ==> (m in c <==> Reaches(g, n, m) && Reaches(g, m, n)))
  }

  ghost predicate Listed<N>(cyclic: seq<seq<N>>, n: N) {
    exists c :: c in cyclic && n in c
  }

  /** What the list of cyclic components says about the nodes already popped. */
  ghost predicate Reported<N(!new)>(g: Graph<N>, index: map<N, nat>, stack: seq<N>, cyclic: seq<seq<N>>) {
    && (forall c {:trigger IsComponent(g, c)} :: c in cyclic ==> IsComponent(g, c))
    && (forall n :: Listed(cyclic, n) ==> n in index && n !in stack)
    && (forall n {:trigger OnCycle(g, n)} :: n in index && n !in stack ==> (Listed(cyclic, n) <==> OnCycle(g, n)))
  }

  lemma EntryChain<N(!new)>(g: Graph<N>, index: map<N, nat>, stack: seq<N>, gray: set<N>, v: N)
    requires Chain(g, stack) && AllBack(g, index, stack, gray)
    requires forall x :: x in gray ==> Reaches(g, x, v)
    ensures Chain(g, stack + [v])
  {
    var stack' := stack + [v];
    ReachesRefl(g, v);
    forall i, j | 0 <= i <= j < |stack'|
      ensures Reaches(g, stack'[i], stack'[j])
    {
      if j < |stack| {
        assert Reaches(g, stack[i], stack[j]);
      } else if i < |stack| {
        var n := stack[i];
        assert Back(g, index, gray, n);
        var x :| x in gray && x in index && index[x] <= index[n] && Reaches(g, n, x);
        ReachesTrans(g, n, x, v);
      }
    }
  }

  lemma EntryBack<N(!new)>(g: Graph<N>, index: map<N, nat>, stack: seq<N>, gray: set<N>, next: nat, v: N)
    requires AllBack(g, index, stack, gray) && v !in index
    ensures AllBack(g, index[v := next], stack + [v], gray + {v})
  {
    var index', stack', gray' := index[v := next], stack + [v], gray + {v};
    forall n | n in stack'
      ensures Back(g, index', gray', n)
    {
      if n in stack {
        assert Back(g, index, gray, n);
        var x :| x in gray && x in index && n in index && index[x] <= index[n] && Reaches(g, n, x);
        assert x in gray' && index'[x] <= index'[n];
      } else {
        ReachesRefl(g, v);
        assert v in gray' && Reaches(g, v, v);
      }
    }
  }

  lemma EntryFrontier<N(!new)>(g: Graph<N>, index: map<N, nat>, stack: seq<N>, gray: set<N>, next: nat, v: N)
    requires Frontier(g, index, stack, gray) && v !in index
    ensures Frontier(g, index[v := next], stack + [v], gray + {v})
  {
    var index', stack', gray' := index[v := next], stack + [v], gray + {v};
    forall n, m | n in index' && n !in stack' && m in Succ(g, n)
      ensures m in index' && m !in stack'
    {
      assert n in index && n !in stack;
    }
    forall n, m | n in stack' && n !in gray' && m in Succ(g, n)
      ensures m in index'
    {
      assert n in stack && n !in gray;
    }
  }

  lemma EntryOrdered<N(!new)>(index: map<N, nat>, stack: seq<N>, next: nat, v: N)
    requires Ordered(index, stack, next) && v !in index
    ensures Ordered(index[v := next], stack + [v], next + 1)
  {
  }

  /** Discovery order along the stack, split at base. */
  lemma StackSplit<N(!new)>(index: map<N, nat>, base: seq<N>, seg: seq<N>, next: nat)
    requires Ordered(index, base + seg, next)
    ensures Ordered(index, base, next)
    ensures forall n :: n in seg ==> n in index
    ensures forall x, y :: x in base && y in seg ==> index[x] < index[y]
    ensures forall i, j :: 0 <= i < j < |seg| ==> seg[i] != seg[j]
  {
    var stack := base + seg;
    forall i | 0 <= i < |base| ensures base[i] in index { assert stack[i] == base[i]; }
    forall i | 0 <= i < |seg| ensures seg[i] in index { assert stack[|base| + i] == seg[i]; }
    forall i, j | 0 <= i < |base| && 0 <= j < |seg|
      ensures index[base[i]] < index[seg[j]]
    {
      assert stack[i] == base[i] && stack[|base| + j] == seg[j];
    }
    forall i, j | 0 <= i < j < |seg|
      ensures seg[i] != seg[j]
    {
      assert stack[|base| + i] == seg[i] && stack[|base| + j] == seg[j];
    }
    forall i, j | 0 <= i < j < |base|
      ensures index[base[i]] < index[base[j]]
    {
      assert stack[i] == base[i] && stack[j] == base[j];
    }
  }

  /** Everything above base leads only to itself or to popped nodes, once v's
      low link is its own index. */
  lemma SegmentClosed<N(!new)>(g: Graph<N>, index: map<N, nat>, base: seq<N>, seg: seq<N>, gray: set<N>, next: nat, v: N)
    requires Ordered(index, base + seg, next) && Frontier(g, index, base + seg, gray + {v})
    requires seg != [] && seg[0] == v
    requires forall n :: n in gray ==> n in base
    requires forall w :: w in Succ(g, v) ==> w in index
    requires v in index && LowBound(g, index, base, seg, index[v])
    ensures Closed(g, set n | n in index && n !in base)
    ensures Closed(g, set n | n in index && n !in base + seg)
  {
    var stack := base + seg;
    StackSplit(index, base, seg, next);
    forall n, m | n in index && n !in base && m in Succ(g, n)
      ensures m in index && m !in base
    {
      if n in seg {
        assert n in stack;
        assert n != v ==> n !in gray + {v};
      } else {
        assert n !in stack;
        assert m in base ==> m in stack;
      }
    }
  }

  lemma SegmentConnected<N(!new)>(g: Graph<N>, index: map<N, nat>, base: seq<N>, seg: seq<N>, gray: set<N>, v: N, n: N)
    requires Chain(g, base + seg) && AllBack(g, index, base + seg, gray + {v})
    requires seg != [] && seg[0] == v && n in seg && n in index && n !in base
    requires forall x :: x in gray ==> x in base
    requires Closed(g, set x | x in index && x !in base)
    ensures Reaches(g, n, v) && Reaches(g, v, n)
  {
    var stack := base + seg;
    var i :| 0 <= i < |seg| && seg[i] == n;
    assert stack[|base|] == v && stack[|base| + i] == n;
    assert Reaches(g, stack[|base|], stack[|base| + i]);
    assert n in stack;
    assert Back(g, index, gray + {v}, n);
    var x :| x in gray + {v} && x in index && Reaches(g, n, x);
    ClosedContainsReachable(g, (set x | x in index && x !in base), n, x);
  }

  /** ... so the segment is exactly one strongly connected component. */
  lemma SegmentIsComponent<N(!new)>(g: Graph<N>, index: map<N, nat>, base: seq<N>, seg: seq<N>, gray: set<N>, next: nat, v: N)
    requires Ordered(index, base + seg, next)
    requires Chain(g, base + seg) && AllBack(g, index, base + seg, gray + {v})
    requires seg != [] && seg[0] == v
    requires forall n :: n in gray ==> n in base
    requires Closed(g, set n | n in index && n !in base)
    requires Closed(g, set n | n in index && n !in base + seg)
    ensures IsComponent(g, seg)
  {
    StackSplit(index, base, seg, next);
    forall n | n in seg
      ensures Reaches(g, n, v) && Reaches(g, v, n)
    {
      SegmentConnected(g, index, base, seg, gray, v, n);
    }
    forall n, m | n in seg
      ensures m in seg <==> Reaches(g, n, m) && Reaches(g, m, n)
    {
      if m in seg {
        ReachesTrans(g, n, v, m);
        ReachesTrans(g, m, v, n);
      } else if Reaches(g, n, m) && Reaches(g, m, n) {
        SegmentMaximal(g, index, base, seg, n, m);
      }
    }
  }

  lemma SegmentMaximal<N(!new)>(g: Graph<N>, index: map<N, nat>, base: seq<N>, seg: seq<N>, n: N, m: N)
    requires n in index && n in seg && n !in base
    requires Closed(g, set x | x in index && x !in base)
    requires Closed(g, set x | x in index && x !in base + seg)
    requires Reaches(g, n, m) && Reaches(g, m, n)
    ensures m in seg
  {
    ClosedContainsReachable(g, (set x | x in index && x !in base), n, m);
    if m !in seg {
      ClosedContainsReachable(g, (set x | x in index && x !in base + seg), m, n);
    }
  }

  lemma PopChain<N(!new)>(g: Graph<N>, base: seq<N>, seg: seq<N>)
    requires Chain(g, base + seg)
    ensures Chain(g, base)
  {
    var stack := base + seg;
    forall i, j | 0 <= i <= j < |base|
      ensures Reaches(g, base[i], base[j])
    {
      assert stack[i] == base[i] && stack[j] == base[j];
    }
  }

  lemma PopBack<N(!new)>(g: Graph<N>, index: map<N, nat>, base: seq<N>, seg: seq<N>, gray: set<N>, v: N)
    requires AllBack(g, index, base + seg, gray + {v}) && v in index
    requires forall n :: n in base ==> n in index && index[n] < index[v]
    ensures AllBack(g, index, base, gray)
  {
    forall n | n in base
      ensures Back(g, index, gray, n)
    {
      assert n in base + seg;
      assert Back(g, index, gray + {v}, n);
      var x :| x in gray + {v} && x in index && index[x] <= index[n] && Reaches(g, n, x);
      assert x in gray;
    }
  }

  lemma PopFrontier<N(!new)>(g: Graph<N>, index: map<N, nat>, base: seq<N>, seg: seq<N>, gray: set<N>, v: N)
    requires Frontier(g, index, base + seg, gray + {v}) && v !in base
    requires forall n :: n in gray ==> n in base
    requires Closed(g, set n | n in index && n !in base)
    ensures Frontier(g, index, base, gray)
  {
    var above := set n | n in index && n !in base;
    forall n, m | n in index && n !in base && m in Succ(g, n)
      ensures m in index && m !in base
    {
      assert n in above && m in above;
    }
    forall n, m | n in base && n !in gray && m in Succ(g, n)
      ensures m in index
    {
      assert n in base + seg && n !in gray + {v};
    }
  }

  /** When v's low link lies below v, everything that leaned on v leans on an
      older node of the stack instead. */
  lemma KeepBack<N(!new)>(g: Graph<N>, index: map<N, nat>, stack: seq<N>, gray: set<N>, v: N, l: nat)
    requires AllBack(g, index, stack, gray + {v}) && v in index
    requires l < index[v] && LowWitness(g, index, stack, v, l)
    ensures AllBack(g, index, stack, gray)
  {
    var y :| y in stack && y in index && index[y] == l && Reaches(g, v, y);
    assert Back(g, index, gray + {v}, y);
    var z :| z in gray + {v} && z in index && index[z] <= index[y] && Reaches(g, y, z);
    ReachesTrans(g, v, y, z);
    forall n | n in stack
      ensures Back(g, index, gray, n)
    {
      assert Back(g, index, gray + {v}, n);
      var x :| x in gray + {v} && x in index && n in index && index[x] <= index[n] && Reaches(g, n, x);
      if x == v {
        ReachesTrans(g, n, v, z);
        assert z in gray && index[z] <= index[n];
      }
    }
  }

  lemma KeepFrontier<N(!new)>(g: Graph<N>, index: map<N, nat>, stack: seq<N>, gray: set<N>, v: N)
    requires Frontier(g, index, stack, gray + {v})
    requires forall w :: w in Succ(g, v) ==> w in index
    ensures Frontier(g, index, stack, gray)
  {
    forall n, m | n in stack && n !in gray && m in Succ(g, n)
      ensures m in index
    {
      assert n != v ==> n !in gray + {v};
    }
  }

  /** The test the code makes on a popped component decides whether its nodes lie on a cycle. */
  lemma CyclicTest<N(!new)>(g: Graph<N>, index: map<N, nat>, base: seq<N>, seg: seq<N>, v: N, n: N)
    requires IsComponent(g, seg) && v in seg && n in seg
    ensures (|seg| > 1 || v in Succ(g, v)) <==> OnCycle(g, n)
  {
    ReachesRefl(g, v);
    if |seg| > 1 {
      var k := if seg[0] == n then 1 else 0;
      assert seg[0] != seg[1];
      assert seg[k] in seg && seg[k] != n;
      MutualIsCycle(g, n, seg[k]);
    } else {
      assert seg == [v];
      assert n == v;
      if v in Succ(g, v) {
        ReachesStep(g, v, v, v);
      }
      if OnCycle(g, v) {
        var c :| c in Succ(g, v) && Reaches(g, c, v);
        ReachesEdge(g, v, c);
        assert c in seg;
      }
    }
  }

  lemma EntryReported<N(!new)>(g: Graph<N>, index: map<N, nat>, stack: seq<N>, cyclic: seq<seq<N>>, v: N, next: nat)
    requires Reported(g, index, stack, cyclic) && v !in index
    ensures Reported(g, index[v := next], stack + [v], cyclic)
  {
  }

  lemma ReversedComponent<N(!new)>(g: Graph<N>, seg: seq<N>, scc: seq<N>)
    requires IsComponent(g, seg)
    requires |scc| == |seg| && forall i :: 0 <= i < |seg| ==> scc[i] == seg[|seg| - 1 - i]
    ensures IsComponent(g, scc)
    ensures forall n :: n in scc <==> n in seg
  {
    forall n | n in seg ensures n in scc {
      var i :| 0 <= i < |seg| && seg[i] == n;
      assert scc[|seg| - 1 - i] == n;
    }
  }

  lemma PopReported<N(!new)>(g: Graph<N>, index: map<N, nat>, base: seq<N>, seg: seq<N>, cyclic: seq<seq<N>>, v: N, scc: seq<N>)
    requires Reported(g, index, base + seg, cyclic)
    requires IsComponent(g, seg) && IsComponent(g, scc) && v in seg
    requires |scc| == |seg| && forall n :: n in scc <==> n in seg
    requires forall n :: n in seg ==> n in index && n !in base
    ensures Reported(g, index, base, if |scc| > 1 || v in Succ(g, v) then cyclic + [scc] else cyclic)
  {
    var holds := |scc| > 1 || v in Succ(g, v);
    var cyclic' := if holds then cyclic + [scc] else cyclic;
    forall n
      ensures Listed(cyclic', n) <==> Listed(cyclic, n) || (holds && n in scc)
    {
      if Listed(cyclic, n) {
        var c :| c in cyclic && n in c;
        assert c in cyclic';
      }
      if holds && n in scc {
        assert scc in cyclic';
      }
    }
    forall n | n in index && n !in base
      ensures Listed(cyclic', n) <==> OnCycle(g, n)
    {
      if n in seg {
        assert n in base + seg;
        CyclicTest(g, index, base, seg, v, n);
      } else {
        assert n !in base + seg;
      }
    }
  }

  /** What one call adds to the search: base stays below everything new, and
      what was known of visited nodes is kept. */
  ghost predicate Grown<N(!new)>(index: map<N, nat>, low: map<N, nat>, base: seq<N>,
                                 index': map<N, nat>, low': map<N, nat>, stack': seq<N>) {
    && (forall n :: n in index ==> n in index' && index'[n] == index[n])
    && (forall n :: n in low && n in index ==> n in low' && low'[n] == low[n])
    && base <= stack'
  }

  lemma GrownTrans<N(!new)>(i0: map<N, nat>, l0: map<N, nat>, s0: seq<N>, i1: map<N, nat>, l1: map<N, nat>, s1: seq<N>,
                            i2: map<N, nat>, l2: map<N, nat>, s2: seq<N>, v: N)
    requires Grown(i0, l0, s0, i1, l1, s1) && Grown(i1, l1 - {v}, s1, i2, l2, s2) && v !in i0
    ensures Grown(i0, l0, s0, i2, l2, s2)
  {
    assert s0 == s1[..|s0|] == s2[..|s0|];
  }

  lemma StackIsVisited<N(!new)>(g: Graph<N>, index: map<N, nat>, stack: seq<N>, gray: set<N>, next: nat)
    requires Inv(g, index, stack, gray, next)
    ensures forall n :: n in stack ==> n in index
  {
  }

  lemma GrayIsVisited<N(!new)>(g: Graph<N>, index: map<N, nat>, stack: seq<N>, gray: set<N>, next: nat)
    requires Inv(g, index, stack, gray, next)
    ensures forall n :: n in gray ==> n in stack && n in index
  {
  }

  /** How far the exploration of v has come when its first k edges es[..k] are done. */
  ghost predicate Explored<N(!new)>(g: Graph<N>, index: map<N, nat>, base: seq<N>, stack: seq<N>, v: N, es: seq<N>, k: nat, l: nat)
    requires k <= |es|
  {
    && base <= stack && |base| < |stack| && stack[|base|] == v
    && v in index && l <= index[v]
    && LowWitness(g, index, stack, v, l)
    && (forall w :: w in es[..k] ==> w in index && (w in base ==> l <= index[w]))
    && LowBound(g, index, base, stack[|base| + 1..], l)
  }

  lemma ExploredBase<N(!new)>(g: Graph<N>, index: map<N, nat>, base: seq<N>, stack: seq<N>, v: N, es: seq<N>, k: nat, l: nat,
                              gray: set<N>, next: nat)
    requires Inv(g, index, stack, gray, next)
    requires k <= |es| && Explored(g, index, base, stack, v, es, k, l)
    ensures v in index && index[v] < next
    ensures forall n :: n in base ==> n in index
    ensures forall n :: n in stack ==> n in index
  {
    forall n | n in base ensures n in index {
      var i :| 0 <= i < |base| && base[i] == n;
      assert stack[i] == n;
    }
  }

  /** A visited successor that is not on the stack changes nothing; one on the stack may lower the link. */
  lemma ExploreSeen<N(!new)>(g: Graph<N>, index: map<N, nat>, base: seq<N>, stack: seq<N>, v: N, es: seq<N>, k: nat, l: nat, l': nat)
    requires k < |es| && Explored(g, index, base, stack, v, es, k, l) && es == Succ(g, v)
    requires es[k] in index
    requires es[k] in stack ==> l' == if index[es[k]] < l then index[es[k]] else l
    requires es[k] !in stack ==> l' == l
    ensures Explored(g, index, base, stack, v, es, k + 1, l')
  {
    var w := es[k];
    assert es[..k + 1] == es[..k] + [w];
    if w in stack {
      ReachesEdge(g, v, w);
      assert w in stack && w in index && Reaches(g, v, w);
      assert LowWitness(g, index, stack, v, l');
    } else {
      assert w in base ==> w in stack;
    }
  }

  /** After a recursive call on the unvisited successor w. */
  lemma ExploreNew<N(!new)>(g: Graph<N>, index: map<N, nat>, base: seq<N>, stack: seq<N>, v: N, es: seq<N>, k: nat, l: nat,
                            index': map<N, nat>, stack': seq<N>, lw: nat)
    requires k < |es| && Explored(g, index, base, stack, v, es, k, l) && es == Succ(g, v)
    requires IndexExtends(index, index') && stack <= stack' && forall n :: n in base ==> n in index
    requires forall n :: n in stack' ==> n in index'
    requires es[k] !in index && es[k] in index'
    requires es[k] in stack' ==> LowWitness(g, index', stack', es[k], lw)
    requires es[k] !in stack' ==> index[v] <= lw
    requires LowBound(g, index', stack, stack'[|stack|..], lw)
    ensures Explored(g, index', base, stack', v, es, k + 1, if lw < l then lw else l)
  {
    var w := es[k];
    var l' := if lw < l then lw else l;
    assert es[..k + 1] == es[..k] + [w];
    assert stack'[|base|] == stack[|base|] == v;
    ExploreNewWitness(g, index, stack, v, w, l, index', stack', lw);
    var tail' := stack'[|base| + 1..];
    forall x, y | x in tail' && y in Succ(g, x) && y in base && y in index'
      ensures l' <= index'[y]
    {
      assert y in stack by {
        var i :| 0 <= i < |base| && base[i] == y;
        assert stack[i] == y;
      }
      assert tail' == stack[|base| + 1..] + stack'[|stack|..];
    }
  }

  lemma ExploreNewWitness<N(!new)>(g: Graph<N>, index: map<N, nat>, stack: seq<N>, v: N, w: N, l: nat,
                                   index': map<N, nat>, stack': seq<N>, lw: nat)
    requires IndexExtends(index, index') && stack <= stack' && w in Succ(g, v)
    requires LowWitness(g, index, stack, v, l)
    requires w in stack' ==> LowWitness(g, index', stack', w, lw)
    requires w !in stack' ==> l <= lw
    ensures LowWitness(g, index', stack', v, if lw < l then lw else l)
  {
    if lw < l {
      var y :| y in stack' && y in index' && index'[y] == lw && Reaches(g, w, y);
      ReachesStep(g, v, w, y);
    } else {
      var y :| y in stack && y in index && index[y] == l && Reaches(g, v, y);
      var i :| 0 <= i < |stack| && stack[i] == y;
      assert stack'[i] == y;
    }
  }

  /** The search of `rejectCycles`: its fields are the closure variables of the source. */
  class Search<N(==, !new)> {
    const g: Graph<N>
    ghost const nodes: set<N>
    var index: map<N, nat>
    var low: map<N, nat>
    var onStack: map<N, bool>
    var stack: seq<N>
    var cyclic: seq<seq<N>>
    var next: nat

    ghost predicate Valid(gray: set<N>)
      reads this
    {
      && Inv(g, index, stack, gray, next)
      && Reported(g, index, stack, cyclic)
      && low.Keys == index.Keys
      && (forall w :: w in stack <==> w in onStack && onStack[w])
      && Closed(g, nodes) && index.Keys <= nodes
    }

    constructor (g: Graph<N>, ghost nodes: set<N>)
      requires Closed(g, nodes)
      ensures this.g == g && this.nodes == nodes
      ensures Valid({}) && index == map[] && stack == []
    {
      this.g, this.nodes := g, nodes;
      index, low, onStack, stack, cyclic, next := map[], map[], map[], [], [], 0;
    }

    /** Pops the stack down to and including v. */
    method PopTo(v: N, ghost base: seq<N>) returns (scc: seq<N>)
      requires |base| < |stack| && stack[..|base|] == base && stack[|base|] == v
      requires v !in stack[|base| + 1..]
      requires forall w :: w in stack <==> w in onStack && onStack[w]
      requires forall i, j :: 0 <= i < j < |stack| ==> stack[i] != stack[j]
      modifies this`stack, this`onStack
      ensures stack == base
      ensures forall w :: w in stack <==> w in onStack && onStack[w]
      ensures |scc| == |old(stack)| - |base|
      ensures forall i :: 0 <= i < |scc| ==> scc[i] == old(stack)[|base|..][|scc| - 1 - i]
    {
      ghost var full := stack;
      scc := [];
      while true
        invariant |base| < |stack| <= |full| && stack == full[..|stack|]
        invariant |scc| == |full| - |stack|
        invariant forall i :: 0 <= i < |scc| ==> scc[i] == full[|full| - 1 - i]
        invariant forall w :: w in stack <==> w in onStack && onStack[w]
        decreases |stack|
      {
        var w := stack[|stack| - 1];
        var rest := stack[..|stack| - 1];
        assert stack == rest + [w];
        assert w !in rest;
        stack := rest;
        onStack := onStack[w := false];
        scc := scc + [w];
        if w == v {
          assert |rest| == |base|;
          break;
        }
        assert |rest| != |base|;
      }
    }

    /** Discovers v: the head of `strongConnect`. */
    method Enter(v: N, ghost gray: set<N>)
      requires Valid(gray) && v in nodes && v !in index
      requires forall x :: x in gray ==> Reaches(g, x, v)
      modifies this
      ensures Valid(gray + {v})
      ensures Grown(old(index), old(low), old(stack), index, low, stack)
      ensures stack == old(stack) + [v] && index == old(index)[v := old(next)] && v in low && low[v] == old(next)
      ensures Explored(g, index, old(stack), stack, v, Succ(g, v), 0, low[v])
    {
      EntryFrontier(g, index, stack, gray, next, v);
      EntryOrdered(index, stack, next, v);
      EntryChain(g, index, stack, gray, v);
      EntryBack(g, index, stack, gray, next, v);
      EntryReported(g, index, stack, cyclic, v, next);
      ReachesRefl(g, v);
      index, low := index[v := next], low[v := next];
      next := next + 1;
      stack := stack + [v];
      onStack := onStack[v := true];
      assert v in stack && v in index;
    }

    /** The tail of `strongConnect`: v's component is complete, or v stays on the stack. */
    method Leave(v: N, selfLoop: bool, ghost base: seq<N>, ghost gray: set<N>)
      requires Valid(gray + {v}) && v !in gray && v in low && v in index
      requires forall n :: n in gray ==> n in base
      requires Explored(g, index, base, stack, v, Succ(g, v), |Succ(g, v)|, low[v])
      requires selfLoop <==> v in Succ(g, v)
      modifies this`stack, this`onStack, this`cyclic
      ensures Valid(gray)
      ensures base <= stack && index == old(index) && low == old(low)
      ensures v in stack ==> LowWitness(g, index, stack, v, low[v])
      ensures v !in stack ==> low[v] == index[v]
      ensures LowBound(g, index, base, stack[|base|..], low[v])
    {
      hide Ordered, Frontier, Chain, AllBack, Reported, LowBound, LowWitness, Closed;
      ghost var seg := stack[|base|..];
      assert stack == base + seg && seg[0] == v;
      assert Succ(g, v)[..|Succ(g, v)|] == Succ(g, v);
      SegmentBound(g, index, base, seg, v, low[v]);
      if low[v] == index[v] {
        DistinctStack(index, stack, next);
        assert v !in base;
        ghost var _ := Complete(v, selfLoop, base, seg, gray);
        assert stack[|base|..] == [];
        NothingAbove(g, index, base, low[v]);
      } else {
        KeepBack(g, index, stack, gray, v, low[v]);
        KeepFrontier(g, index, stack, gray, v);
      }
    }

    /** v's component is everything above base: what is popped is one whole
        component, reported exactly when its nodes lie on a cycle. */
    method Complete(v: N, selfLoop: bool, ghost base: seq<N>, ghost seg: seq<N>, ghost gray: set<N>) returns (ghost popped: seq<N>)
      requires Valid(gray + {v}) && stack == base + seg && seg != [] && seg[0] == v && v in index
      requires forall n :: n in gray ==> n in base
      requires forall w :: w in Succ(g, v) ==> w in index
      requires LowBound(g, index, base, seg, index[v])
      requires selfLoop <==> v in Succ(g, v)
      modifies this`stack, this`onStack, this`cyclic
      ensures Valid(gray) && stack == base
      ensures IsComponent(g, popped) && forall n :: n in popped <==> n in seg
      ensures cyclic == old(cyclic) || cyclic == old(cyclic) + [popped]
      ensures forall n :: n in popped ==> (OnCycle(g, n) <==> cyclic == old(cyclic) + [popped])
    {
      hide Ordered, Frontier, Chain, AllBack, Reported, LowBound, Closed, IsComponent;
      StackSplit(index, base, seg, next);
      SegmentClosed(g, index, base, seg, gray, next, v);
      SegmentIsComponent(g, index, base, seg, gray, next, v);
      PopChain(g, base, seg);
      PopBack(g, index, base, seg, gray, v);
      PopFrontier(g, index, base, seg, gray, v);
      DistinctStack(index, stack, next);
      var scc := PopTo(v, base);
      ReversedComponent(g, seg, scc);
      PopReported(g, index, base, seg, cyclic, v, scc);
      popped := scc;
      forall n | n in scc ensures OnCycle(g, n) <==> |scc| > 1 || selfLoop {
        CyclicTest(g, index, base, seg, v, n);
      }
      assert |cyclic + [scc]| > |cyclic|;
      if |scc| > 1 || selfLoop {
        cyclic := cyclic + [scc];
      }
    }

    method StrongConnect(v: N, ghost gray: set<N>)
      requires Valid(gray) && v in nodes && v !in index
      requires forall x :: x in gray ==> Reaches(g, x, v)
      modifies this
      ensures Valid(gray)
      ensures Grown(old(index), old(low), old(stack), index, low, stack)
      ensures v in index && v in low && old(next) <= index[v]
      ensures v in stack ==> LowWitness(g, index, stack, v, low[v])
      ensures v !in stack ==> low[v] == index[v]
      ensures LowBound(g, index, old(stack), stack[|old(stack)|..], low[v])
      decreases nodes - index.Keys, 0
    {
      hide Inv, Reported, LowBound, LowWitness, Reaches, Closed;
      ghost var base := stack;
      ghost var i0, l0 := index, low;
      GrayIsVisited(g, index, stack, gray, next);
      Enter(v, gray);
      var es := Succ(g, v);
      var selfLoop := false;
      for k := 0 to |es|
        invariant Valid(gray + {v})
        invariant Grown(i0, l0, base, index, low, stack)
        invariant v in low && v in index && old(next) <= index[v] && v !in i0
        invariant Explored(g, index, base, stack, v, es, k, low[v])
        invariant selfLoop <==> v in es[..k]
      {
        var w := es[k];
        assert es[..k + 1] == es[..k] + [w];
        if w == v {
          selfLoop := true;
        }
        ghost var i1, l1, s1 := index, low, stack;
        Visit(v, w, es, k, base, gray);
        GrownTrans(i0, l0, base, i1, l1, s1, index, low, stack, v);
      }
      assert es[..|es|] == es;
      Leave(v, selfLoop, base, gray);
    }

    /** One turn of the edge loop. */
    method Visit(v: N, w: N, ghost es: seq<N>, ghost k: nat, ghost base: seq<N>, ghost gray: set<N>)
      requires Valid(gray + {v}) && es == Succ(g, v) && k < |es| && es[k] == w
      requires v in low && v in index && v in nodes && Explored(g, index, base, stack, v, es, k, low[v])
      requires forall x :: x in gray ==> Reaches(g, x, v)
      modifies this
      ensures Valid(gray + {v})
      ensures v in low && v in index && Explored(g, index, base, stack, v, es, k + 1, low[v])
      ensures Grown(old(index), old(low) - {v}, old(stack), index, low, stack)
      decreases nodes - index.Keys, 1
    {
      hide Ordered, Frontier, Chain, AllBack, Reported, LowBound, LowWitness, Reaches, Explored;
      ghost var i1, l1, s1 := index, low, stack;
      ExploredBase(g, index, base, stack, v, es, k, low[v], gray + {v}, next);
      if w !in index {
        ReachesRefl(g, v);
        forall x | x in gray + {v} ensures Reaches(g, x, w) {
          ReachesEdge(g, v, w);
          ReachesTrans(g, x, v, w);
        }
        StrongConnect(w, gray + {v});
        StackIsVisited(g, index, stack, gray + {v}, next);
        ExploreNew(g, i1, base, s1, v, es, k, l1[v], index, stack, low[w]);
        low := low[v := if low[w] < low[v] then low[w] else low[v]];
      } else {
        if w in onStack && onStack[w] {
          low := low[v := if index[w] < low[v] then index[w] else low[v]];
        }
        ExploreSeen(g, index, base, stack, v, es, k, l1[v], low[v]);
      }
    }

    /** The driver: every node of the list is connected unless already visited. */
    method Run(order: seq<N>)
      requires Valid({}) && index == map[] && stack == []
      requires forall n :: n in order ==> n in nodes
      modifies this
      ensures forall c :: c in cyclic ==> IsComponent(g, c)
      ensures forall n :: n in order ==> (Listed(cyclic, n) <==> OnCycle(g, n))
      ensures forall n :: Listed(cyclic, n) ==> OnCycle(g, n)
    {
      for i := 0 to |order|
        invariant Valid({}) && stack == []
        invariant forall n :: n in order[..i] ==> n in index
      {
        assert order[..i + 1] == order[..i] + [order[i]];
        if order[i] !in index {
          StrongConnect(order[i], {});
          NoGrayNoStack(g, index, stack);
        }
      }
      assert order[..|order|] == order;
    }
  }

  lemma NothingAbove<N(!new)>(g: Graph<N>, index: map<N, nat>, base: seq<N>, l: nat)
    ensures LowBound(g, index, base, [], l)
  {
  }

  lemma SegmentBound<N(!new)>(g: Graph<N>, index: map<N, nat>, base: seq<N>, seg: seq<N>, v: N, l: nat)
    requires seg != [] && seg[0] == v
    requires forall w :: w in Succ(g, v) ==> w in index && (w in base ==> l <= index[w])
    requires LowBound(g, index, base, seg[1..], l)
    ensures LowBound(g, index, base, seg, l)
  {
    assert seg == [v] + seg[1..];
  }

  lemma DistinctStack<N(!new)>(index: map<N, nat>, stack: seq<N>, next: nat)
    requires Ordered(index, stack, next)
    ensures forall i, j :: 0 <= i < j < |stack| ==> stack[i] != stack[j]
  {
  }

  /** With nothing left to explore the stack is empty. */
  lemma NoGrayNoStack<N(!new)>(g: Graph<N>, index: map<N, nat>, stack: seq<N>)
    requires AllBack(g, index, stack, {})
    ensures stack == []
  {
    assert stack != [] ==> Back(g, index, {}, stack[0]);
  }
}
