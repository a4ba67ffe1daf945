/** The depth-first cycle search of `Contract.localCycle`: a mark per node and
    the stack of the nodes being visited. An unvisited node has no mark. */
module DepthFirst {
  import opened Wrappers
  import opened Graphs

  datatype Mark = OnStack | Done

  /** A closed walk: consecutive nodes are joined by edges, and the last leads back to the first. */
  ghost predicate IsCycle(g: Graph<string>, cyc: seq<string>) {
    IsPath(g, cyc) && cyc[0] in Succ(g, cyc[|cyc| - 1])
  }

  lemma CycleNodesOnCycle(g: Graph<string>, cyc: seq<string>)
    requires IsCycle(g, cyc)
    ensures OnCycle(g, cyc[0])
  {
    var z := cyc[|cyc| - 1];
    assert PathFromTo(g, cyc, cyc[0], z);
    ReachesEdge(g, z, cyc[0]);
    ReachesSplit(g, cyc[0], z);
    if cyc[0] == z {
      ReachesRefl(g, z);
    } else {
      PlusTrans(g, cyc[0], z, cyc[0]);
    }
  }

  /** The nodes on the stack are those marked so. */
  ghost predicate Marked(state: map<string, Mark>, stack: seq<string>) {
    Distinct(stack) && forall n :: n in stack <==> n in state && state[n] == OnStack
  }

  ghost predicate Walk(g: Graph<string>, stack: seq<string>) {
    forall i {:trigger Hop(g, stack, i)} :: Hop(g, stack, i)
  }

  ghost function DoneNodes(state: map<string, Mark>): set<string> {
    set m | m in state && state[m] == Done
  }

  /** Finished nodes lead to finished nodes only and lie on no cycle. */
  ghost predicate Finished(g: Graph<string>, state: map<string, Mark>) {
    && Closed(g, DoneNodes(state))
    && forall n {:trigger OnCycle(g, n)} :: n in DoneNodes(state) ==> !OnCycle(g, n)
  }

  ghost predicate Kept(a: map<string, Mark>, b: map<string, Mark>) {
    forall m :: m in a ==> m in b && b[m] == a[m]
  }

  /** A node whose successors are all finished can be finished too. */
  lemma Finish(g: Graph<string>, state: map<string, Mark>, n: string)
    requires Finished(g, state) && n !in DoneNodes(state)
    requires forall m :: m in Succ(g, n) ==> m in DoneNodes(state)
    ensures Finished(g, state[n := Done])
  {
    assert DoneNodes(state[n := Done]) == DoneNodes(state) + {n};
    if OnCycle(g, n) {
      var m :| m in Succ(g, n) && Reaches(g, m, n);
      ClosedContainsReachable(g, DoneNodes(state), m, n);
    }
  }

  lemma PopMarked(state: map<string, Mark>, stack: seq<string>, n: string)
    requires Marked(state, stack + [n])
    ensures Marked(state[n := Done], stack)
  {
    assert (stack + [n])[|stack|] == n;
    forall m ensures m in stack <==> m in state[n := Done] && state[n := Done][m] == OnStack {
      if m in stack {
        var i :| 0 <= i < |stack| && stack[i] == m;
        assert (stack + [n])[i] == m;
      } else if m != n {
        assert m !in stack + [n];
      }
    }
    forall i, j | 0 <= i < j < |stack| ensures stack[i] != stack[j] {
      assert (stack + [n])[i] == stack[i] && (stack + [n])[j] == stack[j];
    }
  }

  lemma ShorterWalk(g: Graph<string>, stack: seq<string>, n: string)
    requires Walk(g, stack + [n])
    ensures Walk(g, stack)
  {
    forall i ensures Hop(g, stack, i) { assert Hop(g, stack + [n], i); }
  }

  lemma LongerWalk(g: Graph<string>, stack: seq<string>, n: string)
    requires Walk(g, stack) && (stack != [] ==> n in Succ(g, stack[|stack| - 1]))
    ensures Walk(g, stack + [n])
  {
    forall i ensures Hop(g, stack + [n], i) { assert Hop(g, stack, i); }
  }

  class CycleSearch {
    const g: Graph<string>
    var state: map<string, Mark>
    var stack: seq<string>

    ghost predicate Valid()
      reads this
    {
      Marked(state, stack) && Walk(g, stack) && Finished(g, state) && Closed(g, g.Keys)
    }

    constructor (g: Graph<string>)
      requires Closed(g, g.Keys)
      ensures Valid() && this.g == g && state == map[] && stack == []
    {
      this.g := g;
      state, stack := map[], [];
    }

    /** The part of the stack from m on, when an edge leads from its top back to m. */
    method Segment(m: string) returns (cyc: seq<string>)
      requires Valid() && m in stack && m in Succ(g, stack[|stack| - 1])
      ensures IsCycle(g, cyc)
    {
      var i := 0;
      while stack[i] != m
        invariant 0 <= i < |stack| && m in stack[i..]
        decreases |stack| - i
      {
        i := i + 1;
      }
      cyc := stack[i..];
      forall k ensures Hop(g, cyc, k) { assert Hop(g, stack, i + k); }
    }

    /** Visits n and all it leads to. Answers a cycle, or none with n finished. */
    method Visit(n: string) returns (cyc: Option<seq<string>>)
      requires Valid() && n !in state && n in g
      requires stack != [] ==> n in Succ(g, stack[|stack| - 1])
      modifies this
      ensures cyc.Some? ==> IsCycle(g, cyc.value)
      ensures cyc.None? ==> Valid() && stack == old(stack) && Kept(old(state), state) && n in DoneNodes(state)
      decreases g.Keys - state.Keys, 0
    {
      hide Marked, Walk, Finished, IsCycle;
      ghost var stack0, state0 := stack, state;
      PushMarked(g, state, stack, n);
      LongerWalk(g, stack, n);
      state := state[n := OnStack];
      stack := stack + [n];
      var es := Succ(g, n);
      assert n in g.Keys - state0.Keys;
      for k := 0 to |es|
        invariant Valid() && stack == stack0 + [n]
        invariant Kept(state0[n := OnStack], state) && n in state
        invariant g.Keys - state.Keys < g.Keys - state0.Keys
        invariant forall m :: m in es[..k] ==> m in DoneNodes(state)
      {
        var m := es[k];
        assert es[..k + 1] == es[..k] + [m];
        ghost var state1 := state;
        cyc := Follow(m);
        if cyc.Some? {
          return;
        }
        KeptTrans(state0[n := OnStack], state1, state);
      }
      assert es[..|es|] == es;
      Finish(g, state, n);
      PopMarked(state, stack0, n);
      ShorterWalk(g, stack0, n);
      stack := stack[..|stack| - 1];
      state := state[n := Done];
      assert stack == stack0;
      cyc := None;
    }

    /** One turn of the loop over the edges of the node on top of the stack. */
    method Follow(m: string) returns (cyc: Option<seq<string>>)
      requires Valid() && stack != [] && stack[|stack| - 1] in g && m in Succ(g, stack[|stack| - 1])
      modifies this
      ensures cyc.Some? ==> IsCycle(g, cyc.value)
      ensures cyc.None? ==> Valid() && stack == old(stack) && Kept(old(state), state) && m in DoneNodes(state)
      ensures cyc.None? ==> g.Keys - state.Keys <= g.Keys - old(state).Keys
      decreases g.Keys - state.Keys, 1
    {
      hide Marked, Walk, Finished, IsCycle;
      cyc := None;
      if m !in state {
        cyc := Visit(m);
      } else if state[m] == OnStack {
        OnStackIsStacked(state, stack, m);
        var found := Segment(m);
        cyc := Some(found);
      }
    }

    /** Visits every root not visited yet. */
    method Run(roots: seq<string>) returns (cyc: Option<seq<string>>)
      requires Valid() && state == map[] && stack == []
      requires forall n :: n in roots <==> n in g
      modifies this
      ensures cyc.Some? ==> IsCycle(g, cyc.value)
      ensures cyc.None? <==> Acyclic(g)
    {
      hide Marked, Walk, IsCycle, IsPath;
      for i := 0 to |roots|
        invariant Valid() && stack == []
        invariant forall n :: n in roots[..i] ==> n in DoneNodes(state)
      {
        assert roots[..i + 1] == roots[..i] + [roots[i]];
        RootDone(state, stack, roots[i]);
        if roots[i] !in state {
          cyc := Visit(roots[i]);
          if cyc.Some? {
            CycleNodesOnCycle(g, cyc.value);
            return;
          }
        }
      }
      assert roots[..|roots|] == roots;
      forall n ensures !OnCycle(g, n) {
        assert n !in g ==> Succ(g, n) == [];
      }
      cyc := None;
    }
  }

  lemma KeptTrans(a: map<string, Mark>, b: map<string, Mark>, c: map<string, Mark>)
    requires Kept(a, b) && Kept(b, c)
    ensures Kept(a, c)
  {
  }

  lemma PushMarked(g: Graph<string>, state: map<string, Mark>, stack: seq<string>, n: string)
    requires Marked(state, stack) && Finished(g, state) && n !in state
    ensures Marked(state[n := OnStack], stack + [n]) && Finished(g, state[n := OnStack])
  {
    assert DoneNodes(state[n := OnStack]) == DoneNodes(state);
  }

  lemma OnStackIsStacked(state: map<string, Mark>, stack: seq<string>, m: string)
    requires Marked(state, stack) && m in state && state[m] == OnStack
    ensures m in stack
  {
  }

  lemma RootDone(state: map<string, Mark>, stack: seq<string>, n: string)
    requires Marked(state, stack) && stack == []
    ensures n in state ==> n in DoneNodes(state)
  {
    assert n !in stack;
  }
}
