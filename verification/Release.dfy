/** Deploy order of a release and the components a change affects
    (pkg/release/order.go, diff.go). */
module Release {
  import opened Wrappers
  import opened Graphs

  datatype Name = Name(text: string)

  datatype ComponentRef = ComponentRef(name: Name, version: string, imageDigest: string, gitSha: string)

  /** Declared dependencies by component; a component without a declaration has no entry. */
  type Components = map<Name, seq<Name>>

  function DepsOf(comps: Components, n: Name): seq<Name> {
    if n in comps then comps[n] else []
  }

  function NamesOf(refs: seq<ComponentRef>): (ns: seq<Name>)
    ensures |ns| == |refs| && forall i :: 0 <= i < |refs| ==> ns[i] == refs[i].name
  {
    seq(|refs|, i requires 0 <= i < |refs| => refs[i].name)
  }

  /** The dependencies among ds that are in the release, repetitions kept. */
  function Inside(names: seq<Name>, ds: seq<Name>): (r: seq<Name>)
    ensures forall d :: d in r <==> d in ds && d in names
  {
    if ds == [] then []
    else Inside(names, ds[..|ds| - 1]) + if ds[|ds| - 1] in names then [ds[|ds| - 1]] else []
  }

  function Needs(names: seq<Name>, comps: Components, n: Name): seq<Name> {
    Inside(names, DepsOf(comps, n))
  }

  /** Who needs whom within the release. */
  function ReleaseGraph(names: seq<Name>, comps: Components): Graph<Name> {
    map n | n in names :: Needs(names, comps, n)
  }

  function At(m: map<Name, seq<Name>>, n: Name): seq<Name> {
    if n in m then m[n] else []
  }

  // ── Kahn's algorithm as a function ────────────────────────────────────────

  datatype Edges = Edges(inDegree: map<Name, int>, dependents: map<Name, seq<Name>>)

  function AddEdge(e: Edges, n: Name, d: Name): Edges
    requires n in e.inDegree
  {
    Edges(e.inDegree[n := e.inDegree[n] + 1], e.dependents[d := At(e.dependents, d) + [n]])
  }

  function AddEdges(names: seq<Name>, e: Edges, n: Name, ds: seq<Name>): (r: Edges)
    requires n in e.inDegree
    ensures r.inDegree.Keys == e.inDegree.Keys
  {
    if ds == [] then e
    else
      var before := AddEdges(names, e, n, ds[..|ds| - 1]);
      if ds[|ds| - 1] in names then AddEdge(before, n, ds[|ds| - 1]) else before
  }

  /** In-degrees and dependents counted over the first k names. */
  function Build(names: seq<Name>, comps: Components, k: nat): (e: Edges)
    requires k <= |names|
    ensures forall n :: n in e.inDegree <==> n in names
  {
    if k == 0 then Edges(map n | n in names :: 0, map[])
    else AddEdges(names, Build(names, comps, k - 1), names[k - 1], DepsOf(comps, names[k - 1]))
  }

  ghost predicate DependentsKnown(degree: map<Name, int>, dependents: map<Name, seq<Name>>) {
    forall d, n :: n in At(dependents, d) ==> n in degree
  }

  function Positive(degree: map<Name, int>): set<Name> {
    set n | n in degree && degree[n] > 0
  }

  /** The dependents of a finished component lose one open dependency each. */
  function Relax(degree: map<Name, int>, queue: seq<Name>, ds: seq<Name>): (r: (map<Name, int>, seq<Name>))
    requires forall n :: n in ds ==> n in degree
    ensures r.0.Keys == degree.Keys
    ensures Positive(r.0) <= Positive(degree)
    ensures r.1 == queue || Positive(r.0) < Positive(degree)
  {
    if ds == [] then (degree, queue)
    else
      var n := ds[|ds| - 1];
      var (g, q) := Relax(degree, queue, ds[..|ds| - 1]);
      var g' := g[n := g[n] - 1];
      assert Positive(g') <= Positive(g);
      assert g[n] == 1 ==> n in Positive(g) && n !in Positive(g');
      (g', if g'[n] == 0 then q + [n] else q)
  }

  function Kahn(degree: map<Name, int>, dependents: map<Name, seq<Name>>, queue: seq<Name>, ordered: seq<Name>): seq<Name>
    requires DependentsKnown(degree, dependents)
    decreases Positive(degree), |queue|
  {
    if queue == [] then ordered
    else
      var (degree', queue') := Relax(degree, queue[1..], At(dependents, queue[0]));
      Kahn(degree', dependents, queue', ordered + [queue[0]])
  }

  /** The names that start without an open dependency, in release order. */
  function Roots(names: seq<Name>, degree: map<Name, int>): (r: seq<Name>)
    requires forall n :: n in names ==> n in degree
    ensures forall n :: n in r <==> n in names && degree[n] == 0
  {
    if names == [] then []
    else Roots(names[..|names| - 1], degree) + if degree[names[|names| - 1]] == 0 then [names[|names| - 1]] else []
  }

  /** The reference a name stands for: the last one of that name. */
  function RefFor(refs: seq<ComponentRef>, n: Name): (r: ComponentRef)
    requires n in NamesOf(refs)
    ensures r in refs && r.name == n
  {
    if refs[|refs| - 1].name == n then refs[|refs| - 1]
    else
      assert NamesOf(refs)[..|refs| - 1] == NamesOf(refs[..|refs| - 1]);
      RefFor(refs[..|refs| - 1], n)
  }

  /** Of references that share a name the last one stands for it. */
  lemma {:induction false} RefForIsLast(refs: seq<ComponentRef>, n: Name)
    requires n in NamesOf(refs)
    ensures exists i :: 0 <= i < |refs| && refs[i] == RefFor(refs, n) && refs[i].name == n && forall j :: i < j < |refs| ==> refs[j].name != n
  {
    var last := |refs| - 1;
    if refs[last].name != n {
      assert NamesOf(refs)[..last] == NamesOf(refs[..last]);
      RefForIsLast(refs[..last], n);
      var i :| 0 <= i < last && refs[..last][i] == RefFor(refs[..last], n) && refs[..last][i].name == n && forall j :: i < j < last ==> refs[..last][j].name != n;
      assert refs[i] == refs[..last][i];
      forall j | i < j < |refs| ensures refs[j].name != n {
        if j < last {
          assert refs[j] == refs[..last][j];
        }
      }
    }
  }

  lemma {:induction false} BuildKnows(names: seq<Name>, comps: Components, k: nat)
    requires k <= |names|
    ensures DependentsKnown(Build(names, comps, k).inDegree, Build(names, comps, k).dependents)
  {
    if k > 0 {
      BuildKnows(names, comps, k - 1);
      AddKnows(names, Build(names, comps, k - 1), names[k - 1], DepsOf(comps, names[k - 1]));
    }
  }

  lemma {:induction false} AddKnows(names: seq<Name>, e: Edges, n: Name, ds: seq<Name>)
    requires n in e.inDegree && DependentsKnown(e.inDegree, e.dependents)
    ensures var r := AddEdges(names, e, n, ds); DependentsKnown(r.inDegree, r.dependents)
  {
    if ds != [] {
      AddKnows(names, e, n, ds[..|ds| - 1]);
      var before := AddEdges(names, e, n, ds[..|ds| - 1]);
      var after := AddEdge(before, n, ds[|ds| - 1]);
      forall d, m | m in At(after.dependents, d) ensures m in after.inDegree {
        assert m == n || m in At(before.dependents, d);
      }
    }
  }

  function KahnOrder(names: seq<Name>, comps: Components): seq<Name> {
    var e := Build(names, comps, |names|);
    BuildKnows(names, comps, |names|);
    Kahn(e.inDegree, e.dependents, Roots(names, e.inDegree), [])
  }

  lemma KahnStep(degree: map<Name, int>, dependents: map<Name, seq<Name>>, queue: seq<Name>, ordered: seq<Name>)
    requires DependentsKnown(degree, dependents) && queue != []
    requires forall n :: n in queue ==> n in degree
    ensures forall n :: n in At(dependents, queue[0]) ==> n in degree
    ensures var (degree', queue') := Relax(degree, queue[1..], At(dependents, queue[0]));
      && DependentsKnown(degree', dependents) && degree'.Keys == degree.Keys
      && Kahn(degree, dependents, queue, ordered) == Kahn(degree', dependents, queue', ordered + [queue[0]])
      && (Positive(degree') < Positive(degree) || (Positive(degree') == Positive(degree) && |queue'| < |queue|))
  {
    hide Positive;
  }

  lemma KahnEnd(degree: map<Name, int>, dependents: map<Name, seq<Name>>, ordered: seq<Name>)
    requires DependentsKnown(degree, dependents)
    ensures Kahn(degree, dependents, [], ordered) == ordered
  {
  }

  // ── the methods ───────────────────────────────────────────────────────────

  method Tally(names: seq<Name>, comps: Components) returns (inDegree: map<Name, int>, dependents: map<Name, seq<Name>>)
    ensures Edges(inDegree, dependents) == Build(names, comps, |names|)
  {
    inDegree := map n | n in names :: 0;
    dependents := map[];
    for i := 0 to |names|
      invariant Edges(inDegree, dependents) == Build(names, comps, i)
    {
      var n := names[i];
      var ds := DepsOf(comps, n);
      for j := 0 to |ds|
        invariant Edges(inDegree, dependents) == AddEdges(names, Build(names, comps, i), n, ds[..j])
      {
        assert ds[..j + 1][..j] == ds[..j];
        if ds[j] !in names {
          continue;
        }
        inDegree := inDegree[n := inDegree[n] + 1];
        dependents := dependents[ds[j] := At(dependents, ds[j]) + [n]];
      }
      assert ds[..|ds|] == ds;
    }
  }

  method FindRoots(names: seq<Name>, degree: map<Name, int>) returns (queue: seq<Name>)
    requires forall n :: n in names ==> n in degree
    ensures queue == Roots(names, degree)
  {
    queue := [];
    for i := 0 to |names|
      invariant queue == Roots(names[..i], degree)
    {
      assert names[..i + 1][..i] == names[..i];
      if degree[names[i]] == 0 {
        queue := queue + [names[i]];
      }
    }
    assert names[..|names|] == names;
  }

  /** The inner loop: every dependent loses one open dependency. */
  method Discharge(degree: map<Name, int>, tail: seq<Name>, ds: seq<Name>) returns (inDegree: map<Name, int>, queue: seq<Name>)
    requires forall n :: n in ds ==> n in degree
    ensures (inDegree, queue) == Relax(degree, tail, ds)
    ensures forall n :: n in queue ==> n in tail || n in ds
  {
    inDegree, queue := degree, tail;
    for j := 0 to |ds|
      invariant inDegree.Keys == degree.Keys
      invariant (inDegree, queue) == Relax(degree, tail, ds[..j])
      invariant forall n :: n in queue ==> n in tail || n in ds
    {
      assert ds[..j + 1][..j] == ds[..j];
      inDegree := inDegree[ds[j] := inDegree[ds[j]] - 1];
      if inDegree[ds[j]] == 0 {
        queue := queue + [ds[j]];
      }
    }
    assert ds[..|ds|] == ds;
  }

  /** `Order`: the references dependencies first, or none when some are left over. */
  method Order(refs: seq<ComponentRef>, comps: Components) returns (out: Option<seq<ComponentRef>>)
    ensures out.Some? <==> |KahnOrder(NamesOf(refs), comps)| == |refs|
    ensures out.Some? ==> NamesOf(out.value) == KahnOrder(NamesOf(refs), comps)
    ensures out.Some? ==> forall r :: r in out.value ==> r in refs && r == RefFor(refs, r.name)
  {
    hide Kahn, Build, DependentsKnown, Relax, Roots, Positive, RefFor;
    var names := NamesOf(refs);
    var inDegree, dependents := Tally(names, comps);
    BuildKnows(names, comps, |names|);
    var queue := FindRoots(names, inDegree);
    var ordered: seq<ComponentRef> := [];
    ghost var done: seq<Name> := [];
    hide KahnOrder, NamesOf;
    while queue != []
      invariant DependentsKnown(inDegree, dependents)
      invariant forall n :: n in inDegree <==> n in names
      invariant forall n :: n in queue ==> n in names
      invariant |done| == |ordered| && forall i :: 0 <= i < |done| ==> ordered[i].name == done[i]
      invariant forall r :: r in ordered ==> r in refs && r == RefFor(refs, r.name)
      invariant Kahn(inDegree, dependents, queue, done) == KahnOrder(names, comps)
      decreases Positive(inDegree), |queue|
    {
      var name := queue[0];
      KahnStep(inDegree, dependents, queue, done);
      var ref := RefFor(refs, name);
      ordered := ordered + [ref];
      done := done + [name];
      inDegree, queue := Discharge(inDegree, queue[1..], At(dependents, name));
    }
    KahnEnd(inDegree, dependents, done);
    assert |NamesOf(ordered)| == |done| && NamesOf(ordered) == done;
    out := if |ordered| != |refs| then None else Some(ordered);
  }
}
