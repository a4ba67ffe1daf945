/** Which components a change affects (pkg/release/diff.go): a breadth-first
    search along reversed dependencies. */
module Affected {
  import opened Wrappers
  import opened Graphs
  import opened Release

  /** The dependencies of the listed components, whether listed themselves or not. */
  function DependencyGraph(names: seq<Name>, comps: Components): Graph<Name> {
    map n | n in names && n in comps :: comps[n]
  }

  /** n rests, directly or not, on something that changed. */
  ghost predicate RestsOn(names: seq<Name>, comps: Components, changed: seq<Name>, n: Name) {
    exists c :: c in changed && Reaches(DependencyGraph(names, comps), n, c)
  }

  /** The members of s, in the order of the list. */
  function Keep(names: seq<Name>, s: set<Name>): seq<Name> {
    if names == [] then []
    else Keep(names[..|names| - 1], s) + if names[|names| - 1] in s then [names[|names| - 1]] else []
  }

  /** What is kept: exactly the occurrences of members, in the order they have. */
  lemma {:induction false} KeepMeaning(names: seq<Name>, s: set<Name>)
    ensures forall n :: multiset(Keep(names, s))[n] == if n in s then multiset(names)[n] else 0
    ensures forall i: nat :: i <= |names| ==> Keep(names[..i], s) <= Keep(names, s)
  {
    if names != [] {
      var init := names[..|names| - 1];
      KeepMeaning(init, s);
      assert names == init + [names[|names| - 1]];
      forall i: nat | i <= |names| ensures Keep(names[..i], s) <= Keep(names, s) {
        if i < |names| {
          assert init[..i] == names[..i];
        } else {
          assert names[..i] == names;
        }
      }
    }
  }

  /** Who depends on d directly. */
  ghost predicate DependsOn(names: seq<Name>, comps: Components, n: Name, d: Name) {
    n in names && d in DepsOf(comps, n)
  }

  /** The reversed adjacency lists. */
  method Reverse(names: seq<Name>, comps: Components) returns (reverse: map<Name, seq<Name>>)
    ensures forall d, n :: n in At(reverse, d) <==> DependsOn(names, comps, n, d)
  {
    reverse := map[];
    for i := 0 to |names|
      invariant forall d, n :: n in At(reverse, d) <==> DependsOn(names[..i], comps, n, d)
    {
      assert names[..i + 1] == names[..i] + [names[i]];
      reverse := ReverseOne(names[i], DepsOf(comps, names[i]), reverse);
    }
    assert names[..|names|] == names;
  }

  method ReverseOne(n: Name, ds: seq<Name>, before: map<Name, seq<Name>>) returns (reverse: map<Name, seq<Name>>)
    ensures forall d, m :: m in At(reverse, d) <==> m in At(before, d) || (m == n && d in ds)
  {
    reverse := before;
    for j := 0 to |ds|
      invariant forall d, m :: m in At(reverse, d) <==> m in At(before, d) || (m == n && d in ds[..j])
    {
      assert ds[..j + 1] == ds[..j] + [ds[j]];
      reverse := reverse[ds[j] := At(reverse, ds[j]) + [n]];
    }
    assert ds[..|ds|] == ds;
  }

  /** Everything left to see is affected, and everything seen passes it on. */
  ghost predicate Searched(names: seq<Name>, comps: Components, changed: seq<Name>, affected: set<Name>, queue: seq<Name>) {
    && (forall c :: c in changed ==> c in affected || c in queue)
    && (forall n :: n in affected || n in queue ==> RestsOn(names, comps, changed, n))
    && (forall d, n :: d in affected && DependsOn(names, comps, n, d) ==> n in affected || n in queue)
  }

  lemma ChangedRest(names: seq<Name>, comps: Components, changed: seq<Name>)
    ensures Searched(names, comps, changed, {}, changed)
  {
    forall c | c in changed ensures RestsOn(names, comps, changed, c) {
      ReachesRefl(DependencyGraph(names, comps), c);
    }
  }

  lemma DependentRests(names: seq<Name>, comps: Components, changed: seq<Name>, d: Name, n: Name)
    requires RestsOn(names, comps, changed, d) && DependsOn(names, comps, n, d)
    ensures RestsOn(names, comps, changed, n)
  {
    hide Reaches, ReachesPlus;
    var c :| c in changed && Reaches(DependencyGraph(names, comps), d, c);
    ReachesStep(DependencyGraph(names, comps), n, d, c);
  }

  /** What passes on along every dependency passes on along a path. */
  lemma {:induction false} PassesOn(names: seq<Name>, comps: Components, affected: set<Name>, p: seq<Name>)
    requires forall d, n :: d in affected && DependsOn(names, comps, n, d) ==> n in affected
    requires IsPath(DependencyGraph(names, comps), p) && p[|p| - 1] in affected
    ensures p[0] in affected
  {
    var i := |p| - 1;
    while i > 0
      invariant 0 <= i < |p| && p[i] in affected
    {
      assert Hop(DependencyGraph(names, comps), p, i - 1);
      assert DependsOn(names, comps, p[i - 1], p[i]);
      i := i - 1;
    }
  }

  /** A set that contains the changes and every dependent of a member contains all that rest on a change. */
  lemma SearchedAll(names: seq<Name>, comps: Components, changed: seq<Name>, affected: set<Name>, n: Name)
    requires Searched(names, comps, changed, affected, [])
    ensures n in affected <==> RestsOn(names, comps, changed, n)
  {
    hide DependsOn, IsPath, DependencyGraph;
    if RestsOn(names, comps, changed, n) {
      var c :| c in changed && Reaches(DependencyGraph(names, comps), n, c);
      var p :| PathFromTo(DependencyGraph(names, comps), p, n, c);
      PassesOn(names, comps, affected, p);
    }
  }

  /** The first of the queue is seen: it is dropped if seen before, else its
      unseen dependents join the queue. */
  method Visit(name: Name, rest: seq<Name>, affected: set<Name>, dependents: seq<Name>) returns (queue: seq<Name>)
    ensures forall n :: n in rest ==> n in queue
    ensures forall n :: n in queue ==> n in rest || n in dependents
    ensures forall n :: n in dependents ==> n in affected || n in queue
  {
    queue := rest;
    for j := 0 to |dependents|
      invariant forall n :: n in rest ==> n in queue
      invariant forall n :: n in queue ==> n in rest || n in dependents
      invariant forall k :: 0 <= k < j ==> dependents[k] in affected || dependents[k] in queue
    {
      if dependents[j] !in affected {
        queue := queue + [dependents[j]];
      }
    }
  }

  lemma VisitSearched(names: seq<Name>, comps: Components, changed: seq<Name>, affected: set<Name>, queue: seq<Name>,
                      reverse: map<Name, seq<Name>>, next: seq<Name>)
    requires Searched(names, comps, changed, affected, queue) && queue != []
    requires forall d, n :: n in At(reverse, d) <==> DependsOn(names, comps, n, d)
    requires forall n :: n in queue[1..] ==> n in next
    requires forall n :: n in next ==> n in queue[1..] || n in At(reverse, queue[0])
    requires forall n :: n in At(reverse, queue[0]) ==> n in affected + {queue[0]} || n in next
    ensures Searched(names, comps, changed, affected + {queue[0]}, next)
  {
    hide RestsOn, DependsOn, At;
    assert queue == [queue[0]] + queue[1..];
    forall n | n in affected + {queue[0]} || n in next ensures RestsOn(names, comps, changed, n) {
      if n in next && n !in queue[1..] {
        DependentRests(names, comps, changed, queue[0], n);
      }
    }
  }

  lemma SkipSearched(names: seq<Name>, comps: Components, changed: seq<Name>, affected: set<Name>, queue: seq<Name>)
    requires Searched(names, comps, changed, affected, queue) && queue != [] && queue[0] in affected
    ensures Searched(names, comps, changed, affected, queue[1..])
  {
    hide RestsOn, DependsOn;
    assert queue == [queue[0]] + queue[1..];
  }

  /** `AffectedComponents`: of the ordered components exactly those that rest
      on a change, in that order. */
  method AffectedComponents(changed: seq<Name>, ordered: seq<ComponentRef>, comps: Components) returns (result: seq<Name>)
    ensures result == Keep(NamesOf(ordered), set n | n in NamesOf(ordered) && RestsOn(NamesOf(ordered), comps, changed, n))
  {
    hide Searched, RestsOn, DependsOn;
    var names := NamesOf(ordered);
    var reverse := Reverse(names, comps);
    var affected: set<Name> := {};
    var queue := changed;
    ghost var all := (set n | n in changed) + (set n | n in names);
    ChangedRest(names, comps, changed);
    while queue != []
      invariant Searched(names, comps, changed, affected, queue)
      invariant affected <= all && forall n :: n in queue ==> n in all
      decreases |all - affected|, |queue|
    {
      var name := queue[0];
      ghost var before := queue;
      queue := queue[1..];
      if name in affected {
        SkipSearched(names, comps, changed, affected, before);
        continue;
      }
      ghost var seen := affected;
      affected := affected + {name};
      queue := Visit(name, queue, affected, At(reverse, name));
      VisitSearched(names, comps, changed, seen, before, reverse, queue);
      DependentsListed(names, comps, reverse, name);
      assert name in all && all - affected < all - seen;
      SmallerSet(all - affected, all - seen);
    }
    forall n ensures n in affected <==> RestsOn(names, comps, changed, n) {
      SearchedAll(names, comps, changed, affected, n);
    }
    result := Select(names, affected);
    assert (set n | n in names && n in affected) == set n | n in names && RestsOn(names, comps, changed, n);
  }

  lemma SmallerSet<T>(a: set<T>, b: set<T>)
    requires a < b
    ensures |a| < |b|
  {
    var x :| x in b && x !in a;
    assert |b - a| == |b| - |b * a| && b * a == a;
    assert x in b - a;
  }

  lemma DependentsListed(names: seq<Name>, comps: Components, reverse: map<Name, seq<Name>>, d: Name)
    requires forall d, n :: n in At(reverse, d) <==> DependsOn(names, comps, n, d)
    ensures forall n :: n in At(reverse, d) ==> n in names
  {
  }

  /** The affected names in the order of the list. */
  method Select(names: seq<Name>, affected: set<Name>) returns (result: seq<Name>)
    ensures result == Keep(names, set n | n in names && n in affected)
  {
    result := [];
    for i := 0 to |names|
      invariant result == Keep(names[..i], set n | n in names && n in affected)
    {
      assert names[..i + 1][..i] == names[..i];
      if names[i] in affected {
        result := result + [names[i]];
      }
    }
    assert names[..|names|] == names;
  }
}
