/** Optional values and lookups in lists. */
module Wrappers {

  datatype Option<+T> = None | Some(value: T)

  /** The first element of xs that satisfies p, as the linear lookups of the source return it. */
  function First<T(!new)>(xs: seq<T>, p: T -> bool): (r: Option<T>)
    ensures r.Some? ==> r.value in xs && p(r.value)
    ensures r.None? ==> forall x :: x in xs ==> !p(x)
  {
    if xs == [] then None
    else if p(xs[0]) then Some(xs[0])
    else First(xs[1..], p)
  }

  /** The elements of xs that satisfy p, in order. */
  function Filter<T(!new)>(xs: seq<T>, p: T -> bool): (r: seq<T>)
    ensures forall x :: x in r <==> x in xs && p(x)
    ensures |r| <= |xs|
  {
    if xs == [] then []
    else (if p(xs[0]) then [xs[0]] else []) + Filter(xs[1..], p)
  }

  /** An element that is the only one with its property is the one found. */
  lemma FirstUnique<T(!new)>(xs: seq<T>, p: T -> bool, x: T)
    requires x in xs && p(x)
    requires forall y :: y in xs && p(y) ==> y == x
    ensures First(xs, p) == Some(x)
  {
  }

  /** xs[i] is the first element with p. */
  ghost predicate FirstAt<T(!new)>(xs: seq<T>, p: T -> bool, i: int) {
    0 <= i < |xs| && p(xs[i]) && forall j :: 0 <= j < i ==> !p(xs[j])
  }

  lemma {:induction false} FirstMeaning<T(!new)>(xs: seq<T>, p: T -> bool, x: T)
    ensures First(xs, p) == Some(x) <==> exists i :: FirstAt(xs, p, i) && xs[i] == x
  {
    if xs != [] {
      FirstMeaning(xs[1..], p, x);
      if p(xs[0]) {
        assert FirstAt(xs, p, 0);
      } else {
        forall i | 0 < i < |xs| ensures FirstAt(xs, p, i) <==> FirstAt(xs[1..], p, i - 1) {
          assert forall j :: 0 < j < i ==> xs[j] == xs[1..][j - 1];
          assert forall j :: 0 <= j < i - 1 ==> xs[1..][j] == xs[j + 1];
        }
        if i :| FirstAt(xs[1..], p, i) && xs[1..][i] == x {
          assert FirstAt(xs, p, i + 1);
        }
      }
    }
  }

  /** xs[i] is the only element with p, counting repetitions. */
  ghost predicate OnlyAt<T(!new)>(xs: seq<T>, p: T -> bool, i: int) {
    0 <= i < |xs| && p(xs[i]) && forall j :: 0 <= j < |xs| && j != i ==> !p(xs[j])
  }

  lemma {:induction false} FilterNone<T(!new)>(xs: seq<T>, p: T -> bool)
    ensures Filter(xs, p) == [] <==> forall x :: x in xs ==> !p(x)
  {
    if xs != [] {
      FilterNone(xs[1..], p);
      assert xs == [xs[0]] + xs[1..];
    }
  }

  lemma {:induction false} FilterOne<T(!new)>(xs: seq<T>, p: T -> bool, x: T)
    ensures Filter(xs, p) == [x] <==> exists i :: OnlyAt(xs, p, i) && xs[i] == x
  {
    if xs != [] {
      var rest := xs[1..];
      if p(xs[0]) {
        FilterNone(rest, p);
        if Filter(rest, p) == [] {
          assert forall j :: 0 < j < |xs| ==> xs[j] == rest[j - 1] && rest[j - 1] in rest;
          assert OnlyAt(xs, p, 0);
        } else {
          var y :| y in rest && p(y);
          var j :| 0 <= j < |rest| && rest[j] == y;
          assert xs[j + 1] == y;
        }
      } else {
        FilterOne(rest, p, x);
        assert forall j :: 0 < j < |xs| ==> xs[j] == rest[j - 1];
        if i :| OnlyAt(rest, p, i) && rest[i] == x {
          assert OnlyAt(xs, p, i + 1);
        }
        if i :| OnlyAt(xs, p, i) && xs[i] == x {
          assert forall j :: 0 <= j < |rest| ==> rest[j] == xs[j + 1];
          assert OnlyAt(rest, p, i - 1);
        }
      }
    }
  }

  ghost predicate Distinct<T>(xs: seq<T>) {
    forall i, j :: 0 <= i < j < |xs| ==> xs[i] != xs[j]
  }

  lemma OnceInDistinct<T>(xs: seq<T>, x: T)
    requires Distinct(xs)
    ensures multiset(xs)[x] == if x in xs then 1 else 0
  {
    if x in xs {
      var i :| 0 <= i < |xs| && xs[i] == x;
      assert xs == xs[..i] + [x] + xs[i + 1..];
      assert x !in xs[..i] && x !in xs[i + 1..];
    }
  }
}
