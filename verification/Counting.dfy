/** Counting elements of a list by distinct numbers attached to them. */
module Counting {

  function CountWhere<T>(xs: seq<T>, p: T -> bool): nat {
    if xs == [] then 0 else CountWhere(xs[..|xs| - 1], p) + if p(xs[|xs| - 1]) then 1 else 0
  }

  ghost function Codes<T>(xs: seq<T>, p: T -> bool, code: T -> int): set<int> {
    set i | 0 <= i < |xs| && p(xs[i]) :: code(xs[i])
  }

  ghost predicate Apart<T>(xs: seq<T>, p: T -> bool, code: T -> int) {
    forall i, j {:trigger code(xs[i]), code(xs[j])} :: 0 <= i < j < |xs| && p(xs[i]) && p(xs[j]) ==> code(xs[i]) != code(xs[j])
  }

  lemma {:induction false} CountIsCodes<T>(xs: seq<T>, p: T -> bool, code: T -> int)
    requires Apart(xs, p, code)
    ensures CountWhere(xs, p) == |Codes(xs, p, code)|
    decreases |xs|
  {
    if xs != [] {
      var head, x := xs[..|xs| - 1], xs[|xs| - 1];
      assert forall i :: 0 <= i < |head| ==> head[i] == xs[i];
      CountIsCodes(head, p, code);
      if p(x) {
        assert Codes(xs, p, code) == Codes(head, p, code) + {code(x)};
        assert code(x) !in Codes(head, p, code);
      } else {
        assert Codes(xs, p, code) == Codes(head, p, code);
      }
    }
  }

  ghost function Ints(n: nat): (s: set<int>)
    ensures forall x :: x in s <==> 1 <= x <= n
    ensures |s| == n
  {
    if n == 0 then {} else Ints(n - 1) + {n}
  }

  lemma Smaller<T>(a: set<T>, b: set<T>)
    requires a <= b
    ensures |a| <= |b|
  {
    assert b == a + (b - a);
  }

  /** Elements that carry distinct numbers of 1..n are at most n. */
  lemma CountAtMost<T>(xs: seq<T>, p: T -> bool, code: T -> int, n: nat)
    requires Apart(xs, p, code)
    requires forall i {:trigger code(xs[i])} :: 0 <= i < |xs| && p(xs[i]) ==> 1 <= code(xs[i]) <= n
    ensures CountWhere(xs, p) <= n
  {
    CountIsCodes(xs, p, code);
    Smaller(Codes(xs, p, code), Ints(n));
  }
}
