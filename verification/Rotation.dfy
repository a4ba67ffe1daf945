/** The order of target UIDs and slots, and the turns targets get over runs:
    the sorting, searching and cursor of `Run` (pkg/investigate/investigator.go). */
module Rotation {
  import opened Wrappers

  // ── the order of strings ──────────────────────────────────────────────────

  /** a sorts before b. */
  predicate Below(a: string, b: string) {
    if b == "" then false
    else if a == "" then true
    else if a[0] != b[0] then a[0] < b[0]
    else Below(a[1..], b[1..])
  }

  /** The order is that of the first characters that differ, and a proper
      prefix comes before what it is a prefix of. */
  lemma {:induction false} BelowMeaning(a: string, b: string)
    ensures Below(a, b) <==>
      exists k: nat :: k <= |a| && k < |b| && a[..k] == b[..k] && (k == |a| || a[k] < b[k])
  {
    if a != "" && b != "" && a[0] == b[0] {
      BelowMeaning(a[1..], b[1..]);
      if k: nat :| k <= |a[1..]| && k < |b[1..]| && a[1..][..k] == b[1..][..k] && (k == |a[1..]| || a[1..][k] < b[1..][k]) {
        assert a[..k + 1] == [a[0]] + a[1..][..k] && b[..k + 1] == [b[0]] + b[1..][..k];
        assert k + 1 <= |a| && k + 1 < |b|;
      }
      if k: nat :| k <= |a| && k < |b| && a[..k] == b[..k] && (k == |a| || a[k] < b[k]) {
        assert k > 0;
        assert a[1..][..k - 1] == a[..k][1..] && b[1..][..k - 1] == b[..k][1..];
        assert k - 1 <= |a[1..]| && k - 1 < |b[1..]|;
      }
    } else if a != "" && b != "" {
      assert a[..0] == b[..0];
      if k: nat :| k <= |a| && k < |b| && a[..k] == b[..k] && (k == |a| || a[k] < b[k]) {
        if k > 0 {
          assert a[..k][0] == b[..k][0];
        }
      }
    } else if b != "" {
      assert a[..0] == b[..0];
    }
  }

  lemma {:induction false} BelowIrreflexive(a: string)
    ensures !Below(a, a)
  {
    if a != "" {
      BelowIrreflexive(a[1..]);
    }
  }

  lemma {:induction false} BelowTransitive(a: string, b: string, c: string)
    requires Below(a, b) && Below(b, c)
    ensures Below(a, c)
  {
    if a != "" && a[0] == b[0] == c[0] {
      BelowTransitive(a[1..], b[1..], c[1..]);
    }
  }

  lemma {:induction false} BelowTotal(a: string, b: string)
    ensures a == b || Below(a, b) || Below(b, a)
  {
    if a != "" && b != "" && a[0] == b[0] {
      BelowTotal(a[1..], b[1..]);
      if a[1..] == b[1..] {
        assert a == [a[0]] + a[1..] && b == [b[0]] + b[1..];
      }
    }
  }

  ghost predicate Sorted(xs: seq<string>) {
    forall i, j :: 0 <= i < j < |xs| ==> Below(xs[i], xs[j])
  }

  method Least(s: set<string>) returns (x: string)
    requires s != {}
    ensures x in s && forall y :: y in s && y != x ==> Below(x, y)
  {
    hide Below;
    x :| x in s;
    var left := s - {x};
    while left != {}
      invariant x in s && left <= s && forall y :: y in s - left && y != x ==> Below(x, y)
    {
      var y :| y in left;
      left := left - {y};
      BelowTotal(x, y);
      if Below(y, x) {
        forall z | z in s - left && z != y ensures Below(y, z) {
          if z != x {
            BelowTransitive(y, x, z);
          }
        }
        x := y;
      }
    }
  }

  /** `sort.Strings` on the keys of a map: each once, ascending. */
  method Sort(s: set<string>) returns (xs: seq<string>)
    ensures Sorted(xs) && forall x :: x in xs <==> x in s
  {
    hide Below;
    xs := [];
    var left := s;
    while left != {}
      invariant left <= s && Sorted(xs) && forall x :: x in xs <==> x in s - left
      invariant forall x, y :: x in xs && y in left ==> Below(x, y)
    {
      var x := Least(left);
      left := left - {x};
      xs := xs + [x];
    }
  }

  /** The least place in xs that is not below x. */
  function Position(xs: seq<string>, x: string): (i: nat)
    ensures i <= |xs| && (i < |xs| ==> !Below(xs[i], x)) && forall j :: 0 <= j < i ==> Below(xs[j], x)
  {
    if xs == [] || !Below(xs[0], x) then 0 else 1 + Position(xs[1..], x)
  }

  lemma PositionUnique(xs: seq<string>, x: string, i: nat)
    requires i <= |xs| && (i < |xs| ==> !Below(xs[i], x)) && forall j :: 0 <= j < i ==> Below(xs[j], x)
    ensures i == Position(xs, x)
  {
    hide Below;
    var k := Position(xs, x);
    assert k >= i;
    assert i >= k;
  }

  /** `sort.SearchStrings`. */
  method Search(xs: seq<string>, x: string) returns (i: nat)
    requires Sorted(xs)
    ensures i == Position(xs, x)
  {
    hide Below, Position;
    var lo, hi := 0, |xs|;
    while lo < hi
      invariant lo <= hi <= |xs|
      invariant forall j :: 0 <= j < lo ==> Below(xs[j], x)
      invariant forall j :: hi <= j < |xs| ==> !Below(xs[j], x)
    {
      var mid := lo + (hi - lo) / 2;
      if Below(xs[mid], x) {
        forall j | 0 <= j < mid ensures Below(xs[j], x) {
          BelowTransitive(xs[j], xs[mid], x);
        }
        lo := mid + 1;
      } else {
        forall j | mid <= j < |xs| ensures !Below(xs[j], x) {
          if Below(xs[j], x) && mid < j {
            BelowTransitive(xs[mid], xs[j], x);
          }
        }
        hi := mid;
      }
    }
    PositionUnique(xs, x, lo);
    i := lo;
  }

  // ── one run ───────────────────────────────────────────────────────────────

  /** i, wrapped around after n. */
  function Wrap(n: nat, i: nat): (r: nat)
    requires n > 0
    ensures r < n
  {
    if i < n then i else Wrap(n, i - n)
  }

  /** Below twice n one wrap is the remainder. */
  lemma WrapIsMod(n: nat, i: nat)
    requires n > 0 && i < 2 * n
    ensures Wrap(n, i) == i % n
  {
    var q, r := i / n, i % n;
    assert i == q * n + r;
    AtLeastTwice(q, n);
  }

  lemma AtLeastTwice(q: nat, n: nat)
    ensures q >= 2 ==> q * n >= 2 * n
  {
    if q >= 2 {
      assert (q - 2) * n >= 0;
    }
  }

  lemma {:induction false} WrapAdd(n: nat, a: nat, b: nat)
    requires n > 0
    ensures Wrap(n, Wrap(n, a) + b) == Wrap(n, a + b)
  {
    if a >= n {
      WrapAdd(n, a - n, b);
    }
  }

  /** Where a run starts: at the cursor, or the next greater one, wrapping. */
  function StartOf(uids: seq<string>, cursor: string): (i: nat)
    requires uids != []
    ensures i < |uids|
  {
    if cursor == "" then 0 else Wrap(|uids|, Position(uids, cursor))
  }

  /** The k-th target from there, round and round. */
  function Turn(uids: seq<string>, start: nat, k: nat): string
    requires uids != []
  {
    uids[Wrap(|uids|, start + k)]
  }

  /** The first n turns from there. */
  function Turns(uids: seq<string>, start: nat, n: nat): (r: seq<string>)
    requires uids != []
    ensures |r| == n && forall k :: 0 <= k < n ==> r[k] == Turn(uids, start, k)
  {
    if n == 0 then [] else Turns(uids, start, n - 1) + [Turn(uids, start, n - 1)]
  }

  /** In one round no target comes twice. */
  lemma TurnsApart(uids: seq<string>, start: nat, j: nat, k: nat)
    requires Sorted(uids) && j < k < |uids|
    ensures Turn(uids, start, j) != Turn(uids, start, k)
  {
    hide Below;
    var n := |uids|;
    WrapAdd(n, start + j, k - j);
    var a, b := Wrap(n, start + j), Wrap(n, start + k);
    assert a != b;
    BelowIrreflexive(uids[a]);
    assert a < b ==> Below(uids[a], uids[b]);
    assert b < a ==> Below(uids[b], uids[a]);
  }

  /** One run over uids completes the turns done, one after another from the
      cursor, at most once round, and leaves the cursor on the next. */
  ghost predicate Rotates(uids: seq<string>, cursor: string, done: seq<string>, next: string) {
    && uids != [] && |done| <= |uids|
    && (forall k :: 0 <= k < |done| ==> done[k] == Turn(uids, StartOf(uids, cursor), k))
    && next == Turn(uids, StartOf(uids, cursor), |done|)
  }

  // ── many runs ─────────────────────────────────────────────────────────────

  datatype RunResult = RunResult(done: seq<string>, cursor: string)

  /** Runs one after another over the same targets. */
  ghost predicate Chained(uids: seq<string>, cursor: string, runs: seq<RunResult>) {
    forall i {:trigger runs[i]} :: 0 <= i < |runs| ==> Rotates(uids, CursorBefore(cursor, runs, i), runs[i].done, runs[i].cursor)
  }

  function CursorBefore(cursor: string, runs: seq<RunResult>, i: nat): string
    requires i <= |runs|
  {
    if i == 0 then cursor else runs[i - 1].cursor
  }

  /** All turns completed, in order. */
  function AllDone(runs: seq<RunResult>): seq<string> {
    if runs == [] then [] else AllDone(runs[..|runs| - 1]) + runs[|runs| - 1].done
  }

  /** The cursor finds its target again as long as it is listed. */
  lemma StartAt(uids: seq<string>, k: nat)
    requires Sorted(uids) && k < |uids|
    ensures StartOf(uids, uids[k]) == k
  {
    hide Below, Position;
    BelowIrreflexive(uids[k]);
    PositionUnique(uids, uids[k], k);
    if uids[k] == "" {
      assert k > 0 ==> Below(uids[0], uids[k]);
      NothingBelow(uids[0]);
    }
  }

  lemma NothingBelow(a: string)
    ensures !Below(a, "")
  {
  }

  /** Over any number of runs the turns go round and round without a gap. */
  lemma {:induction false} TurnsRotate(uids: seq<string>, cursor: string, runs: seq<RunResult>)
    requires Sorted(uids) && uids != [] && Chained(uids, cursor, runs)
    ensures var all := AllDone(runs);
      && (forall k :: 0 <= k < |all| ==> all[k] == Turn(uids, StartOf(uids, cursor), k))
      && (runs != [] ==> runs[|runs| - 1].cursor == Turn(uids, StartOf(uids, cursor), |all|))
  {
    hide Sorted, Below, StartOf, Wrap, Turn;
    if runs != [] {
      var init, last := runs[..|runs| - 1], runs[|runs| - 1];
      ChainedInit(uids, cursor, runs);
      TurnsRotate(uids, cursor, init);
      if init != [] {
        var before, s := AllDone(init), StartOf(uids, cursor);
        GoesOn(uids, s, before, init[|init| - 1].cursor);
        TurnsAppend(uids, s, before, last.done);
      }
    }
  }

  lemma ChainedInit(uids: seq<string>, cursor: string, runs: seq<RunResult>)
    requires Chained(uids, cursor, runs) && runs != []
    ensures Chained(uids, cursor, runs[..|runs| - 1])
    ensures Rotates(uids, CursorBefore(cursor, runs, |runs| - 1), runs[|runs| - 1].done, runs[|runs| - 1].cursor)
  {
    hide Rotates;
    var init := runs[..|runs| - 1];
    forall i | 0 <= i < |init| ensures Rotates(uids, CursorBefore(cursor, init, i), init[i].done, init[i].cursor) {
      assert runs[i] == init[i];
    }
    assert runs[|init|] == runs[|runs| - 1];
  }

  /** From the cursor a run left, the next run goes on where it stopped. */
  lemma GoesOn(uids: seq<string>, s: nat, before: seq<string>, c: string)
    requires Sorted(uids) && uids != [] && c == Turn(uids, s, |before|)
    ensures forall j: nat :: Turn(uids, StartOf(uids, c), j) == Turn(uids, s, |before| + j)
  {
    hide Sorted, Below, StartOf;
    StartAt(uids, Wrap(|uids|, s + |before|));
    forall j: nat ensures Turn(uids, StartOf(uids, c), j) == Turn(uids, s, |before| + j) {
      WrapAdd(|uids|, s + |before|, j);
    }
  }

  lemma TurnsAppend(uids: seq<string>, s: nat, before: seq<string>, done: seq<string>)
    requires uids != [] && forall k :: 0 <= k < |before| ==> before[k] == Turn(uids, s, k)
    requires forall k :: 0 <= k < |done| ==> done[k] == Turn(uids, s, |before| + k)
    ensures forall k :: 0 <= k < |before + done| ==> (before + done)[k] == Turn(uids, s, k)
  {
    hide Turn;
    forall k | 0 <= k < |before + done| ensures (before + done)[k] == Turn(uids, s, k) {
      if k >= |before| {
        assert (before + done)[k] == done[k - |before|];
      }
    }
  }

  lemma NextAt(n: nat, a: nat, i: nat) returns (k: nat)
    requires i < n
    ensures k < n && Wrap(n, a + k) == i
  {
    var m := Wrap(n, a);
    k := if i >= m then i - m else i - m + n;
    WrapAdd(n, a, k);
  }

  /** Within any |uids| completed turns every target gets one, whatever runs they fall into. */
  lemma EveryTargetGetsATurn(uids: seq<string>, cursor: string, runs: seq<RunResult>, j: nat, u: string)
    requires Sorted(uids) && Chained(uids, cursor, runs) && u in uids
    requires j + |uids| <= |AllDone(runs)|
    ensures u in AllDone(runs)[j..j + |uids|]
  {
    hide Sorted, Below, StartOf, AllDone, Chained;
    TurnsRotate(uids, cursor, runs);
    var n, s := |uids|, StartOf(uids, cursor);
    var i :| 0 <= i < n && uids[i] == u;
    // The turn from j on that falls on place i.
    var k := NextAt(n, s + j, i);
    assert Turn(uids, s, j + k) == u;
    assert AllDone(runs)[j..j + n][k] == u;
  }

  /** Runs that each complete at least one turn complete as many turns as they are. */
  lemma {:induction false} TurnsAddUp(runs: seq<RunResult>)
    requires forall i :: 0 <= i < |runs| ==> runs[i].done != []
    ensures |AllDone(runs)| >= |runs|
  {
    if runs != [] {
      TurnsAddUp(runs[..|runs| - 1]);
    }
  }

  /** No target starves: over an unchanged set of targets every one of them gets
      a turn within as many runs as there are targets, provided each run
      completes at least one. */
  lemma NoTargetStarves(uids: seq<string>, cursor: string, runs: seq<RunResult>, u: string)
    requires Sorted(uids) && Chained(uids, cursor, runs) && u in uids && |runs| == |uids|
    requires forall i :: 0 <= i < |runs| ==> runs[i].done != []
    ensures u in AllDone(runs)
  {
    hide Sorted, Below, Chained, AllDone;
    TurnsAddUp(runs);
    EveryTargetGetsATurn(uids, cursor, runs, 0, u);
    assert AllDone(runs)[0..|uids|] <= AllDone(runs);
  }
}
