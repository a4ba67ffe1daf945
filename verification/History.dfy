/** The bounded recurrence history of a summary (`finish` in
    pkg/interaction/project.go): the last four meanings of one identity, most
    recent first. */
module History {
  import opened Wrappers

  const MAX_HISTORY: nat := 4
  const MAX_RECURRENCES: nat := 0x4000_0000

  /** The digest of a summary's meaning. */
  datatype Fingerprint = Fingerprint(hex: string)

  /** The part of a summary that `finish` carries over. */
  datatype Summary = Summary(identity: string, fingerprint: Fingerprint, recent: seq<Fingerprint>, recurring: bool, recurrences: nat)

  function Without(xs: seq<Fingerprint>, x: Fingerprint): (r: seq<Fingerprint>)
    ensures forall y :: y in r <==> y in xs && y != x
    ensures |r| <= |xs|
  {
    if xs == [] then []
    else Without(xs[..|xs| - 1], x) + if xs[|xs| - 1] == x then [] else [xs[|xs| - 1]]
  }

  lemma WithoutNothing(x: Fingerprint)
    ensures forall n: nat :: Take(Without([], x), n) == []
  {
  }

  lemma WithoutStep(xs: seq<Fingerprint>, y: Fingerprint, x: Fingerprint)
    ensures Without(xs + [y], x) == Without(xs, x) + if y == x then [] else [y]
  {
    assert (xs + [y])[..|xs|] == xs;
  }

  function Take(xs: seq<Fingerprint>, n: nat): (r: seq<Fingerprint>) {
    if |xs| <= n then xs else xs[..n]
  }

  function Bump(n: nat, by_: nat): nat {
    if n >= MAX_RECURRENCES then n else if n + by_ <= MAX_RECURRENCES then n + by_ else MAX_RECURRENCES
  }

  /** What one projection with meaning fp makes of the previous summary. */
  function Next(identity: string, fp: Fingerprint, prev: Option<Summary>): Summary {
    if prev.None? || prev.value.identity != identity then Summary(identity, fp, [fp], false, 0)
    else
      var p := prev.value;
      if p.fingerprint == fp then Summary(identity, fp, p.recent, p.recurring, p.recurrences)
      else Summary(identity, fp, [fp] + Take(Without(p.recent, fp), MAX_HISTORY - 1), fp in p.recent,
                   Bump(p.recurrences, multiset(p.recent)[fp]))
  }

  /** One earlier meaning, taken into the new history. */
  lemma HistoryStep(xs: seq<Fingerprint>, f: Fingerprint, fp: Fingerprint, n: nat)
    ensures Take(Without(xs + [f], fp), n) ==
      if f == fp || |Take(Without(xs, fp), n)| == n then Take(Without(xs, fp), n) else Take(Without(xs, fp), n) + [f]
    ensures |Take(Without(xs, fp), n)| <= n
    ensures multiset(xs + [f])[fp] == multiset(xs)[fp] + if f == fp then 1 else 0
  {
    hide Without;
    WithoutStep(xs, f, fp);
  }

  /** `finish`, the history part. */
  method Finish(identity: string, fp: Fingerprint, prev: Option<Summary>) returns (out: Summary)
    ensures out == Next(identity, fp, prev)
  {
    if prev.None? || prev.value.identity != identity {
      return Summary(identity, fp, [fp], false, 0);
    }
    var p := prev.value;
    if p.fingerprint == fp {
      return Summary(identity, fp, p.recent, p.recurring, p.recurrences);
    }
    hide Without, Take;
    var kept, recurring, recurrences := Carry(fp, p);
    out := Summary(identity, fp, [fp] + kept, recurring, recurrences);
  }

  method Carry(fp: Fingerprint, p: Summary) returns (kept: seq<Fingerprint>, recurring: bool, recurrences: nat)
    ensures kept == Take(Without(p.recent, fp), MAX_HISTORY - 1)
    ensures recurring <==> fp in p.recent
    ensures recurrences == Bump(p.recurrences, multiset(p.recent)[fp])
  {
    kept, recurring, recurrences := [], false, p.recurrences;
    WithoutNothing(fp);
    hide Without, Take;
    assert p.recent[..0] == [];
    for i := 0 to |p.recent|
      invariant kept == Take(Without(p.recent[..i], fp), MAX_HISTORY - 1)
      invariant recurring <==> exists j :: 0 <= j < i && p.recent[j] == fp
      invariant recurrences == Bump(p.recurrences, multiset(p.recent[..i])[fp])
    {
      var f := p.recent[i];
      assert p.recent[..i + 1] == p.recent[..i] + [f];
      HistoryStep(p.recent[..i], f, fp, MAX_HISTORY - 1);
      if f == fp {
        recurring := true;
        if recurrences < MAX_RECURRENCES {
          recurrences := recurrences + 1;
        }
      } else if |kept| < MAX_HISTORY - 1 {
        kept := kept + [f];
      }
    }
    assert p.recent[..|p.recent|] == p.recent;
  }

  // ── runs ──────────────────────────────────────────────────────────────────

  /** The summary after projections with the meanings fs, in order, of one
      identity that starts without a history of its own. */
  function After(identity: string, start: Option<Summary>, fs: seq<Fingerprint>): Option<Summary> {
    if fs == [] then start
    else Some(Next(identity, fs[|fs| - 1], After(identity, start, fs[..|fs| - 1])))
  }

  /** The unbounded list of all meanings seen, most recently seen first. */
  function Seen(fs: seq<Fingerprint>): seq<Fingerprint> {
    if fs == [] then []
    else [fs[|fs| - 1]] + Without(Seen(fs[..|fs| - 1]), fs[|fs| - 1])
  }

  /** How often the meaning changed to one that was among the four latest. */
  function Returns(fs: seq<Fingerprint>): nat {
    if |fs| < 2 then 0
    else
      var before := fs[..|fs| - 1];
      var fp := fs[|fs| - 1];
      Returns(before) + if fp != before[|before| - 1] && fp in Take(Seen(before), MAX_HISTORY) then 1 else 0
  }

  lemma {:induction false} WithoutAbsent(xs: seq<Fingerprint>, x: Fingerprint)
    requires x !in xs
    ensures Without(xs, x) == xs
  {
    if xs != [] {
      var init := xs[..|xs| - 1];
      assert xs == init + [xs[|xs| - 1]];
      WithoutAbsent(init, x);
    }
  }

  lemma {:induction false} WithoutConcat(xs: seq<Fingerprint>, ys: seq<Fingerprint>, x: Fingerprint)
    ensures Without(xs + ys, x) == Without(xs, x) + Without(ys, x)
  {
    if ys == [] {
      assert xs + ys == xs;
    } else {
      var init := ys[..|ys| - 1];
      assert (xs + ys)[..|xs + ys| - 1] == xs + init;
      WithoutConcat(xs, init, x);
    }
  }

  lemma WithoutAt(xs: seq<Fingerprint>, x: Fingerprint, i: nat)
    requires Distinct(xs) && i < |xs| && xs[i] == x
    ensures Without(xs, x) == xs[..i] + xs[i + 1..]
  {
    hide Without;
    calc {
      Without(xs, x);
      { assert xs == xs[..i] + ([x] + xs[i + 1..]); WithoutConcat(xs[..i], [x] + xs[i + 1..], x); }
      Without(xs[..i], x) + Without([x] + xs[i + 1..], x);
      { WithoutConcat([x], xs[i + 1..], x); WithoutItself(x); }
      Without(xs[..i], x) + ([] + Without(xs[i + 1..], x));
      { WithoutAbsent(xs[..i], x); WithoutAbsent(xs[i + 1..], x); }
      xs[..i] + xs[i + 1..];
    }
  }

  lemma WithoutItself(x: Fingerprint)
    ensures Without([x], x) == []
  {
  }

  /** Where x stands in a list without repetition, if it does. */
  lemma WithoutDistinct(xs: seq<Fingerprint>, x: Fingerprint) returns (i: nat)
    requires Distinct(xs)
    ensures x in xs ==> i < |xs| && xs[i] == x && Without(xs, x) == xs[..i] + xs[i + 1..]
    ensures x !in xs ==> Without(xs, x) == xs
    ensures Distinct(Without(xs, x))
  {
    hide Without;
    if x in xs {
      i :| i < |xs| && xs[i] == x;
      WithoutAt(xs, x, i);
    } else {
      i := 0;
      WithoutAbsent(xs, x);
    }
  }

  /** Bounding first and removing then is the same as removing first. */
  lemma TakeWithout(xs: seq<Fingerprint>, x: Fingerprint, n: nat)
    requires Distinct(xs) && n > 0
    ensures Take(Without(Take(xs, n), x), n - 1) == Take(Without(xs, x), n - 1)
  {
    hide Without;
    var head := Take(xs, n);
    var i := WithoutDistinct(xs, x);
    if x in xs && i < n {
      assert head[i] == x;
      WithoutAt(head, x, i);
    } else {
      WithoutAbsent(head, x);
    }
  }

  lemma {:induction false} SeenDistinct(fs: seq<Fingerprint>)
    ensures Distinct(Seen(fs))
    ensures fs != [] ==> Seen(fs) != [] && Seen(fs)[0] == fs[|fs| - 1]
    ensures forall f :: f in Seen(fs) <==> f in fs
  {
    if fs != [] {
      var init := fs[..|fs| - 1];
      assert fs == init + [fs[|fs| - 1]];
      SeenDistinct(init);
      var _ := WithoutDistinct(Seen(init), fs[|fs| - 1]);
    }
  }

  /** Over any run of one identity the bounded history is the front of the
      unbounded one, and recurrences count the returns to it. */
  lemma {:induction false} HistoryRefines(identity: string, start: Option<Summary>, fs: seq<Fingerprint>)
    requires fs != [] && (start.None? || start.value.identity != identity)
    ensures var s := After(identity, start, fs);
      && s.Some? && s.value.identity == identity && s.value.fingerprint == fs[|fs| - 1]
      && s.value.recent == Take(Seen(fs), 4)
      && s.value.recurrences == if Returns(fs) <= 1_073_741_824 then Returns(fs) else 1_073_741_824
  {
    hide Without, Next;
    var init := fs[..|fs| - 1];
    var fp := fs[|fs| - 1];
    if init == [] {
      OneMeaning(identity, start, fp);
      assert fs == [fp];
    } else {
      HistoryRefines(identity, start, init);
      var p := After(identity, start, init).value;
      SeenDistinct(init);
      NextRefines(p, Seen(init), fp, Returns(init));
    }
  }

  lemma OneMeaning(identity: string, start: Option<Summary>, fp: Fingerprint)
    requires start.None? || start.value.identity != identity
    ensures After(identity, start, [fp]) == Some(Summary(identity, fp, [fp], false, 0))
    ensures Seen([fp]) == [fp] && Returns([fp]) == 0
  {
    assert [fp][..0] == [];
  }

  /** One more projection keeps the bounded history the front of the unbounded one. */
  lemma NextRefines(p: Summary, seen: seq<Fingerprint>, fp: Fingerprint, returns_: nat)
    requires Distinct(seen) && seen != [] && seen[0] == p.fingerprint && p.recent == Take(seen, MAX_HISTORY)
    requires p.recurrences == if returns_ <= MAX_RECURRENCES then returns_ else MAX_RECURRENCES
    ensures var n := Next(p.identity, fp, Some(p));
      var returns' := returns_ + if fp != p.fingerprint && fp in Take(seen, MAX_HISTORY) then 1 else 0;
      && n.identity == p.identity && n.fingerprint == fp
      && n.recent == Take([fp] + Without(seen, fp), MAX_HISTORY)
      && n.recurrences == if returns' <= MAX_RECURRENCES then returns' else MAX_RECURRENCES
  {
    hide Without;
    if fp == p.fingerprint {
      SameAgain(seen, fp);
    } else {
      TakeWithout(seen, fp, MAX_HISTORY);
      OnceInDistinct(p.recent, fp);
    }
  }

  lemma SameAgain(seen: seq<Fingerprint>, fp: Fingerprint)
    requires Distinct(seen) && seen != [] && seen[0] == fp
    ensures [fp] + Without(seen, fp) == seen
  {
    WithoutAt(seen, fp, 0);
  }

  /** Recurring says that the current meaning came back, at its last change,
      from among the four latest. */
  lemma RecurringMeaning(identity: string, start: Option<Summary>, fs: seq<Fingerprint>, fp: Fingerprint)
    requires fs != [] && (start.None? || start.value.identity != identity) && fp != fs[|fs| - 1]
    ensures After(identity, start, fs + [fp]).value.recurring <==> fp in Take(Seen(fs), 4)
  {
    HistoryRefines(identity, start, fs);
    assert (fs + [fp])[..|fs|] == fs;
  }

  /** Projecting again from one's own output changes nothing. */
  lemma ProjectionIsIdempotent(identity: string, fp: Fingerprint, prev: Option<Summary>)
    ensures var out := Next(identity, fp, prev); Next(identity, fp, Some(out)) == out
  {
  }
}
