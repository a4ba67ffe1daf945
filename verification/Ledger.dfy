/** What the investigator has ever started and called, and what its episode
    records know of it: the budget, the cooldown and the rate they imply
    (pkg/investigate/investigator.go, limits.go). */
module Ledger {
  import opened Wrappers
  import opened OpsTypes

  datatype Limits = Limits(
    maxCalls: int, maxSteps: int, deadline: Duration, perCall: Duration, maxResident: int, cooldown: Duration)

  datatype EpisodeState =
    | Active | Resolved | Refreshed | NoAllowedQuery | ExhaustedCalls | ExhaustedSteps | DeadlineHit | Cancelled
    | Superseded | TargetInvalid | CapacityHit

  datatype EpisodeKind = KindInvestigate | KindRefresh

  datatype BoundSlot = BoundSlot(slot: string, provider: ProviderIdentity, resolvedUid: string)

  /** The identity an episode runs under. */
  datatype EpisodeKey = EpisodeKey(uid: string, contract: ContractIdentity, bindings: set<BoundSlot>)

  datatype Episode = Episode(
    key: EpisodeKey, kind: EpisodeKind, started: Time, calls: nat, steps: nat, state: EpisodeState, dispatched: set<string>)

  datatype Start = Start(uid: string, at: Time)

  /** One provider call, made within the start of that number. */
  datatype Call = Call(uid: string, slot: string, start: nat, at: Time)

  /** Everything that ever happened; last is the newest start of each target. */
  datatype History = History(starts: seq<Start>, calls: seq<Call>, last: map<string, nat>)

  function Budget(l: Limits): nat {
    if l.maxCalls < 0 then 0 else l.maxCalls
  }

  ghost function SlotsOf(g: History, e: nat): set<string> {
    set i | 0 <= i < |g.calls| && g.calls[i].start == e :: g.calls[i].slot
  }

  /** Starts of one target are at least a cooldown apart. */
  ghost predicate StartsOk(l: Limits, now: Time, g: History) {
    && (forall i :: 0 <= i < |g.starts| ==> g.starts[i].at <= now && g.starts[i].uid in g.last && i <= g.last[g.starts[i].uid])
    && (forall u :: u in g.last ==> g.last[u] < |g.starts| && g.starts[g.last[u]].uid == u)
    && (forall i, j :: 0 <= i < j < |g.starts| && g.starts[i].uid == g.starts[j].uid ==> g.starts[i].at + l.cooldown <= g.starts[j].at)
  }

  /** Each call lies within its episode's deadline; each slot is called once per episode; budgets hold. */
  ghost predicate CallsOk(l: Limits, g: History) {
    && (forall i :: 0 <= i < |g.calls| ==> CallOk(l, g, g.calls[i]))
    && (forall i, j :: 0 <= i < j < |g.calls| && g.calls[i].start == g.calls[j].start ==> g.calls[i].slot != g.calls[j].slot)
    && (forall e {:trigger SlotsOf(g, e)} :: 0 <= e < |g.starts| ==> |SlotsOf(g, e)| <= Budget(l))
  }

  ghost predicate CallOk(l: Limits, g: History, c: Call) {
    c.start < |g.starts| && g.starts[c.start].uid == c.uid && g.starts[c.start].at <= c.at < g.starts[c.start].at + l.deadline
  }

  /** A record knows its target's newest start and what it spent; a target
      without a record may start again. */
  ghost predicate RecordsOk(l: Limits, now: Time, g: History, es: map<string, Episode>) {
    && (forall u :: u in es ==> u in g.last && g.last[u] < |g.starts| && RecordOk(g, g.last[u], es[u]))
    && (forall u :: u in g.last && u !in es ==> g.last[u] < |g.starts| && g.starts[g.last[u]].at + l.cooldown <= now)
  }

  ghost predicate RecordOk(g: History, e: nat, ep: Episode)
    requires e < |g.starts|
  {
    ep.started == g.starts[e].at && ep.dispatched == SlotsOf(g, e) && ep.calls == |ep.dispatched|
  }

  ghost predicate HistoryOk(l: Limits, now: Time, g: History, es: map<string, Episode>) {
    StartsOk(l, now, g) && CallsOk(l, g) && RecordsOk(l, now, g, es)
  }

  // ── what the investigator does to it ──────────────────────────────────────

  lemma TimePasses(l: Limits, now: Time, later: Time, g: History, es: map<string, Episode>)
    requires HistoryOk(l, now, g, es) && now <= later
    ensures HistoryOk(l, later, g, es)
  {
    hide SlotsOf;
  }

  /** An episode's state or step count may change freely. */
  lemma RecordChanges(l: Limits, now: Time, g: History, es: map<string, Episode>, u: string, ep: Episode)
    requires HistoryOk(l, now, g, es) && u in es
    requires ep.started == es[u].started && ep.dispatched == es[u].dispatched && ep.calls == es[u].calls
    ensures HistoryOk(l, now, g, es[u := ep])
  {
    hide SlotsOf;
  }

  /** A record may be forgotten once its cooldown is over. */
  lemma RecordForgotten(l: Limits, now: Time, g: History, es: map<string, Episode>, u: string)
    requires HistoryOk(l, now, g, es) && u in es && es[u].started + l.cooldown <= now
    ensures HistoryOk(l, now, g, es - {u})
  {
    hide SlotsOf;
  }

  function Begun(g: History, u: string, now: Time): History {
    History(g.starts + [Start(u, now)], g.calls, g.last[u := |g.starts|])
  }

  /** A start is admitted when there is no record, or its cooldown is over. */
  lemma EpisodeBegins(l: Limits, now: Time, g: History, es: map<string, Episode>, u: string, ep: Episode)
    requires HistoryOk(l, now, g, es) && (u in es ==> es[u].started + l.cooldown <= now)
    requires ep.started == now && ep.calls == 0 && ep.dispatched == {}
    ensures HistoryOk(l, now, Begun(g, u, now), es[u := ep])
  {
    hide StartsOk, CallsOk, SlotsOf, RecordsOk;
    BeginStarts(l, now, g, es, u);
    BeginSlots(l, g, u, now);
    BeginCalls(l, g, Begun(g, u, now));
    BeginRecords(l, now, g, es, u, ep);
  }

  /** A new episode has called nothing yet. */
  lemma BeginSlots(l: Limits, g: History, u: string, now: Time)
    requires CallsOk(l, g)
    ensures forall e {:trigger SlotsOf(Begun(g, u, now), e)} ::
      0 <= e <= |g.starts| ==> SlotsOf(Begun(g, u, now), e) == if e < |g.starts| then SlotsOf(g, e) else {}
  {
    assert forall i :: 0 <= i < |g.calls| ==> CallOk(l, g, g.calls[i]);
  }

  lemma BeginRecords(l: Limits, now: Time, g: History, es: map<string, Episode>, u: string, ep: Episode)
    requires RecordsOk(l, now, g, es) && ep.started == now && ep.calls == 0 && ep.dispatched == {}
    requires forall e {:trigger SlotsOf(Begun(g, u, now), e)} ::
      0 <= e <= |g.starts| ==> SlotsOf(Begun(g, u, now), e) == if e < |g.starts| then SlotsOf(g, e) else {}
    ensures RecordsOk(l, now, Begun(g, u, now), es[u := ep])
  {
    hide SlotsOf;
    var g' := Begun(g, u, now);
    forall v | v in es && v != u ensures g'.last[v] < |g'.starts| && RecordOk(g', g'.last[v], es[v]) {
      assert RecordOk(g, g.last[v], es[v]);
      assert SlotsOf(g', g.last[v]) == SlotsOf(g, g.last[v]);
    }
    assert SlotsOf(g', |g.starts|) == {};
  }

  lemma BeginStarts(l: Limits, now: Time, g: History, es: map<string, Episode>, u: string)
    requires StartsOk(l, now, g) && RecordsOk(l, now, g, es) && (u in es ==> es[u].started + l.cooldown <= now)
    ensures StartsOk(l, now, Begun(g, u, now))
  {
    hide SlotsOf;
    var g' := Begun(g, u, now);
    forall i | 0 <= i < |g.starts| && g.starts[i].uid == u ensures g.starts[i].at + l.cooldown <= now {
      var m := g.last[u];
      assert g.starts[m].at + l.cooldown <= now;
      assert i < m ==> g.starts[i].at + l.cooldown <= g.starts[m].at;
    }
  }

  lemma BeginCalls(l: Limits, g: History, g': History)
    requires CallsOk(l, g) && g'.calls == g.calls && |g'.starts| == |g.starts| + 1 && g'.starts[..|g.starts|] == g.starts
    requires forall e {:trigger SlotsOf(g', e)} :: 0 <= e <= |g.starts| ==> SlotsOf(g', e) == if e < |g.starts| then SlotsOf(g, e) else {}
    ensures CallsOk(l, g')
  {
    hide SlotsOf;
    forall i | 0 <= i < |g'.calls| ensures CallOk(l, g', g'.calls[i]) {
      assert CallOk(l, g, g.calls[i]);
      assert g'.starts[..|g.starts|][g.calls[i].start] == g.starts[g.calls[i].start];
    }
  }

  function Called(g: History, u: string, slot: string, now: Time): History
    requires u in g.last
  {
    g.(calls := g.calls + [Call(u, slot, g.last[u], now)])
  }

  /** A call is spent on a slot that its episode has not called, before the deadline, within the budget. */
  lemma CallSpent(l: Limits, now: Time, g: History, es: map<string, Episode>, u: string, slot: string, ep: Episode)
    requires HistoryOk(l, now, g, es) && u in es && slot !in es[u].dispatched
    requires now < es[u].started + l.deadline && es[u].calls < l.maxCalls
    requires ep.started == es[u].started && ep.calls == es[u].calls + 1 && ep.dispatched == es[u].dispatched + {slot}
    ensures u in g.last && HistoryOk(l, now, Called(g, u, slot, now), es[u := ep])
  {
    hide StartsOk, CallsOk, SlotsOf;
    var e := g.last[u];
    NewestStart(l, now, g, u);
    assert RecordOk(g, e, es[u]);
    CallsGrow(l, now, g, u, slot);
    SameStarts(l, now, g, Called(g, u, slot, now));
    RecordsGrow(l, now, g, es, u, slot, ep);
  }

  lemma RecordsGrow(l: Limits, now: Time, g: History, es: map<string, Episode>, u: string, slot: string, ep: Episode)
    requires StartsOk(l, now, g) && RecordsOk(l, now, g, es) && u in es && slot !in es[u].dispatched
    requires ep.started == es[u].started && ep.calls == es[u].calls + 1 && ep.dispatched == es[u].dispatched + {slot}
    ensures RecordsOk(l, now, Called(g, u, slot, now), es[u := ep])
  {
    hide SlotsOf, StartsOk, RecordOk;
    OwnGrows(g, u, slot, now, es[u], ep);
    forall v | v in es && v != u ensures RecordOk(Called(g, u, slot, now), g.last[v], es[v]) {
      OtherNewest(l, now, g, u, v);
      OtherKept(g, u, slot, now, v, es[v]);
    }
  }

  lemma OwnGrows(g: History, u: string, slot: string, now: Time, was: Episode, ep: Episode)
    requires u in g.last && g.last[u] < |g.starts| && RecordOk(g, g.last[u], was) && slot !in was.dispatched
    requires ep.started == was.started && ep.calls == was.calls + 1 && ep.dispatched == was.dispatched + {slot}
    ensures RecordOk(Called(g, u, slot, now), g.last[u], ep)
  {
    SlotsGrow(g, u, slot, now);
    hide SlotsOf;
    assert SlotsOf(Called(g, u, slot, now), g.last[u]) == SlotsOf(g, g.last[u]) + {slot};
  }

  lemma OtherKept(g: History, u: string, slot: string, now: Time, v: string, ep: Episode)
    requires u in g.last && v in g.last && g.last[u] != g.last[v]
    requires g.last[v] < |g.starts| && RecordOk(g, g.last[v], ep)
    ensures RecordOk(Called(g, u, slot, now), g.last[v], ep)
  {
    SlotsGrow(g, u, slot, now);
    hide SlotsOf;
    assert SlotsOf(Called(g, u, slot, now), g.last[v]) == SlotsOf(g, g.last[v]);
  }

  lemma NewestStart(l: Limits, now: Time, g: History, u: string)
    requires StartsOk(l, now, g) && u in g.last
    ensures g.last[u] < |g.starts| && g.starts[g.last[u]].uid == u && g.starts[g.last[u]].at <= now
  {
  }

  lemma OtherNewest(l: Limits, now: Time, g: History, u: string, v: string)
    requires StartsOk(l, now, g) && u in g.last && v in g.last && u != v
    ensures g.last[u] != g.last[v]
  {
  }

  lemma SameStarts(l: Limits, now: Time, g: History, g': History)
    requires StartsOk(l, now, g) && g'.starts == g.starts && g'.last == g.last
    ensures StartsOk(l, now, g')
  {
  }

  lemma SlotsGrow(g: History, u: string, slot: string, now: Time)
    requires u in g.last
    ensures forall e {:trigger SlotsOf(Called(g, u, slot, now), e)} ::
      SlotsOf(Called(g, u, slot, now), e) == SlotsOf(g, e) + if e == g.last[u] then {slot} else {}
  {
    var g' := Called(g, u, slot, now);
    forall e: nat ensures SlotsOf(g', e) == SlotsOf(g, e) + if e == g.last[u] then {slot} else {} {
      forall s ensures s in SlotsOf(g', e) <==> s in SlotsOf(g, e) || (e == g.last[u] && s == slot) {
        if s in SlotsOf(g, e) {
          var i :| 0 <= i < |g.calls| && g.calls[i].start == e && g.calls[i].slot == s;
          assert g'.calls[i] == g.calls[i];
        }
        if e == g.last[u] && s == slot {
          assert g'.calls[|g.calls|].start == e && g'.calls[|g.calls|].slot == s;
        }
      }
    }
  }

  lemma CallsGrow(l: Limits, now: Time, g: History, u: string, slot: string)
    requires CallsOk(l, g) && u in g.last && g.last[u] < |g.starts| && g.starts[g.last[u]].uid == u
    requires g.starts[g.last[u]].at <= now < g.starts[g.last[u]].at + l.deadline
    requires slot !in SlotsOf(g, g.last[u]) && |SlotsOf(g, g.last[u])| < l.maxCalls
    ensures CallsOk(l, Called(g, u, slot, now))
  {
    var g' := Called(g, u, slot, now);
    SlotsGrow(g, u, slot, now);
    forall i, j | 0 <= i < j < |g'.calls| && g'.calls[i].start == g'.calls[j].start ensures g'.calls[i].slot != g'.calls[j].slot {
      if j == |g.calls| {
        assert g.calls[i].slot in SlotsOf(g, g.last[u]);
      }
    }
    hide SlotsOf;
    forall i | 0 <= i < |g'.calls| ensures CallOk(l, g', g'.calls[i]) {
      if i < |g.calls| {
        assert CallOk(l, g, g.calls[i]);
      }
    }
  }

  // ── the rate ──────────────────────────────────────────────────────────────

  /** The starts of u after lo and up to hi, among the first n. */
  ghost function StartsWithin(g: History, u: string, lo: Time, hi: Time, n: nat): set<nat> {
    set i: nat | i < n && i < |g.starts| && g.starts[i].uid == u && lo < g.starts[i].at <= hi
  }

  /** The calls for u from a up to b. */
  ghost function CallsWithin(g: History, u: string, a: Time, b: Time): set<nat> {
    set i: nat | i < |g.calls| && g.calls[i].uid == u && a <= g.calls[i].at <= b
  }

  /** k cooldowns after lo. */
  ghost function Along(lo: Time, k: nat, cooldown: Duration): Time {
    lo + k * cooldown
  }

  lemma AlongStep(lo: Time, k: nat, cooldown: Duration)
    ensures Along(lo, 0, cooldown) == lo && Along(lo, k + 1, cooldown) == Along(lo, k, cooldown) + cooldown
  {
  }

  ghost predicate Spread(l: Limits, g: History, lo: Time, s: set<nat>, m: nat) {
    m in s && m < |g.starts| && (forall i :: i in s ==> i <= m) && Along(lo, |s| - 1, l.cooldown) < g.starts[m].at
  }

  /** Spaced starts: each one after the first pushes the last a cooldown further. */
  lemma {:induction false} StartsSpread(l: Limits, now: Time, g: History, u: string, lo: Time, hi: Time, n: nat)
    requires StartsOk(l, now, g) && n <= |g.starts|
    ensures var s := StartsWithin(g, u, lo, hi, n);
      s == {} || exists m: nat :: Spread(l, g, lo, s, m)
  {
    hide StartsOk, Spread;
    if n > 0 {
      StartsSpread(l, now, g, u, lo, hi, n - 1);
      var before, s := StartsWithin(g, u, lo, hi, n - 1), StartsWithin(g, u, lo, hi, n);
      if g.starts[n - 1].uid == u && lo < g.starts[n - 1].at <= hi {
        assert s == before + {n - 1};
        OneFurther(l, now, g, u, lo, before, n - 1);
      } else {
        assert s == before;
      }
    }
  }

  lemma OneFurther(l: Limits, now: Time, g: History, u: string, lo: Time, before: set<nat>, n: nat)
    requires StartsOk(l, now, g) && n < |g.starts| && g.starts[n].uid == u && lo < g.starts[n].at
    requires forall i :: i in before ==> i < n && g.starts[i].uid == u
    requires before == {} || exists m: nat :: Spread(l, g, lo, before, m)
    ensures Spread(l, g, lo, before + {n}, n)
  {
    hide Along;
    assert |before + {n}| == |before| + 1;
    if before == {} {
      AlongStep(lo, 0, l.cooldown);
    } else {
      var m: nat :| Spread(l, g, lo, before, m);
      AlongStep(lo, |before| - 1, l.cooldown);
      assert g.starts[m].uid == g.starts[n].uid;
      assert g.starts[m].at + l.cooldown <= g.starts[n].at;
    }
  }

  lemma StartsFew(l: Limits, now: Time, g: History, u: string, lo: Time, hi: Time)
    requires StartsOk(l, now, g) && l.cooldown > 0 && lo <= hi
    ensures |StartsWithin(g, u, lo, hi, |g.starts|)| <= (hi - lo) / l.cooldown + 1
  {
    var s := StartsWithin(g, u, lo, hi, |g.starts|);
    StartsSpread(l, now, g, u, lo, hi, |g.starts|);
    if s == {} {
      Quotient(0, l.cooldown, hi - lo);
    } else {
      hide StartsOk;
      var m: nat :| Spread(l, g, lo, s, m);
      Quotient(|s| - 1, l.cooldown, hi - lo);
    }
  }

  lemma Quotient(k: nat, c: int, n: int)
    requires c > 0 && k * c <= n
    ensures k <= n / c
  {
    assert (n / c) * c + n % c == n;
    if k > n / c {
      Times(n / c + 1, k, c);
    }
  }

  lemma Times(a: int, b: int, c: int)
    requires a <= b && c > 0
    ensures a * c <= b * c
  {
  }

  lemma {:induction false} Injective<T, U>(s: set<T>, f: T -> U, image: set<U>)
    requires forall x, y :: x in s && y in s && f(x) == f(y) ==> x == y
    requires forall x :: x in s ==> f(x) in image
    ensures |s| <= |image|
  {
    if s != {} {
      var x :| x in s;
      Injective(s - {x}, f, image - {f(x)});
    }
  }

  /** One episode's calls are no more than its budget. */
  lemma EpisodeCalls(l: Limits, g: History, e: nat, is_: set<nat>)
    requires CallsOk(l, g) && e < |g.starts|
    requires forall i :: i in is_ ==> i < |g.calls| && g.calls[i].start == e
    ensures |is_| <= Budget(l)
  {
    var f := (i: nat) => if i < |g.calls| then g.calls[i].slot else "";
    forall i | i in is_ ensures f(i) in SlotsOf(g, e) { }
    Injective(is_, f, SlotsOf(g, e));
  }

  /** Calls of a set of episodes: the budget once for each. */
  lemma {:induction false} EpisodesCalls(l: Limits, g: History, es: set<nat>, is_: set<nat>)
    requires CallsOk(l, g) && forall e :: e in es ==> e < |g.starts|
    requires forall i :: i in is_ ==> i < |g.calls| && g.calls[i].start in es
    ensures |is_| <= Budget(l) * |es|
  {
    hide CallsOk;
    if es == {} {
      assert is_ == {};
    } else {
      var e :| e in es;
      var mine := set i | i in is_ && g.calls[i].start == e;
      EpisodeCalls(l, g, e, mine);
      EpisodesCalls(l, g, es - {e}, is_ - mine);
      assert |is_| == |mine| + |is_ - mine| by { assert is_ == mine + (is_ - mine); }
      assert Budget(l) * |es| == Budget(l) * (|es| - 1) + Budget(l);
    }
  }

  /** The call rate: in any window of length w a target gets no more calls than
      the budget once for each episode that can start in the window or reach
      into it, whatever became of its identity and its records meanwhile. */
  lemma CallRate(l: Limits, now: Time, g: History, es: map<string, Episode>, u: string, a: Time, w: Duration)
    requires HistoryOk(l, now, g, es) && l.cooldown > 0 && l.deadline >= 0 && w >= 0
    ensures |CallsWithin(g, u, a, a + w)| <= Budget(l) * ((w + l.deadline) / l.cooldown + 1)
  {
    var calls := CallsWithin(g, u, a, a + w);
    var starts := StartsWithin(g, u, a - l.deadline, a + w, |g.starts|);
    forall i | i in calls ensures g.calls[i].start in starts {
      assert CallOk(l, g, g.calls[i]);
    }
    EpisodesCalls(l, g, starts, calls);
    StartsFew(l, now, g, u, a - l.deadline, a + w);
    Product(Budget(l), |starts|, (w + l.deadline) / l.cooldown + 1);
  }

  lemma Product(b: nat, m: int, n: int)
    requires m <= n
    ensures b * m <= b * n
  {
  }
}
