/** The bounded investigator (pkg/investigate/investigator.go): one episode per
    target at a time, each call charged before it is made, each start after the
    cooldown of the one before, targets in turn from where the cursor points.
    The clock, cancellation, the run slice and what providers answer are arbitrary. */
module Investigator {
  import opened Wrappers
  import opened OpsTypes
  import opened Predicates
  import EvidenceRules
  import opened Cache
  import opened Ledger
  import opened Conclusions
  import opened Rotation
  import opened Scheduling
  import C = Candidates

  class Investigator {
    const limits: Limits
    const clock: nat -> Time
    const answers: nat -> Answer
    const margin: Duration -> Duration
    const cache: EvidenceCache
    var tick: nat
    var episodes: map<string, Episode>
    var progress: map<string, Progress>
    var cursor: string
    /** The clock reading from which on the run's context is done, and from
        which on its slice is; the slice derives from the context. A reading no
        run gets to stands for never. */
    var ctxEnd: nat
    var sliceEnd: nat
    /** The counters EpisodesStarted and Dispatched. */
    var started: nat
    var dispatched: nat
    ghost var g: History
    /** All turns completed so far, over all runs. */
    ghost var turns: seq<string>

    predicate Shutdown(reading: nat)
      reads this
    {
      ctxEnd <= reading
    }

    predicate SliceOver(reading: nat)
      reads this
    {
      sliceEnd <= reading
    }

    ghost predicate Valid()
      reads this, cache
    {
      && Monotone(clock) && cache.Valid()
      && HistoryOk(limits, clock(tick), g, episodes)
      && started == |g.starts| && dispatched == |g.calls|
      && sliceEnd <= ctxEnd
    }

    ghost function Now(): Glimpse
      reads this, cache
    {
      Glimpse(tick, cache.Contents(), episodes, progress, g)
    }

    /** Valid, and now is a reading already taken. */
    ghost predicate At(now: Time)
      reads this, cache
    {
      Valid() && now <= clock(tick) && HistoryOk(limits, now, g, episodes)
    }

    constructor (limits: Limits, capacity: int, clock: nat -> Time, answers: nat -> Answer, margin: Duration -> Duration)
      requires Monotone(clock)
      ensures Valid() && fresh(cache) && this.limits == limits && this.clock == clock
      ensures episodes == map[] && cache.Contents() == map[] && g == History([], [], map[]) && cursor == "" && turns == []
    {
      this.limits, this.clock, this.answers, this.margin := limits, clock, answers, margin;
      cache := new EvidenceCache(capacity);
      tick, episodes, progress, cursor, started, dispatched := 0, map[], map[], "", 0, 0;
      ctxEnd, sliceEnd := 0, 0;
      g, turns := History([], [], map[]), [];
    }

    /** One reading of the clock. */
    method Read() returns (now: Time)
      requires Valid()
      modifies this`tick
      ensures At(now) && now == clock(old(tick)) && tick == old(tick) + 1
    {
      hide HistoryOk;
      now := clock(tick);
      tick := tick + 1;
      TimePasses(limits, now, clock(tick), g, episodes);
    }

    /** `end`. */
    method End(uid: string, st: EpisodeState, now: Time)
      requires At(now) && uid in episodes
      modifies this`episodes
      ensures At(now) && episodes == old(episodes)[uid := old(episodes)[uid].(state := st)]
    {
      hide HistoryOk;
      var ep := episodes[uid].(state := st);
      RecordChanges(limits, now, g, episodes, uid, ep);
      RecordChanges(limits, clock(tick), g, episodes, uid, ep);
      episodes := episodes[uid := ep];
    }

    /** A record is dropped once its cooldown is over. */
    method Forget(uid: string, now: Time)
      requires At(now) && uid in episodes && episodes[uid].started + limits.cooldown <= now
      modifies this`episodes
      ensures At(now) && episodes == old(episodes) - {uid}
    {
      hide HistoryOk;
      RecordForgotten(limits, now, g, episodes, uid);
      RecordForgotten(limits, clock(tick), g, episodes, uid);
      episodes := episodes - {uid};
    }

    /** The selection history of a target is dropped. */
    method Unsteer(uid: string, now: Time)
      requires At(now)
      modifies this`progress
      ensures At(now) && progress == old(progress) - {uid}
    {
      hide HistoryOk, Monotone;
      progress := progress - {uid};
    }

    /** `purge`: unauthorized evidence goes, episodes of targets no longer
        queryable are superseded, and their records are forgotten after the cooldown. */
    method Purge(qs: Queries)
      requires Valid()
      modifies this`tick, this`episodes, this`progress, cache
      ensures Valid()
      ensures cache.Contents() == map k | k in old(cache.Contents()) && Authorized(qs, k) :: old(cache.Contents())[k]
      ensures Purged(old(episodes), episodes, qs.Keys, clock(old(tick)), limits.cooldown)
      ensures progress.Keys <= old(progress.Keys)
    {
      hide HistoryOk, Monotone, Cooled;
      var authorized := set u, s | u in qs && s in qs[u] :: qs[u][s].key;
      cache.Purge(authorized);
      assert cache.Contents() == map k | k in old(cache.Contents()) && Authorized(qs, k) :: old(cache.Contents())[k];
      var now := Read();
      DropRecords(qs.Keys, now);
    }

    method DropRecords(queryable: set<string>, now: Time)
      requires At(now)
      modifies this`episodes, this`progress
      ensures At(now) && Purged(old(episodes), episodes, queryable, now, limits.cooldown)
      ensures progress.Keys <= old(progress.Keys)
    {
      hide At, Cooled, Dropped;
      var left := episodes.Keys;
      while left != {}
        invariant At(now) && left <= episodes.Keys <= old(episodes.Keys) && progress.Keys <= old(progress.Keys)
        invariant forall u :: u in left ==> episodes[u] == old(episodes)[u]
        invariant forall u :: u in old(episodes) && u !in left ==> (u in episodes <==> u in queryable || !Cooled(old(episodes), u, now, limits.cooldown))
        invariant forall u :: u in episodes ==> episodes[u] == old(episodes)[u] || (u !in queryable && episodes[u] == old(episodes)[u].(state := Superseded))
        invariant forall u :: u in episodes && u !in queryable && u !in left ==> episodes[u].state != Active
      {
        var u :| u in left;
        left := left - {u};
        if u !in queryable {
          DroppedMeans(old(episodes), episodes, u, now, limits.cooldown);
          DropRecord(u, now);
        }
      }
    }

    method DropRecord(u: string, now: Time)
      requires At(now) && u in episodes
      modifies this`episodes, this`progress
      ensures At(now) && progress == old(progress) - {u} && episodes == Dropped(old(episodes), u, now, limits.cooldown)
    {
      hide HistoryOk, Monotone;
      if episodes[u].state == Active {
        End(u, Superseded, now);
      }
      progress := progress - {u};
      if now >= episodes[u].started + limits.cooldown {
        Forget(u, now);
      }
    }

    ghost predicate Authorized(qs: Queries, k: ApplicabilityKey) {
      exists u, s :: u in qs && s in qs[u] && qs[u][s].key == k
    }

    /** `pruneEpisodes`. */
    method Prune(now: Time)
      requires At(now)
      modifies this`episodes, this`progress
      ensures At(now) && Pruned(old(episodes), episodes, now, limits.cooldown)
    {
      hide At, Cooled;
      var left := episodes.Keys;
      while left != {}
        invariant At(now)
        invariant left <= episodes.Keys && episodes.Keys <= old(episodes).Keys
        invariant forall u :: u in episodes ==> episodes[u] == old(episodes)[u]
        invariant forall u :: u in old(episodes) && u !in left ==>
          (u in episodes <==> old(episodes)[u].state == Active || !Cooled(old(episodes), u, now, limits.cooldown))
      {
        var u :| u in left;
        left := left - {u};
        if episodes[u].state != Active && Cooled(episodes, u, now, limits.cooldown) {
          CooledSame(old(episodes), episodes, u, now, limits.cooldown);
          Forget(u, now);
          Unsteer(u, now);
        } else {
          CooledSame(old(episodes), episodes, u, now, limits.cooldown);
        }
      }
    }

    /** `refreshDue` for one query. */
    method Due(q: Query) returns (due: Option<Time>)
      requires cache.Valid()
      ensures due == RefreshDue(if q.key in cache.held then cache.held[q.key] else [], q.maxAge, margin(q.maxAge))
    {
      due := RefreshDue(if q.key in cache.held then cache.held[q.key] else [], q.maxAge, margin(q.maxAge));
    }

    /** `selectQuery`: whether some slot is worth a call, and which is asked first. */
    method SelectQuery(ta: TargetAssessment, c: Contract, cands: set<C.Candidate>, slots: map<string, Query>, spent: set<string>,
                       order: map<string, nat>, now: Time)
      returns (q: Option<Choice>)
      requires cache.Valid()
      ensures q.Some? <==> Askable(cache.Contents(), margin, ta, c, cands, slots, spent, now)
      ensures q.Some? ==> Preferred(cache.Contents(), margin, ta, c, cands, slots, spent, order, now, q.value.slot)
      ensures q.Some? ==> q.value.slot in slots && q.value.slot !in spent
      ensures q.Some? ==> (q.value.kind == KindInvestigate <==> exists s :: Useful(ta, cands, slots, spent, s))
    {
      hide HasCurrent, OpenOn, UsedSlot, RefreshDue, Sooner;
      q := MostUseful(ta, cands, slots, spent, order);
      if q.None? {
        q := OldestStale(ta, c, slots, spent, order, now);
      }
    }

    method MostUseful(ta: TargetAssessment, cands: set<C.Candidate>, slots: map<string, Query>, spent: set<string>, order: map<string, nat>)
      returns (q: Option<Choice>)
      ensures q.None? ==> forall s :: !Useful(ta, cands, slots, spent, s)
      ensures q.Some? ==> q.value.kind == KindInvestigate && Useful(ta, cands, slots, spent, q.value.slot)
      ensures q.Some? ==> forall s :: Useful(ta, cands, slots, spent, s) ==>
        || |OpenOn(cands, s)| < |OpenOn(cands, q.value.slot)|
        || (|OpenOn(cands, s)| == |OpenOn(cands, q.value.slot)| && Sooner(order, q.value.slot, s))
    {
      hide HasCurrent, OpenOn, Sooner;
      q := None;
      var left := slots.Keys;
      while left != {}
        invariant left <= slots.Keys
        invariant q.None? ==> forall s :: Useful(ta, cands, slots, spent, s) ==> s in left
        invariant q.Some? ==> q.value.kind == KindInvestigate && Useful(ta, cands, slots, spent, q.value.slot)
        invariant q.Some? ==> forall s :: Useful(ta, cands, slots, spent, s) && s !in left ==>
          || |OpenOn(cands, s)| < |OpenOn(cands, q.value.slot)|
          || (|OpenOn(cands, s)| == |OpenOn(cands, q.value.slot)| && Sooner(order, q.value.slot, s))
      {
        var s :| s in left;
        left := left - {s};
        if s in spent || HasCurrent(ta, s) || OpenOn(cands, s) == {} {
          continue;
        }
        var n := |OpenOn(cands, s)|;
        SoonerOrders(order, s, if q.Some? then q.value.slot else s);
        if q.None? || n > |OpenOn(cands, q.value.slot)| || (n == |OpenOn(cands, q.value.slot)| && Sooner(order, s, q.value.slot)) {
          q := Some(Choice(s, KindInvestigate));
        }
      }
    }

    method OldestStale(ta: TargetAssessment, c: Contract, slots: map<string, Query>, spent: set<string>, order: map<string, nat>, now: Time)
      returns (q: Option<Choice>)
      requires cache.Valid()
      ensures q.None? ==> forall s :: !Refreshable(cache.Contents(), margin, ta, c, slots, spent, now, s)
      ensures q.Some? ==> q.value.kind == KindRefresh && Refreshable(cache.Contents(), margin, ta, c, slots, spent, now, q.value.slot)
      ensures q.Some? ==> forall s :: Refreshable(cache.Contents(), margin, ta, c, slots, spent, now, s) ==> Sooner(order, q.value.slot, s)
    {
      hide HasCurrent, UsedSlot, RefreshDue, Sooner;
      q := None;
      var left := slots.Keys;
      while left != {}
        invariant left <= slots.Keys
        invariant q.None? ==> forall s :: Refreshable(cache.Contents(), margin, ta, c, slots, spent, now, s) ==> s in left
        invariant q.Some? ==> q.value.kind == KindRefresh && Refreshable(cache.Contents(), margin, ta, c, slots, spent, now, q.value.slot)
        invariant q.Some? ==> forall s :: Refreshable(cache.Contents(), margin, ta, c, slots, spent, now, s) && s !in left ==> Sooner(order, q.value.slot, s)
      {
        var s :| s in left;
        left := left - {s};
        if s in spent || !HasCurrent(ta, s) || !UsedSlot(c, ta.envelopeSelection, s) {
          continue;
        }
        var due := Due(slots[s]);
        SoonerOrders(order, s, if q.Some? then q.value.slot else s);
        if due.Some? && due.value <= now && (q.None? || Sooner(order, s, q.value.slot)) {
          q := Some(Choice(s, KindRefresh));
        }
      }
    }

    /** `evaluate`, for one target, on everything held. */
    method Look(base: Snapshot, uid: string, now: Time) returns (ta: Option<TargetAssessment>)
      requires cache.Valid()
      ensures ta.Some? ==> Assesses(base, AllHeld(cache.Contents()), now, uid, ta.value) && now != 0
      ensures now != 0 ==> (ta.Some? && ta.value.valid <==> ValidUid(base, uid))
    {
      hide Assesses, AllHeld;
      var os := cache.Observations();
      ta := Assess(base, os, uid, now);
      if ta.Some? {
        AssessedValid(base, EvidenceRules.Members(os), now, uid, ta.value);
      }
    }

    /** An admitted start: a fresh episode with its whole budget. */
    method Begin(uid: string, key: EpisodeKey, kind: EpisodeKind, prog: Progress, now: Time)
      requires At(now) && (uid in episodes ==> Cooled(episodes, uid, now, limits.cooldown))
      modifies this`episodes, this`progress, this`started, this`g
      ensures At(now) && g == Begun(old(g), uid, now) && progress == old(progress)[uid := prog]
      ensures episodes == old(episodes)[uid := Episode(key, kind, now, 0, 0, Active, {})]
    {
      hide HistoryOk, Monotone;
      var ep := Episode(key, kind, now, 0, 0, Active, {});
      EpisodeBegins(limits, now, g, episodes, uid, ep);
      g := Begun(g, uid, now);
      episodes := episodes[uid := ep];
      progress := progress[uid := prog];
      started := started + 1;
      TimePasses(limits, now, clock(tick), g, episodes);
    }

    /** The call is charged before it is made. */
    method Charge(uid: string, slot: string, prog: Progress, now: Time) returns (next: Progress)
      requires At(now) && uid in episodes && slot !in episodes[uid].dispatched
      requires now < episodes[uid].started + limits.deadline && episodes[uid].calls < limits.maxCalls
      modifies this`episodes, this`progress, this`dispatched, this`g
      ensures At(now) && uid in old(g).last && g == Called(old(g), uid, slot, now)
      ensures next == Progress(prog.key, prog.next + 1, prog.order[slot := prog.next + 1]) && progress == old(progress)[uid := next]
      ensures episodes == old(episodes)[uid := Charged(old(episodes)[uid], slot)]
    {
      hide HistoryOk, Monotone;
      var ep := episodes[uid];
      ep := Charged(ep, slot);
      CallSpent(limits, now, g, episodes, uid, slot, ep);
      g := Called(g, uid, slot, now);
      episodes := episodes[uid := ep];
      next := Progress(prog.key, prog.next + 1, prog.order[slot := prog.next + 1]);
      progress := progress[uid := next];
      dispatched := dispatched + 1;
      TimePasses(limits, now, clock(tick), g, episodes);
    }

    /** One turn of the episode loop up to the call: stop, pause, or pick the
        one query to make. The episode ends Resolved or Refreshed only when
        nothing can be asked and nothing is open. */
    method Decide(base: Snapshot, uid: string, slots: map<string, Query>, contract: Contract, prog: Progress, now: Time) returns (turn: Move)
      requires At(now) && Running(episodes, uid)
      requires IsContract(base, uid, contract)
      modifies this`episodes
      ensures At(now)
      ensures turn.Over? ==> EndedOnly(old(episodes), episodes, uid)
      ensures turn.Over? && Finished(episodes, uid) ==> Concluded(base, AllHeld(cache.Contents()), now, uid)
      ensures !turn.Over? ==> episodes == old(episodes)
      ensures turn.Paused? ==> SliceOver(tick)
      ensures MayAsk(turn, slots, limits, episodes, uid, now)
      ensures AsksRightly(limits, margin, base, cache.Contents(), uid, slots, old(episodes), prog.order, now, SliceOver(tick), turn)
      ensures EndsRightly(limits, margin, base, cache.Contents(), uid, slots, old(episodes), episodes, now, Shutdown(tick), SliceOver(tick), turn)
    {
      hide HistoryOk, Monotone, Assesses, Hypotheses, SomethingAskable, AskDue, AskFirst, Askable, Preferred, ContractWith, AllHeld, IsContract, ValidUid, Concluded, Seen, SomethingOpen;
      var ep := episodes[uid];
      var stop: Option<EpisodeState> :=
        if Shutdown(tick) then Some(Cancelled)
        else if SliceOver(tick) then None
        else if now >= ep.started + limits.deadline then Some(DeadlineHit)
        else if ep.steps >= limits.maxSteps then Some(ExhaustedSteps)
        else None;
      if stop.Some? {
        End(uid, stop.value, now);
        return Over;
      }
      if SliceOver(tick) {
        return Paused;
      }
      if AskDue(base, cache.Contents(), margin, uid, slots, ep.dispatched, now) {
        DueIsValid(base, cache.Contents(), margin, now, uid, slots, ep.dispatched);
      }
      if Seen(base, cache.Contents(), now, uid) {
        SeenIsValid(base, cache.Contents(), now, uid);
      }
      var ta := Look(base, uid, now);
      if ta.None? || !ta.value.valid {
        End(uid, TargetInvalid, now);
        return Over;
      }
      turn := Consider(base, uid, slots, contract, ta.value, prog, now);
    }

    /** The rest of a round, for a valid target: the slot to ask, or how the
        episode ends without one. */
    method Consider(base: Snapshot, uid: string, slots: map<string, Query>, contract: Contract, ta: TargetAssessment, prog: Progress, now: Time)
      returns (turn: Move)
      requires At(now) && Running(episodes, uid) && now < episodes[uid].started + limits.deadline && episodes[uid].steps < limits.maxSteps
      requires View(base, cache.Contents(), now, uid, ta, contract)
      modifies this`episodes
      ensures At(now) && !turn.Paused?
      ensures turn.Over? ==> EndedOnly(old(episodes), episodes, uid)
      ensures turn.Over? && Finished(episodes, uid) ==> Concluded(base, AllHeld(cache.Contents()), now, uid)
      ensures !turn.Over? ==> episodes == old(episodes)
      ensures MayAsk(turn, slots, limits, episodes, uid, now)
      ensures AsksRightly(limits, margin, base, cache.Contents(), uid, slots, old(episodes), prog.order, now, false, turn)
      ensures EndsRightly(limits, margin, base, cache.Contents(), uid, slots, old(episodes), episodes, now, false, false, turn)
    {
      hide HistoryOk, Monotone, Hypotheses, View, SomethingAskable, AskDue, AskFirst, Askable, Preferred, ContractWith, AllHeld, IsContract, Concluded, Seen, SomethingOpen;
      hide C.NothingOpen, C.HasOpen;
      SeenSo(base, cache.Contents(), now, uid, ta, contract);
      var ep := episodes[uid];
      var cands := C.DeriveCandidates(ta, contract);
      assert Hypotheses(ta, contract, cands) by { DerivedAll(ta, contract, cands); }
      OpenIsOpen(ta, contract, cands);
      TheseHypotheses(cache.Contents(), margin, ta, contract, cands, slots, ep.dispatched, now);
      ViewDecides(base, cache.Contents(), margin, now, uid, ta, contract, slots, ep.dispatched);
      var q := SelectQuery(ta, contract, cands, slots, ep.dispatched, prog.order, now);
      if q.None? {
        var open := C.HasOpen(cands);
        if !open {
          NothingOpenConcludes(base, cache.Contents(), now, uid, ta, contract, cands);
        }
        End(uid, if open then NoAllowedQuery else if ep.kind == KindRefresh then Refreshed else Resolved, now);
        return Over;
      }
      FirstToAsk(base, cache.Contents(), margin, uid, ta, contract, cands, slots, ep.dispatched, prog.order, now, q.value.slot);
      if ep.calls >= limits.maxCalls {
        End(uid, ExhaustedCalls, now);
        return Over;
      }
      turn := Move.Ask(q.value.slot);
    }

    /** What a call of query q, made at now and answered at that reading, says. */
    function Received(es: map<string, Episode>, uid: string, q: Query, now: Time, reading: nat): Observation {
      var deadline := if uid in es then es[uid].started + limits.deadline else now;
      var timeout := if deadline - now < limits.perCall then deadline - now else limits.perCall;
      Statement(q, answers(reading), clock(reading) - now, timeout, clock(reading), deadline)
    }

    /** The provider's value counts exactly when it is there, within the time of
        one call and before the episode's deadline, and not from the future;
        any other call leaves an outage as of its end. */
    lemma ReceivedMeaning(es: map<string, Episode>, uid: string, q: Query, now: Time, reading: nat)
      requires uid in es
      ensures var o, a, after := Received(es, uid, q, now, reading), answers(reading), clock(reading);
        var inTime := a.inTime && after - now <= limits.perCall && after < es[uid].started + limits.deadline;
        && o.key == q.key
        && (inTime && a.available && a.observedAt <= after ==> o == Observation(q.key, ValueOutcome, a.value, a.observedAt, a.validUntil))
        && (!inTime || !a.available || a.observedAt > after ==> o.outcome == ProviderUnavailableOutcome && o.observedAt == after && o.validUntil == 0)
    {
    }

    /** The call and what comes back: nothing is recorded on shutdown or when
        the run slice ended first. */
    method Ask(uid: string, q: Query, now: Time) returns (again: bool)
      requires At(now) && Running(episodes, uid)
      modifies this`tick, this`episodes, cache
      ensures Valid()
      ensures again ==> episodes == old(episodes)
      ensures !again ==> episodes == old(episodes) || (EndedOnly(old(episodes), episodes, uid) && !Finished(episodes, uid))
      ensures again ==> Admitted(old(cache.Contents()), cache.Contents(), Received(old(episodes), uid, q, now, old(tick)))
      ensures !again ==> cache.Contents() == old(cache.Contents())
      ensures !again && Running(episodes, uid) ==> SliceOver(tick)
      ensures tick > old(tick)
      ensures AskedTo(old(episodes), episodes, uid, ctxEnd <= old(tick), CutOff(answers(old(tick)), sliceEnd <= old(tick)), HasRoom(old(cache.held.Keys), cache.capacity, q.key), again)
    {
      hide HistoryOk, Monotone, AdmitTo;
      var deadline := episodes[uid].started + limits.deadline;
      var timeout := if deadline - now < limits.perCall then deadline - now else limits.perCall;
      var answer := answers(tick);
      var stopped, slice := Shutdown(tick), SliceOver(tick);
      var after := Read();
      if stopped {
        End(uid, Cancelled, after);
        return false;
      }
      if !answer.inTime && slice && answer.sliceFirst {
        return false;
      }
      var o := Statement(q, answer, after - now, timeout, after, deadline);
      assert o == Received(old(episodes), uid, q, now, old(tick));
      var ok := cache.Admit(o);
      if !ok {
        End(uid, CapacityHit, after);
        return false;
      }
      again := true;
    }

    /** The episode loop. It ends; if the episode ended Resolved or Refreshed,
        nothing about its target was left open on what is held. */
    method Work(base: Snapshot, uid: string, slots: map<string, Query>, contract: Contract, prog: Progress)
      requires Valid() && Running(episodes, uid) && QueriesOk(slots) && IsContract(base, uid, contract)
      modifies this`tick, this`episodes, this`progress, this`dispatched, this`g, cache
      ensures Valid() && Extends(old(g), g) && g.starts == old(g).starts
      ensures tick > old(tick) && (Finished(episodes, uid) ==> Concluded(base, AllHeld(cache.Contents()), clock(tick - 1), uid))
      ensures Running(episodes, uid) ==> SliceOver(tick)
      ensures Others(old(episodes), episodes, uid)
      ensures RoundCalls(limits, margin, base, old(cache.Contents()), uid, slots, old(episodes), prog.order, clock(old(tick)), SliceOver(old(tick) + 1), old(g), g)
    {
      hide Valid, At, IsContract, AllHeld, Concluded, RoundCalls;
      var again, p := Round(base, uid, slots, contract, prog);
      ghost var first := g;
      while again
        invariant Extends(first, g)
        invariant Valid() && Extends(old(g), g) && g.starts == old(g).starts
        invariant uid in episodes && (again ==> Running(episodes, uid)) && Others(old(episodes), episodes, uid)
        invariant tick > old(tick)
        invariant Finished(episodes, uid) ==> !again && Concluded(base, AllHeld(cache.Contents()), clock(tick - 1), uid)
        invariant !again && Running(episodes, uid) ==> SliceOver(tick)
        decreases again, if uid in episodes then limits.maxSteps - episodes[uid].steps else 0
      {
        again, p := Round(base, uid, slots, contract, p);
      }
      RoundCallsStay(limits, margin, base, old(cache.Contents()), uid, slots, old(episodes), prog.order, clock(old(tick)), SliceOver(old(tick) + 1), old(g), first, g);
    }

    /** One round: decide, charge, call. Each round that goes on has spent a step. */
    method Round(base: Snapshot, uid: string, slots: map<string, Query>, contract: Contract, prog: Progress) returns (again: bool, next: Progress)
      requires Valid() && Running(episodes, uid) && QueriesOk(slots) && IsContract(base, uid, contract)
      modifies this`tick, this`episodes, this`progress, this`dispatched, this`g, cache
      ensures Valid() && Extends(old(g), g) && g.starts == old(g).starts
      ensures Others(old(episodes), episodes, uid)
      ensures again ==> Stepped(old(episodes), episodes, uid, limits.maxSteps)
      ensures uid in episodes && tick > old(tick)
      ensures Finished(episodes, uid) ==> !again && Concluded(base, AllHeld(cache.Contents()), clock(tick - 1), uid)
      ensures !again && Running(episodes, uid) ==> SliceOver(tick)
      ensures RoundCalls(limits, margin, base, old(cache.Contents()), uid, slots, old(episodes), prog.order, clock(old(tick)), SliceOver(old(tick) + 1), old(g), g)
    {
      hide HistoryOk, Monotone, IsContract, AllHeld, Concluded, QueriesOk, AsksRightly, EndsRightly, RoundCalls, Received, Admitted, AskedTo;
      hide Others, Stepped, EndedOnly, Finished, Charged, Called;
      next := prog;
      var now := Read();
      var turn := Decide(base, uid, slots, contract, prog, now);
      AskedIsCalled(limits, margin, base, cache.Contents(), uid, slots, old(episodes), prog.order, now, SliceOver(tick), turn, g);
      if !turn.Ask? {
        RoundOver(old(episodes), episodes, uid);
        return false, prog;
      }
      next := Charge(uid, turn.slot, prog, now);
      ghost var mid := episodes;
      ChargedRuns(old(episodes), uid, turn.slot, old(g), now);
      again := Ask(uid, slots[turn.slot], now);
      RoundCharged(old(episodes), mid, episodes, uid, turn.slot, again, limits.maxSteps);
    }

    /** `investigate`: end what no longer fits, start what is admitted, then
        work. An episode left running has been cut off by the slice. One that
        ended Resolved or Refreshed concluded at its last reading, on what is
        held now. */
    method Investigate(base: Snapshot, uid: string, slots: map<string, Query>)
      requires Valid() && QueriesOk(slots)
      modifies this`tick, this`episodes, this`progress, this`started, this`dispatched, this`g, cache
      ensures Valid() && Extends(old(g), g) && |g.starts| <= |old(g).starts| + 1
      ensures tick > old(tick) && Quieter(old(episodes), episodes, uid)
      ensures Running(episodes, uid) ==> SliceOver(tick)
      ensures Finished(episodes, uid) && !SameRecord(old(episodes), episodes, uid) ==>
        Concluded(base, AllHeld(cache.Contents()), clock(tick - 1), uid)
      ensures TurnTaken(limits, margin, clock, sliceEnd, base, uid, slots, old(Now()), Now())
    {
      hide HistoryOk, Monotone, AllHeld, Concluded, QueriesOk, Assesses, Quieter, ValidUid, Finished, Running, TurnTaken;
      ghost var b := Now();
      var now := Read();
      var ta := Look(base, uid, now);
      if ta.Some? && ta.value.valid {
        Pursue(base, uid, slots, ta.value, now, b);
      } else {
        Dismiss(uid, now);
        InvalidTurn(limits, margin, clock, sliceEnd, base, uid, slots, b, Now());
      }
    }

    /** The target is not valid: its running episode ends. */
    method Dismiss(uid: string, now: Time)
      requires At(now)
      modifies this`episodes
      ensures At(now) && !Running(episodes, uid) && Quieter(old(episodes), episodes, uid)
      ensures episodes == if Running(old(episodes), uid) then old(episodes)[uid := old(episodes)[uid].(state := TargetInvalid)] else old(episodes)
      ensures Finished(episodes, uid) ==> SameRecord(old(episodes), episodes, uid)
    {
      hide HistoryOk, Monotone;
      if Running(episodes, uid) {
        End(uid, TargetInvalid, now);
      }
    }

    /** The rest of `investigate`, for a valid target. */
    method Pursue(base: Snapshot, uid: string, slots: map<string, Query>, ta: TargetAssessment, now: Time, ghost b: Glimpse)
      requires At(now) && QueriesOk(slots) && b == Now().(tick := b.tick) && tick == b.tick + 1 && now == clock(b.tick) != 0
      requires Assesses(base, AllHeld(cache.Contents()), now, uid, ta) && ta.valid
      modifies this`tick, this`episodes, this`progress, this`started, this`dispatched, this`g, cache
      ensures Valid() && Extends(old(g), g) && |g.starts| <= |old(g).starts| + 1
      ensures tick >= old(tick) && Quieter(old(episodes), episodes, uid)
      ensures Running(episodes, uid) ==> SliceOver(tick)
      ensures Finished(episodes, uid) && !SameRecord(old(episodes), episodes, uid) ==>
        Concluded(base, AllHeld(cache.Contents()), clock(tick - 1), uid)
      ensures TurnTaken(limits, margin, clock, sliceEnd, base, uid, slots, b, Now())
    {
      hide HistoryOk, Monotone, IsContract, AllHeld, Concluded, QueriesOk, Assesses, ContractWith, KeyOf, Quieter, MadeReady, RoundCalls, TurnTaken;
      ValidHasContract(base, AllHeld(cache.Contents()), now, uid, ta);
      SameContract(base, AllHeld(cache.Contents()), now, uid, ta);
      var contract := ContractWith(base.contracts, ta.contract).value;
      assert View(base, b.held, now, uid, ta, contract);
      hide View;
      var key := KeyOf(ta, slots);
      var prog := if uid in progress && progress[uid].key == key then progress[uid] else Progress(key, 0, map[]);
      var ok := Ready(uid, ta, contract, slots, key, prog, now);
      ghost var mid, h := episodes, g;
      if ok {
        Work(base, uid, slots, contract, prog);
        OthersQuieter(mid, episodes, uid);
        QuieterTrans(old(episodes), mid, episodes, uid);
      }
      ValidTurn(limits, margin, clock, sliceEnd, base, uid, slots, b, Now(), ta, contract, prog, mid, h, ok);
    }

    /** An episode of exactly this identity is running: the one there was, or a new one. */
    method Ready(uid: string, ta: TargetAssessment, contract: Contract, slots: map<string, Query>, key: EpisodeKey, prog: Progress, now: Time)
      returns (ok: bool)
      requires At(now)
      modifies this`episodes, this`progress, this`started, this`g
      ensures At(now) && Extends(old(g), g) && |g.starts| <= |old(g).starts| + 1
      ensures ok <==> Running(episodes, uid)
      ensures ok ==> StartedLast(g, uid)
      ensures !ok && Finished(episodes, uid) ==> SameRecord(old(episodes), episodes, uid)
      ensures Quieter(old(episodes), episodes, uid)
      ensures MadeReady(limits, margin, cache.Contents(), uid, ta, contract, slots, key, prog, now, old(episodes), episodes, old(g), g, ok)
    {
      hide HistoryOk, Monotone, SomethingAskable, KindFor, Resident;
      if Running(episodes, uid) && episodes[uid].key != key {
        End(uid, Superseded, now);
      }
      if Running(episodes, uid) {
        RecordHasStart(limits, now, g, episodes, uid);
        return true;
      }
      ok := Start(uid, ta, contract, slots, key, prog, now);
      if ok {
        RecordHasStart(limits, now, g, episodes, uid);
      }
    }

    /** Admission: exactly when there is something to ask, the cooldown is over
        whatever the identity or the outcome before, and there is room for
        another record; to investigate exactly when something is useful. */
    method Start(uid: string, ta: TargetAssessment, contract: Contract, slots: map<string, Query>, key: EpisodeKey, prog: Progress, now: Time)
      returns (ok: bool)
      requires At(now) && !Running(episodes, uid)
      modifies this`episodes, this`progress, this`started, this`g
      ensures At(now)
      ensures Quieter(old(episodes), episodes, uid)
      ensures ok <==> SomethingAskable(cache.Contents(), margin, ta, contract, slots, {}, now) && Admissible(limits, old(episodes), uid, now)
      ensures ok ==> g == Begun(old(g), uid, now) && Fresh(episodes, progress, uid, key, KindFor(ta, contract, slots), prog, now)
      ensures !ok ==> g == old(g) && Fewer(old(episodes), episodes) && (uid in old(episodes) ==> episodes == old(episodes))
    {
      hide HistoryOk, Monotone, Admissible, SomethingAskable, SomethingUseful, Askable, Preferred, Useful, Quieter, Fewer;
      var cands := C.DeriveCandidates(ta, contract);
      TheseHypotheses(cache.Contents(), margin, ta, contract, cands, slots, {}, now);
      var q := SelectQuery(ta, contract, cands, slots, {}, prog.order, now);
      if q.None? {
        Unchanged(episodes, uid);
        return false;
      }
      ok := MakeRoom(uid, now);
      if ok {
        ghost var mid := episodes;
        Begin(uid, key, q.value.kind, prog, now);
        BeginsQuiet(old(episodes), mid, episodes, uid);
      }
    }

    /** The cooldown, and the room for a record: records of ended episodes past
        their cooldown make way. */
    method MakeRoom(uid: string, now: Time) returns (ok: bool)
      requires At(now)
      modifies this`episodes, this`progress
      ensures At(now) && Fewer(old(episodes), episodes)
      ensures ok <==> Admissible(limits, old(episodes), uid, now)
      ensures ok && uid in episodes ==> Cooled(episodes, uid, now, limits.cooldown)
      ensures uid in old(episodes) ==> episodes == old(episodes)
      ensures Quieter(old(episodes), episodes, uid)
    {
      hide HistoryOk, Monotone, Resident;
      if uid in episodes {
        return Cooled(episodes, uid, now, limits.cooldown);
      }
      ResidentsFit(episodes, now, limits.cooldown);
      if |episodes| >= limits.maxResident {
        Prune(now);
        PrunedQuieter(old(episodes), episodes, now, limits.cooldown, uid);
        ResidentsAreKept(old(episodes), episodes, now, limits.cooldown);
        assert |episodes.Keys| == |episodes|;
        return |episodes| < limits.maxResident;
      }
      ok := true;
    }

    /** `validOnly`: queries of targets that are not valid are dropped, and
        their running episodes end. */
    method ValidOnly(base: Snapshot, qs: Queries) returns (out: Queries)
      requires Valid()
      modifies this`tick, this`episodes
      ensures Valid() && out.Keys <= qs.Keys && forall u :: u in out ==> out[u] == qs[u]
      ensures clock(old(tick)) != 0 ==> forall u :: u in qs ==> (u in out <==> ValidUid(base, u))
      ensures forall u :: u in episodes && u in qs && u !in out ==> !Running(episodes, u)
      ensures episodes.Keys == old(episodes).Keys
      ensures Invalidated(old(episodes), episodes, qs.Keys - out.Keys)
    {
      hide HistoryOk, Monotone, Assesses, AllHeld, ValidUid, Invalidated, Quieter;
      var now := Read();
      out := map[];
      var left := qs.Keys;
      ghost var invalid: set<string> := {};
      NoneInvalidated(episodes);
      while left != {}
        invariant At(now) && left <= qs.Keys && out.Keys <= qs.Keys - left && forall u :: u in out ==> out[u] == qs[u]
        invariant now != 0 ==> forall u :: u in qs && u !in left ==> (u in out <==> ValidUid(base, u))
        invariant invalid == qs.Keys - left - out.Keys && Invalidated(old(episodes), episodes, invalid)
      {
        var uid :| uid in left;
        left := left - {uid};
        var ta := Look(base, uid, now);
        if ta.Some? && ta.value.valid {
          out := out[uid := qs[uid]];
        } else {
          ghost var mid := episodes;
          Dismiss(uid, now);
          OneMoreInvalidated(old(episodes), mid, episodes, invalid, uid);
          invalid := invalid + {uid};
        }
      }
      assert invalid == qs.Keys - out.Keys;
      InvalidatedQuiet(old(episodes), episodes, invalid);
    }

    /** `Run`: investigate the valid targets in turn, from the cursor on, until
        all had theirs or the slice is over. A turn counts as completed when the
        slice outlived it; then the target has no running episode left. stop is
        the reading from which the caller's context is done, slice the one from
        which the run slice itself would be. */
    method Run(base: Snapshot, queries: Queries, stop: nat, slice: nat)
      returns (uids: seq<string>, ghost done: seq<string>, ghost seen: seq<Glimpse>)
      requires Valid() && forall u :: u in queries ==> QueriesOk(queries[u])
      modifies this, cache
      ensures Valid() && Extends(old(g), g) && ctxEnd == stop && sliceEnd == if slice < stop then slice else stop
      ensures Sorted(uids) && forall u :: u in uids ==> u in queries
      ensures clock(old(tick)) != 0 ==> forall u :: u in uids <==> u in queries && ValidUid(base, u)
      ensures uids == [] ==> cursor == ""
      ensures |done| <= |uids| && turns == old(turns) + done && AllQuiet(episodes, done)
      ensures uids != [] ==> Rotates(uids, old(cursor), done, cursor)
      ensures |done| < |uids| ==> SliceOver(tick)
      ensures AllTaken(limits, margin, clock, sliceEnd, base, queries, done, seen)
      ensures seen[0].g == old(g) && (|done| == |uids| ==> seen[|done|] == Now())
    {
      hide Valid, QueriesOk, Sorted, StartOf, ValidUid, TurnTaken;
      OpenSlice(stop, slice);
      var qs;
      qs, uids := Gather(base, queries);
      done, seen := [], [Now()];
      if uids == [] {
        PointTo("");
        return;
      }
      var start := FirstTurn(uids);
      var completed;
      completed, seen := TakeTurns(base, qs, uids, start);
      WrapIsMod(|uids|, start + completed);
      PointTo(uids[(start + completed) % |uids|]);
      done := Turns(uids, start, completed);
      TakenByAll(limits, margin, clock, sliceEnd, base, qs, queries, done, seen);
    }

    method OpenSlice(stop: nat, slice: nat)
      requires Valid()
      modifies this`ctxEnd, this`sliceEnd
      ensures Valid() && ctxEnd == stop && sliceEnd == if slice < stop then slice else stop
    {
      hide HistoryOk, Monotone;
      ctxEnd, sliceEnd := stop, if slice < stop then slice else stop;
    }

    method PointTo(uid: string)
      requires Valid()
      modifies this`cursor
      ensures Valid() && cursor == uid
    {
      hide HistoryOk, Monotone;
      cursor := uid;
    }

    /** What this run is about: the valid queryable targets, ascending. */
    method Gather(base: Snapshot, queries: Queries) returns (qs: Queries, uids: seq<string>)
      requires Valid()
      modifies this`tick, this`episodes, this`progress, cache
      ensures Valid() && Sorted(uids) && (forall u :: u in uids <==> u in qs)
      ensures forall u :: u in qs ==> u in queries && qs[u] == queries[u]
      ensures clock(old(tick)) != 0 ==> forall u :: u in qs <==> u in queries && ValidUid(base, u)
    {
      hide Valid, Sorted, ValidUid, Purged;
      qs := ValidOnly(base, queries);
      Purge(qs);
      uids := Sort(qs.Keys);
    }

    /** Where the rotation starts. */
    method FirstTurn(uids: seq<string>) returns (start: nat)
      requires Sorted(uids) && uids != []
      ensures start == StartOf(uids, cursor)
    {
      start := 0;
      if cursor != "" {
        var i := Search(uids, cursor);
        WrapIsMod(|uids|, i);
        start := i % |uids|;
      }
    }

    /** The loop over the targets; seen is the state before and after each completed turn. */
    method TakeTurns(base: Snapshot, qs: Queries, uids: seq<string>, start: nat) returns (completed: nat, ghost seen: seq<Glimpse>)
      requires Valid() && uids != [] && start == StartOf(uids, cursor) && Sorted(uids)
      requires forall u :: u in uids ==> u in qs && QueriesOk(qs[u])
      modifies this`tick, this`episodes, this`progress, this`started, this`dispatched, this`g, this`turns, cache
      ensures Valid() && Extends(old(g), g) && completed <= |uids|
      ensures turns == old(turns) + Turns(uids, start, completed)
      ensures completed < |uids| ==> SliceOver(tick)
      ensures AllQuiet(episodes, Turns(uids, start, completed))
      ensures AllTaken(limits, margin, clock, sliceEnd, base, qs, Turns(uids, start, completed), seen)
      ensures |seen| == completed + 1 && seen[0] == old(Now()) && (completed == |uids| ==> seen[completed] == Now())
    {
      hide Valid, QueriesOk, Sorted, StartOf, Turn, Turns, AllQuiet, Quieter, AllTaken, TurnTaken;
      completed, seen := 0, [Now()];
      NobodyRunning(episodes);
      NoneTaken(limits, margin, clock, sliceEnd, base, qs, Now());
      NoTurns(uids, start);
      while completed < |uids|
        invariant Valid() && completed <= |uids| && Extends(old(g), g)
        invariant turns == old(turns) + Turns(uids, start, completed)
        invariant AllQuiet(episodes, Turns(uids, start, completed))
        invariant |seen| == completed + 1 && seen[0] == old(Now()) && seen[completed] == Now()
        invariant AllTaken(limits, margin, clock, sliceEnd, base, qs, Turns(uids, start, completed), seen)
      {
        if Shutdown(tick) || SliceOver(tick) {
          SliceDerives();
          return;
        }
        var uid := uids[(start + completed) % |uids|];
        TurnIs(uids, start, completed);
        NotYet(uids, start, completed);
        var out := TakeOne(base, uid, qs[uid], Turns(uids, start, completed));
        if out {
          return;
        }
        OneMoreTurn(uids, start, completed);
        OneMoreTaken(limits, margin, clock, sliceEnd, base, qs, Turns(uids, start, completed), seen, uid, Now());
        seen := seen + [Now()];
        completed := completed + 1;
      }
    }

    lemma NoTurns(uids: seq<string>, start: nat)
      requires uids != []
      ensures Turns(uids, start, 0) == []
    {
    }

    lemma OneMoreTurn(uids: seq<string>, start: nat, k: nat)
      requires uids != []
      ensures Turns(uids, start, k + 1) == Turns(uids, start, k) + [Turn(uids, start, k)] && |Turns(uids, start, k)| == k
    {
    }

    /** One turn: whether the slice ended on it. */
    method TakeOne(base: Snapshot, uid: string, slots: map<string, Query>, ghost done: seq<string>) returns (out: bool)
      requires Valid() && QueriesOk(slots) && AllQuiet(episodes, done) && uid !in done
      modifies this`tick, this`episodes, this`progress, this`started, this`dispatched, this`g, this`turns, cache
      ensures Valid() && Extends(old(g), g) && out == SliceOver(tick)
      ensures TurnTaken(limits, margin, clock, sliceEnd, base, uid, slots, old(Now()), Now())
      ensures AllQuiet(episodes, if out then done else done + [uid])
      ensures turns == if out then old(turns) else old(turns) + [uid]
    {
      hide Valid, QueriesOk, AllQuiet, Quieter, TurnTaken;
      Investigate(base, uid, slots);
      QuietStays(old(episodes), episodes, uid, done);
      out := SliceOver(tick);
      if !out {
        QuietToo(episodes, done, uid);
        Complete(uid);
      }
    }

    lemma SliceDerives()
      requires Valid() && (Shutdown(tick) || SliceOver(tick))
      ensures SliceOver(tick)
    {
      hide HistoryOk, Monotone;
    }

    ghost method Complete(uid: string)
      requires Valid()
      modifies this`turns
      ensures Valid() && turns == old(turns) + [uid]
    {
      hide HistoryOk, Monotone;
      turns := turns + [uid];
    }

    /** At any time between runs: how many calls a target got in a window of length w. */
    lemma CallRateHolds(u: string, a: Time, w: Duration)
      requires Valid() && limits.cooldown > 0 && limits.deadline >= 0 && w >= 0
      ensures |CallsWithin(g, u, a, a + w)| <= Budget(limits) * ((w + limits.deadline) / limits.cooldown + 1)
    {
      CallRate(limits, clock(tick), g, episodes, u, a, w);
    }
  }
}
