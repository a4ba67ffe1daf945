/** What a journal record says about its execution, in every reachable state:
    its phase is what the provider decided, its stamps are the instants of the
    decisions, deadlines were over when it says so, and sends kept their distance. */
module Outcomes {
  import opened Wrappers
  import opened OpsTypes
  import opened Profiles
  import opened ActionTypes
  import opened Journal
  import opened Actors
  import opened EngineRules
  import opened Protocol
  import opened JournalSafety
  import opened Safety
  import ActionTheorems

  // ── the invariant ─────────────────────────────────────────────────────────

  /** The provider's job for the record ended as the phase says. */
  ghost predicate JobSays(a: ActorState, r: Record) {
    && (r.phase == Succeeded ==> r.key in a.jobs && a.jobs[r.key].b == Succeed)
    && (r.phase == Failed && !r.refused ==> r.key in a.jobs && a.jobs[r.key].b == Fail)
    && (r.phase == Failed && r.refused ==> r.key in a.jobs && a.jobs[r.key].b == Refuse)
  }

  /** The stamps each phase has, and why a target timed out or was withdrawn. */
  ghost predicate StampsOk(r: Record) {
    var ackDue := r.intent.createdAt + r.intent.ackTimeout;
    match r.phase
    case Dispatching => !r.refused && r.ackedAt == 0 && r.completedAt == 0 && r.endedAt == 0
    case Accepted => !r.refused && r.ackedAt != 0 && r.completedAt == 0 && r.endedAt == 0
    case Succeeded => !r.refused && r.ackedAt != 0 && r.completedAt != 0 && r.endedAt == r.completedAt
    case Failed =>
      if r.refused then r.ackedAt != 0 && r.completedAt == r.ackedAt && r.endedAt == 0
      else r.ackedAt != 0 && r.completedAt != 0 && r.endedAt == r.completedAt
    case TimedOut =>
      && !r.refused && r.completedAt != 0 && r.endedAt == 0
      && r.completedAt >= if r.ackedAt == 0 then ackDue else r.ackedAt + r.intent.completionTimeout
    case Withdrawn => !r.refused && r.ackedAt == 0 && r.completedAt != 0 && r.endedAt == 0 && r.completedAt < ackDue
  }

  function Times(n: nat, d: Duration): Duration {
    if n == 0 then 0 else Times(n - 1, d) + d
  }

  /** The time between two sends. */
  function Spacing(r: Record): Duration {
    if r.intent.maxSends > 0 then r.intent.ackTimeout / r.intent.maxSends else 0
  }

  /** Each send came one spacing after the one before, and none after the
      acknowledgement was due. */
  ghost predicate SendsOk(r: Record) {
    && r.intent.createdAt > 0 && r.sends >= 1
    && r.lastSentAt >= r.intent.createdAt + Times(r.sends - 1, Spacing(r))
    && (r.sends > 1 ==> r.lastSentAt < r.intent.createdAt + r.intent.ackTimeout)
  }

  /** The record carries the terms of the declaration it was proposed under. */
  ghost predicate TermsOk(r: Record) {
    var d := r.key.id.subject.declaration;
    && d.execution.Some?
    && var ex := d.execution.value;
    && (r.key.attempt > 1 ==> ex.retryable)
    && r.intent.provider == ex.provider && r.intent.ackTimeout == ex.ackTimeout && r.intent.completionTimeout == ex.completionTimeout
    && r.intent.recoveryWindow == ex.recoveryWindow && r.intent.retryable == ex.retryable && r.intent.expected == ex.expectedImpact
    && r.intent.owner == d.response.owner && r.intent.action == d.response.action && r.intent.for_ == d.response.for_
  }

  ghost predicate RecordOk(actors: map<string, ActorState>, r: Record) {
    StampsOk(r) && SendsOk(r) && TermsOk(r) && JobSays(JobsAt(actors, r.intent.provider), r)
  }

  ghost predicate OutcomesOk(s: Sys) {
    forall k {:trigger s.journal.recs[k]} {:trigger k in s.journal.recs} :: k in s.journal.recs ==> RecordOk(s.actors, s.journal.recs[k])
  }

  // ── one record ────────────────────────────────────────────────────────────

  /** What no write of an existing record changes of it. */
  lemma SameTerms(r: Record, n: Record)
    requires n.key == r.key && n.intent == r.intent && TermsOk(r)
    ensures TermsOk(n)
  {
  }

  lemma AdoptOk(a: ActorState, r: Record, state: ResultState, now: Time)
    requires now > 0 && r.phase.Occupies() && StampsOk(r) && SendsOk(r) && Adopt(r, state, now).Some?
    requires state == ResultSucceeded || state == ResultFailed || state == ResultRefused ==> r.key in a.jobs && StateOf(a.jobs[r.key].b) == state
    ensures var n := Adopt(r, state, now).value;
      StampsOk(n) && SendsOk(n) && JobSays(a, n) && n.key == r.key && n.intent == r.intent
  {
  }

  lemma ReceiptOk(a: ActorState, r: Record, h: Handoff, now: Time)
    requires now > 0 && r.phase == Dispatching && StampsOk(r) && SendsOk(r) && h.key == r.key && h.key in a.jobs
    ensures var n := AfterReceipt(r, ReceiptFor(a, h).accepted, now);
      StampsOk(n) && SendsOk(n) && JobSays(a, n) && n.key == r.key && n.intent == r.intent
  {
  }

  lemma PlanOk(a: ActorState, inp: StepInput, local: map<Key, Record>, r: Record, epoch: nat)
    requires inp.now > 0 && StampsOk(r) && SendsOk(r) && JobSays(a, r) && AdvancePlan(inp, local, r, epoch) != Stay
    ensures var n := AdvancePlan(inp, local, r, epoch).next;
      StampsOk(n) && SendsOk(n) && JobSays(a, n) && n.key == r.key && n.intent == r.intent
  {
    hide StillStands;
  }

  lemma NewOk(a: ActorState, inp: StepInput, p: Proposal, n: nat, epoch: nat, ap: Approval, counted: Option<Decision>)
    requires inp.now > 0 && WellBuilt(p) && (n > 1 ==> p.response.execution.value.retryable)
    ensures var r := NewRecord(inp, p, n, epoch, ap, counted); StampsOk(r) && SendsOk(r) && TermsOk(r) && JobSays(a, r)
  {
  }

  lemma StoredOk(actors: map<string, ActorState>, r: Record, fence: nat, version: nat)
    requires RecordOk(actors, r)
    ensures RecordOk(actors, r.(fence := fence, version := version))
  {
  }

  // ── transitions ───────────────────────────────────────────────────────────

  lemma WrittenOk(s: Sys, e: nat, next: Record, pc: Pc)
    requires OutcomesOk(s) && CanWrite(s, e, next) && RecordOk(s.actors, next)
    ensures OutcomesOk(Written(s, e, next, pc))
  {
    hide RecordOk;
    StoredOk(s.actors, next, EngAt(s, e).epoch, next.version + 1);
  }

  /** What the engine about to write holds. */
  lemma WriterHolds(s: Sys, e: nat, next: Record, k: Key)
    requires Inv(s) && OutcomesOk(s) && CanWrite(s, e, next) && k in EngAt(s, e).local
    ensures var g := EngAt(s, e);
      g.Busy? && g.inp.now > 0 && g.local[k].key == k && RecordOk(s.actors, g.local[k]) && PcOk(s.actors, s.log, g)
  {
    hide JournalOk, JobsOk, AllReleasedOk, SentOk, LogOk, PropsOk, PcOk, PendingApart, RecordOk, EpochsOk;
    WriterIsNewest(s, e, next);
    assert EngineOk(s, EngAt(s, e));
  }

  lemma AdoptStep(s: Sys, e: nat)
    requires Inv(s) && OutcomesOk(s) && Enabled(s, AdoptStored(e))
    ensures OutcomesOk(Apply(s, AdoptStored(e)))
  {
    hide Inv, OutcomesOk, StampsOk, SendsOk, TermsOk, JobSays, CanWrite, Adopt;
    var g := EngAt(s, e);
    var next := Adopted(g).value;
    WriterHolds(s, e, next, g.pc.key);
    var r := g.local[g.pc.key];
    AdoptOk(JobsAt(s.actors, r.intent.provider), r, g.pc.answer.value.state, g.inp.now);
    SameTerms(r, next);
    WrittenOk(s, e, next, Ready);
  }

  lemma AdvanceStep(s: Sys, e: nat)
    requires Inv(s) && OutcomesOk(s) && Enabled(s, AdvanceStored(e))
    ensures OutcomesOk(Apply(s, AdvanceStored(e)))
  {
    hide Inv, OutcomesOk, StampsOk, SendsOk, TermsOk, JobSays, CanWrite, AdvancePlan, PcOk;
    var g := EngAt(s, e);
    var plan := PlanOf(g);
    WriterHolds(s, e, plan.next, g.pc.key);
    var r := g.local[g.pc.key];
    PlanOk(JobsAt(s.actors, r.intent.provider), g.inp, g.local, r, g.epoch);
    SameTerms(r, plan.next);
    WrittenOk(s, e, plan.next, if plan.Resend? then Sending(plan.next.key, g.local) else Ready);
  }

  lemma ReceiptStep(s: Sys, e: nat)
    requires Inv(s) && OutcomesOk(s) && Enabled(s, ReceiptStored(e))
    ensures OutcomesOk(Apply(s, ReceiptStored(e)))
  {
    hide Inv, OutcomesOk, StampsOk, SendsOk, TermsOk, JobSays, CanWrite, AfterReceipt;
    var g := EngAt(s, e);
    var r := g.local[g.pc.key];
    var a := ActorAt(s, r.intent.provider);
    var next := AfterReceipt(r, ReceiptFor(a, g.pc.h).accepted, g.inp.now);
    WriterHolds(s, e, next, g.pc.key);
    ReceiptOk(a, r, g.pc.h, g.inp.now);
    SameTerms(r, next);
    WrittenOk(s, e, next, Ready);
  }

  lemma RecoverStep(s: Sys, e: nat, k: Key, rec: Recovery)
    requires Inv(s) && OutcomesOk(s) && Enabled(s, RecoverStored(e, k, rec))
    ensures OutcomesOk(Apply(s, RecoverStored(e, k, rec)))
  {
    hide Inv, OutcomesOk, CanWrite, PcOk;
    var next := EngAt(s, e).local[k].(recovery := rec);
    WriterHolds(s, e, next, k);
    WrittenOk(s, e, next, Ready);
  }

  lemma DecideStep(s: Sys, a: Action)
    requires Inv(s) && OutcomesOk(s) && a.DecideStored? && Enabled(s, a)
    ensures OutcomesOk(Apply(s, a))
  {
    hide OutcomesOk, StampsOk, SendsOk, TermsOk, JobSays, CanWrite, PcOk, JournalOk, EpochsOk, PendingApart, JobsOk, AllReleasedOk, SentOk, LogOk;
    hide LocalOk, GatesPass, Authorised, NextAttempt, WellBuilt, NewRecord;
    var g := EngAt(s, a.e);
    assert EngineOk(s, g);
    CoherentOf(s.journal.recs);
    var p := g.inp.props[a.id];
    assert p.id == a.id;
    var r := NewRecord(g.inp, p, a.n, g.epoch, a.approval, a.counted);
    WriterIsNewest(s, a.e, r);
    if a.n > 1 {
      EarnedRetry(s, p, a.n);
    }
    NewOk(JobsAt(s.actors, r.intent.provider), g.inp, p, a.n, g.epoch, a.approval, a.counted);
    WrittenOk(s, a.e, r, Sending(Key(a.id, a.n), g.local));
  }

  lemma EarnedRetry(s: Sys, p: Proposal, n: nat)
    requires OutcomesOk(s) && WellBuilt(p) && n > 1 && NextAttempt(s.journal.recs, p.id, n) && AllCoherent(s.journal.recs)
    ensures p.response.execution.value.retryable
  {
    hide StampsOk, SendsOk, JobSays, AllCoherent;
    var l := Key(p.id, n - 1);
    assert RecordOk(s.actors, s.journal.recs[l]);
    assert Coherent(l, s.journal.recs[l]) by { CoherentAt(s.journal.recs, l); }
  }

  lemma CoherentAt(recs: map<Key, Record>, k: Key)
    requires AllCoherent(recs) && k in recs
    ensures Coherent(k, recs[k])
  {
  }

  /** No ended or refused job changes how it ended. */
  lemma ActorStep(s: Sys, a: Action)
    requires OutcomesOk(s) && Enabled(s, a) && (a.Deliver? || a.Settle?)
    ensures OutcomesOk(Apply(s, a))
  {
    hide StampsOk, SendsOk, TermsOk;
    var p := if a.Deliver? then a.packet.provider else a.provider;
    var was, now := ActorAt(s, p), ActorAt(Apply(s, a), p);
    forall k | k in was.jobs && !Live(was, k) ensures k in now.jobs && now.jobs[k].b == was.jobs[k].b { }
    forall k | k in s.journal.recs ensures RecordOk(Apply(s, a).actors, s.journal.recs[k]) {
      assert RecordOk(s.actors, s.journal.recs[k]);
    }
  }

  lemma StepOutcomes(s: Sys, a: Action)
    requires Inv(s) && OutcomesOk(s) && Enabled(s, a)
    ensures OutcomesOk(Apply(s, a))
  {
    if a.AdoptStored? || a.AdvanceStored? || a.ReceiptStored? || a.RecoverStored? || a.DecideStored? {
      hide Enabled, Apply, Inv, OutcomesOk;
      match a
      case AdoptStored(e) => AdoptStep(s, e);
      case AdvanceStored(e) => AdvanceStep(s, e);
      case ReceiptStored(e) => ReceiptStep(s, e);
      case RecoverStored(e, k, rec) => RecoverStep(s, e, k, rec);
      case DecideStored(_, _, _, _, _) => DecideStep(s, a);
      case _ =>
    } else if a.Deliver? || a.Settle? {
      hide Enabled, Apply, Inv, OutcomesOk;
      ActorStep(s, a);
    } else {
      hide Inv, RecordOk;
      Untouched(s, a);
    }
  }

  lemma Untouched(s: Sys, a: Action)
    requires Enabled(s, a) && !a.AdoptStored? && !a.AdvanceStored? && !a.ReceiptStored? && !a.RecoverStored? && !a.DecideStored? && !a.Deliver? && !a.Settle?
    ensures Apply(s, a).journal.recs == s.journal.recs && Apply(s, a).actors == s.actors
  {
  }

  lemma ReachableOutcomes(s: Sys)
    requires Reachable(s)
    ensures Inv(s) && OutcomesOk(s)
  {
    hide Inv, Enabled, Apply, Init, OutcomesOk;
    var s0 :| Init(s0) && Run(s0, s);
    var states :| IsRun(states, s0, s);
    InitInv(s0);
    InitOutcomes(s0);
    var i := 0;
    while i < |states| - 1
      invariant 0 <= i < |states| && Inv(states[i]) && OutcomesOk(states[i])
    {
      assert Next(states[i], states[i + 1]);
      var a :| Enabled(states[i], a) && states[i + 1] == Apply(states[i], a);
      StepInv(states[i], a);
      StepOutcomes(states[i], a);
      i := i + 1;
    }
  }

  lemma InitOutcomes(s: Sys)
    requires Init(s)
    ensures OutcomesOk(s)
  {
  }

  // ── what a record says ────────────────────────────────────────────────────

  /** A record ends only as its provider's job did: it has succeeded only when
      the job succeeded, failed only when the job failed, and was refused only
      when the job was refused. The end of an execution is stamped exactly for
      the first two. */
  lemma PhaseIsProviders(s: Sys, k: Key)
    requires Reachable(s) && k in s.journal.recs
    ensures var r := s.journal.recs[k];
      var jobs := ActorAt(s, r.intent.provider).jobs;
      && (r.phase == Succeeded ==> !r.refused && k in jobs && jobs[k].b == Succeed && StateOf(jobs[k].b) == ResultSucceeded)
      && (r.phase == Failed && !r.refused ==> k in jobs && jobs[k].b == Fail && StateOf(jobs[k].b) == ResultFailed)
      && (r.refused ==> r.phase == Failed && k in jobs && jobs[k].b == Refuse && StateOf(jobs[k].b) == ResultRefused)
      && (r.endedAt != 0 <==> r.phase == Succeeded || (r.phase == Failed && !r.refused))
  {
    HeldOk(s, k);
    hide SendsOk, TermsOk, Reachable, Coherent;
  }

  /** What is known of any record of a reachable state. */
  lemma HeldOk(s: Sys, k: Key)
    requires Reachable(s) && k in s.journal.recs
    ensures RecordOk(s.actors, s.journal.recs[k]) && s.journal.recs[k].key == k && Coherent(k, s.journal.recs[k])
  {
    ReachableOutcomes(s);
    hide Reachable, RecordOk, JobsOk, SentOk, LogOk, EnginesOk, EpochsOk, PendingApart, AllReleasedOk, AttemptsContiguous, OccupancyExclusive, EpisodesContiguous;
    CoherentAt(s.journal.recs, k);
    CoherentKey(k, s.journal.recs[k]);
  }

  lemma CoherentKey(k: Key, r: Record)
    requires Coherent(k, r)
    ensures r.key == k && 1 <= r.sends <= r.intent.maxSends
  {
  }

  /** An attempt is made again only after each one before it was definitively
      failed or refused by its provider, was declared retryable, and within the
      declared number of attempts. */
  lemma RetryIsEarned(s: Sys, k: Key, j: nat)
    requires Reachable(s) && k in s.journal.recs && 1 <= j < k.attempt
    ensures var l := Key(k.id, j);
      && l in s.journal.recs
      && var r := s.journal.recs[l];
      && var jobs := ActorAt(s, r.intent.provider).jobs;
      && l in jobs && jobs[l].b == (if r.refused then Refuse else Fail)
      && r.intent.retryable && k.attempt <= r.intent.maxAttempts
  {
    ActionTheorems.AttemptsAreInitial(s, k, j);
    var l := Key(k.id, j);
    PhaseIsProviders(s, l);
    HeldOk(s, k);
    HeldOk(s, l);
    hide SendsOk, StampsOk, JobSays, Reachable, ExecutionBounds;
  }

  /** Nothing is given up early: a target timed out only when the
      acknowledgement, or after it the completion, was overdue; it was withdrawn
      only unacknowledged and before that. */
  lemma GivenUpInTime(s: Sys, k: Key)
    requires Reachable(s) && k in s.journal.recs
    ensures var r := s.journal.recs[k];
      && (r.phase == TimedOut && r.ackedAt == 0 ==> r.completedAt >= r.intent.createdAt + r.intent.ackTimeout)
      && (r.phase == TimedOut && r.ackedAt != 0 ==> r.completedAt >= r.ackedAt + r.intent.completionTimeout)
      && (r.phase == Withdrawn ==> r.ackedAt == 0 && r.completedAt < r.intent.createdAt + r.intent.ackTimeout)
      && (r.phase == Dispatching ==> r.ackedAt == 0) && (r.phase == Accepted ==> r.ackedAt != 0)
  {
    HeldOk(s, k);
    hide SendsOk, TermsOk, JobSays, Reachable, Coherent;
  }

  lemma {:induction false} TimesIs(n: nat, d: Duration)
    ensures Times(n, d) == n * d
  {
    if n > 0 {
      TimesIs(n - 1, d);
      assert n * d == (n - 1) * d + d;
    }
  }

  /** The sends of a key are spread over the time its acknowledgement has: the
      last of n is made no earlier than n - 1 shares of it, and never after it. */
  lemma SendsAreSpaced(s: Sys, k: Key)
    requires Reachable(s) && k in s.journal.recs
    ensures var r := s.journal.recs[k];
      && 1 <= r.sends <= r.intent.maxSends && r.intent.maxSends > 0
      && r.lastSentAt >= r.intent.createdAt + (r.sends - 1) * (r.intent.ackTimeout / r.intent.maxSends)
      && (r.sends > 1 ==> r.lastSentAt < r.intent.createdAt + r.intent.ackTimeout)
  {
    HeldOk(s, k);
    CoherentKey(k, s.journal.recs[k]);
    hide Reachable, Coherent, StampsOk, TermsOk, JobSays;
    TimesIs(s.journal.recs[k].sends - 1, Spacing(s.journal.recs[k]));
  }

  /** A record carries the terms of the very declaration its proposal is about. */
  lemma TermsAreDeclared(s: Sys, k: Key)
    requires Reachable(s) && k in s.journal.recs
    ensures var i := s.journal.recs[k].intent;
      var d := k.id.subject.declaration;
      && d.execution.Some? && i.execution == d.execution.value && i.provider == d.execution.value.provider
      && i.ackTimeout == d.execution.value.ackTimeout && i.completionTimeout == d.execution.value.completionTimeout
      && i.recoveryWindow == d.execution.value.recoveryWindow && i.retryable == d.execution.value.retryable
      && i.expected == d.execution.value.expectedImpact
      && i.owner == d.response.owner && i.action == d.response.action && i.for_ == d.response.for_
      && i.binding == k.id.subject.binding && i.targetUid == k.id.subject.binding.target.uid
  {
    HeldOk(s, k);
    hide StampsOk, SendsOk, JobSays, Reachable, ExecutionBounds;
  }
}
