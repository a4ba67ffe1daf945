/** The promises of the action engine, in every reachable state of every
    interleaving. */
module ActionTheorems {
  import opened Wrappers
  import opened OpsTypes
  import opened Profiles
  import opened ActionTypes
  import opened Journal
  import opened Actors
  import opened EngineRules
  import opened Protocol
  import opened JournalSafety
  import opened Safety
  import opened Counting

  // ── exclusive actuation ───────────────────────────────────────────────────

  /** The provider still carries responsibility for an execution on the target. */
  predicate LiveOn(s: Sys, p: string, k: Key, target: string) {
    Live(ActorAt(s, p), k) && ActorAt(s, p).jobs[k].target == target
  }

  /** At most one record per target occupies, every live execution has its
      occupying record, and so at most one execution per target is live,
      whichever provider it is at. */
  lemma ExclusiveActuation(s: Sys)
    requires Reachable(s)
    ensures forall k, l | k in s.journal.recs && l in s.journal.recs
        && s.journal.recs[k].phase.Occupies() && s.journal.recs[l].phase.Occupies() :: TargetOfKey(k) == TargetOfKey(l) ==> k == l
    ensures forall p, k, target | LiveOn(s, p, k, target) ::
      k in s.journal.recs && s.journal.recs[k].phase.Occupies() && s.journal.recs[k].intent.provider == p && TargetOfKey(k) == target
    ensures forall p, q, k, l, target | LiveOn(s, p, k, target) && LiveOn(s, q, l, target) :: p == q && k == l
  {
    ReachableInv(s);
    hide Reachable, EnginesOk, EpochsOk, PendingApart, SentOk, LogOk, AllCoherent, AttemptsContiguous, EpisodesContiguous;
    forall p, k, target | LiveOn(s, p, k, target)
      ensures k in s.journal.recs && s.journal.recs[k].phase.Occupies() && s.journal.recs[k].intent.provider == p && TargetOfKey(k) == target
    {
      assert k in JobsAt(s.actors, p).jobs;
      assert JobOk(s.journal.recs, p, k, JobsAt(s.actors, p).jobs[k]);
      assert ReleasedOk(s.actors, k, s.journal.recs[k]);
    }
  }

  /** A target is released only by the provider: a record that no longer
      occupies belongs to a job the provider has ended or refused. */
  lemma ReleasedOnlyByProvider(s: Sys, k: Key)
    requires Reachable(s) && k in s.journal.recs && !s.journal.recs[k].phase.Occupies()
    ensures var a := ActorAt(s, s.journal.recs[k].intent.provider); k in a.jobs && !Live(a, k)
  {
    ReachableInv(s);
    HeldRecord(s, k);
  }

  // ── what runs never change ────────────────────────────────────────────────

  lemma UpdateGrows(recs: map<Key, Record>, r: Record, k: Key)
    requires k in recs ==> Evolves(recs[k], r)
    ensures Grows(recs, recs[k := r])
  {
  }

  /** The record an engine inside an exchange with a provider is about to write. */
  ghost function NextWrite(s: Sys, a: Action): Record
    requires Enabled(s, a) && (a.AdoptStored? || a.AdvanceStored? || a.ReceiptStored?)
  {
    var g := EngAt(s, a.e);
    match a
    case AdoptStored(_) => Adopted(g).value
    case AdvanceStored(_) => PlanOf(g).next
    case ReceiptStored(_) =>
      AfterReceipt(g.local[g.pc.key], ReceiptFor(ActorAt(s, g.local[g.pc.key].intent.provider), g.pc.h).accepted, g.inp.now)
  }

  lemma ExchangeGrows(s: Sys, a: Action)
    requires Inv(s) && Enabled(s, a) && (a.AdoptStored? || a.AdvanceStored? || a.ReceiptStored?)
    ensures Grows(s.journal.recs, Apply(s, a).journal.recs)
  {
    hide JobsOk, AllReleasedOk, SentOk, LogOk, EpochsOk, PendingApart, PropsOk, StillStands, JournalOk, Evolves, Grows, EnginesOk;
    hide AdvancePlan, Adopted, AfterReceipt;
    var g := EngAt(s, a.e);
    var next := NextWrite(s, a);
    WriterEvolves(s, a.e, next);
    UpdateGrows(s.journal.recs, next.(fence := g.epoch, version := next.version + 1), g.pc.key);
  }

  lemma RecoverGrows(s: Sys, e: nat, k: Key, rec: Recovery)
    requires Inv(s) && Enabled(s, RecoverStored(e, k, rec))
    ensures Grows(s.journal.recs, Apply(s, RecoverStored(e, k, rec)).journal.recs)
  {
    hide Inv, Evolves, Grows, CanWrite;
    RecoverEvolves(s, e, k, rec);
    UpdateGrows(s.journal.recs, Apply(s, RecoverStored(e, k, rec)).journal.recs[k], k);
  }

  lemma DecideGrows(s: Sys, a: Action)
    requires Inv(s) && a.DecideStored? && Enabled(s, a)
    ensures Grows(s.journal.recs, Apply(s, a).journal.recs)
  {
    hide JobsOk, AllReleasedOk, SentOk, LogOk, EpochsOk, WellBuilt, PendingApart, JournalOk, Grows, CanWrite, LocalOk, GatesPass, Authorised, NextAttempt;
    var g := EngAt(s, a.e);
    assert EngineOk(s, g);
    assert g.inp.props[a.id].id == a.id;
    WriterIsNewest(s, a.e, NewRecord(g.inp, g.inp.props[a.id], a.n, g.epoch, a.approval, a.counted));
    DecideJournal(s.journal.recs, g, a.id, a.n, a.approval, a.counted);
  }

  /** Intents are fixed, send counts and recoveries only grow, and a definitive
      phase is final, across any single transition. */
  lemma StepGrows(s: Sys, a: Action)
    requires Inv(s) && Enabled(s, a)
    ensures Grows(s.journal.recs, Apply(s, a).journal.recs)
  {
    hide Inv, Enabled, Apply, Grows;
    if a.AdoptStored? || a.AdvanceStored? || a.ReceiptStored? {
      ExchangeGrows(s, a);
    } else if a.RecoverStored? {
      RecoverGrows(s, a.e, a.key, a.recovery);
    } else if a.DecideStored? {
      DecideGrows(s, a);
    } else {
      NothingWritten(s, a);
    }
  }

  /** No other transition touches a record. */
  lemma NothingWritten(s: Sys, a: Action)
    requires Enabled(s, a) && !a.AdoptStored? && !a.AdvanceStored? && !a.ReceiptStored? && !a.RecoverStored? && !a.DecideStored?
    ensures Apply(s, a).journal.recs == s.journal.recs && Grows(s.journal.recs, Apply(s, a).journal.recs)
  {
    hide Enabled;
  }

  lemma RecoverEvolves(s: Sys, e: nat, k: Key, rec: Recovery)
    requires Inv(s) && Enabled(s, RecoverStored(e, k, rec))
    ensures var t := Apply(s, RecoverStored(e, k, rec));
      k in s.journal.recs && EngAt(s, e).local[k].key == k && k in t.journal.recs && Evolves(s.journal.recs[k], t.journal.recs[k])
  {
    hide JobsOk, AllReleasedOk, SentOk, LogOk, EpochsOk, PendingApart, PropsOk, CanWrite, JournalOk;
    var g := EngAt(s, e);
    assert EngineOk(s, g);
    WriterIsNewest(s, e, g.local[k].(recovery := rec));
    HeldRecord(s, k);
  }

  /** The write that follows an answer, a deadline or a receipt evolves the record. */
  lemma WriterEvolves(s: Sys, e: nat, next: Record)
    requires Inv(s) && CanWrite(s, e, next) && EngAt(s, e).Busy?
    requires !EngAt(s, e).pc.Ready? && EngAt(s, e).pc.key in EngAt(s, e).local
    requires var g := EngAt(s, e);
      || (g.pc.Polled? && Adopted(g) == Some(next))
      || (g.pc.Polled? && PlanOf(g) != Stay && PlanOf(g).next == next)
      || (g.pc.Waiting? && exists accepted :: next == AfterReceipt(g.local[g.pc.key], accepted, g.inp.now))
    ensures var k := EngAt(s, e).pc.key;
      next.key == k && k in s.journal.recs && Evolves(s.journal.recs[k], next.(fence := EngAt(s, e).epoch, version := next.version + 1))
  {
    hide JobsOk, AllReleasedOk, SentOk, LogOk, EpochsOk, PendingApart, PropsOk, CanWrite, JournalOk, StillStands;
    var g := EngAt(s, e);
    assert EngineOk(s, g);
    WriterIsNewest(s, e, next);
    HeldRecord(s, g.pc.key);
  }

  /** The approval and the decision an attempt was persisted with never change,
      over any run. */
  lemma {:induction false} ApprovalNeverChanges(states: seq<Sys>, s: Sys, t: Sys, k: Key)
    requires IsRun(states, s, t) && Inv(s) && k in s.journal.recs
    ensures k in t.journal.recs && t.journal.recs[k].intent == s.journal.recs[k].intent
    ensures !s.journal.recs[k].phase.Occupies() ==> t.journal.recs[k].phase == s.journal.recs[k].phase
  {
    hide Inv, Enabled, Apply;
    var i := 0;
    while i < |states| - 1
      invariant 0 <= i < |states| && Inv(states[i])
      invariant k in states[i].journal.recs && states[i].journal.recs[k].intent == s.journal.recs[k].intent
      invariant !s.journal.recs[k].phase.Occupies() ==> states[i].journal.recs[k].phase == s.journal.recs[k].phase
    {
      assert Next(states[i], states[i + 1]);
      var a :| Enabled(states[i], a) && states[i + 1] == Apply(states[i], a);
      StepInv(states[i], a);
      StepGrows(states[i], a);
      i := i + 1;
    }
  }

  // ── sends ─────────────────────────────────────────────────────────────────

  /** Under what conditions p may be handed off; a first send also needs a
      target on which no other proposal's attempt is still open. */
  ghost predicate GatesHold(inp: StepInput, seen: map<Key, Record>, p: Proposal, first: bool) {
    && p.response.owner != "" && !p.ownerConflict && inp.durable
    && p.response.execution.Some?
    && var ex := p.response.execution.value;
    && (p.human == [] || exists who :: who in ex.approvers)
    && (exists reg :: && ex.provider in inp.registry && inp.registry[ex.provider] == reg && reg.owner == p.response.owner
                      && p.binding.target.namespace in reg.namespaces && p.response.action in reg.actions)
    && (forall pre :: pre in p.preconditions ==> pre.proof == Proven)
    && (first ==> forall k :: k in seen && seen[k].intent.targetUid == p.binding.target.uid && k.id != p.id ==>
          seen[k].phase == Succeeded || seen[k].phase == Failed)
  }

  /** A declared approver's verified decision about exactly this proposal as it
      is now, no older than the declared age, an hour if none is declared. */
  ghost predicate SpeaksFor(inp: StepInput, p: Proposal, d: Decision)
    requires p.response.execution.Some?
  {
    var ex := p.response.execution.value;
    && d in inp.decisions && d in inp.genuine && d.proposal == p.id && d.digest == p.digest && d.principal in ex.approvers
    && d.decidedAt <= inp.now <= d.decidedAt + if ex.approvalTtl == 0 then 3_600_000_000_000 else ex.approvalTtl
  }

  /** Either nobody needs to be asked, or the recorded decision speaks for the
      proposal, approves it, and no decision that speaks for it rejects it. */
  ghost predicate ApprovalHolds(inp: StepInput, p: Proposal, a: Approval, recorded: Option<Decision>)
    requires p.response.execution.Some?
  {
    if p.human == [] then a == PolicyApproval(p.profile)
    else
      && recorded.Some? && a == HumanApproval(recorded.value.principal, recorded.value.decisionId)
      && SpeaksFor(inp, p, recorded.value) && recorded.value.verdict == Approve
      && forall d :: SpeaksFor(inp, p, d) ==> d.verdict != Reject
  }

  lemma GatesMeaning(inp: StepInput, seen: map<Key, Record>, p: Proposal, resend: bool)
    requires p.response.execution.Some?
    ensures GatesPass(inp, seen, p, resend) <==> GatesHold(inp, seen, p, !resend)
  {
    var ex := p.response.execution.value;
    if ex.approvers != [] {
      assert ex.approvers[0] in ex.approvers;
    }
    if ex.provider in inp.registry {
      assert inp.registry[ex.provider] == inp.registry[ex.provider];
    }
    if GatesPass(inp, seen, p, resend) && !resend {
      forall k | k in seen && seen[k].intent.targetUid == p.binding.target.uid && k.id != p.id ensures seen[k].phase == Succeeded || seen[k].phase == Failed { }
    }
  }

  lemma ApprovalMeaning(inp: StepInput, p: Proposal, a: Approval, recorded: Option<Decision>)
    requires p.response.execution.Some?
    ensures Authorised(inp, p, a, recorded) <==> ApprovalHolds(inp, p, a, recorded)
  {
    forall d ensures Counts(inp, p, d) <==> SpeaksFor(inp, p, d) { }
  }

  /** Every first send and every resend was made with the current digest, with
      all gates passing, and under the attempt's own recorded approval, which
      counted at that instant with no counting rejection. On a first send the
      gates include that no other proposal held the target. */
  lemma EverySendIsApproved(s: Sys, i: nat)
    requires Reachable(s) && i < |s.log|
    ensures var u := s.log[i];
      && u.h.key in s.journal.recs
      && var r := s.journal.recs[u.h.key];
      && u.h.approval == r.intent.approval && u.h.digest == r.intent.digest
      && u.provider == r.intent.provider && u.h.owner == r.intent.owner && u.h.action == r.intent.action && u.h.for_ == r.intent.for_
      && u.h.target == r.intent.binding.target && u.h.expected == r.intent.expected
      && u.h.key.id in u.inp.props
      && var p := u.inp.props[u.h.key.id];
      && p.response.execution.Some? && p.digest == u.h.digest
      && GatesHold(u.inp, u.seen, p, u.n == 1)
      && ApprovalHolds(u.inp, p, u.h.approval, r.intent.decision)
  {
    ReachableInv(s);
    hide EnginesOk, EpochsOk, PendingApart, SentOk, JobsOk, AllReleasedOk, JournalOk, GatesPass, Authorised;
    assert SubmissionOk(s.journal.recs, s.log[i]);
    SubmissionKey(s.journal.recs, s.log[i]);
    GatesMeaning(s.log[i].inp, s.log[i].seen, s.log[i].inp.props[s.log[i].h.key.id], s.log[i].n > 1);
    ApprovalMeaning(s.log[i].inp, s.log[i].inp.props[s.log[i].h.key.id], s.log[i].h.approval, s.journal.recs[s.log[i].h.key].intent.decision);
    hide GatesHold, ApprovalHolds;
    ResendGates(s.log[i].inp, s.log[i].seen, s.log[i].inp.props[s.log[i].h.key.id]);
  }

  lemma ResendGates(inp: StepInput, seen: map<Key, Record>, p: Proposal)
    requires p.response.execution.Some?
    ensures GatesPass(inp, map[], p, true) == GatesPass(inp, seen, p, true)
  {
  }

  /** What an engine decides a send on is the whole journal as it stands: no
      send is decided on an outdated copy. */
  lemma SendsDecidedOnJournal(s: Sys, a: Action)
    requires Reachable(s) && (a.DecideStored? || a.AdvanceStored?) && Enabled(s, a)
    ensures var pc := EngAt(Apply(s, a), a.e).pc;
      EngAt(Apply(s, a), a.e).Busy? && (pc.Sending? ==> pc.seen == s.journal.recs)
  {
    ReachableInv(s);
    hide Inv, CanWrite, PlanOf, DecideGuard, NewRecord, Reachable;
    var g := EngAt(s, a.e);
    if a.DecideStored? {
      WriterIsNewest(s, a.e, NewRecord(g.inp, g.inp.props[a.id], a.n, g.epoch, a.approval, a.counted));
    } else {
      WriterIsNewest(s, a.e, PlanOf(g).next);
    }
  }

  lemma SubmissionKey(recs: map<Key, Record>, u: Submission)
    requires SubmissionOk(recs, u)
    ensures recs[u.h.key].key.id in u.inp.props
  {
  }

  /** Submits of one key, and of one proposal over all its keys. */
  function CountKey(log: seq<Submission>, k: Key): nat {
    CountWhere(log, (u: Submission) => u.h.key == k)
  }

  function CountProposal(log: seq<Submission>, id: ProposalId): nat {
    CountWhere(log, (u: Submission) => u.h.key.id == id)
  }

  /** The submits of a key never exceed the journalled sends, which never
      exceed the declared bound. */
  lemma SendBudget(s: Sys, k: Key)
    requires Reachable(s) && k in s.journal.recs
    ensures CountKey(s.log, k) <= s.journal.recs[k].sends <= s.journal.recs[k].intent.maxSends
    ensures k.id.subject.declaration.execution.Some?
    ensures var declared := k.id.subject.declaration.execution.value.maxSends;
      s.journal.recs[k].intent.maxSends == (if declared == 0 then 3 else declared) <= 5
  {
    ReachableInv(s);
    hide EnginesOk, EpochsOk, PendingApart, SentOk, JobsOk, AllReleasedOk, StillStands, CountWhere, AttemptsContiguous, OccupancyExclusive, EpisodesContiguous;
    assert Coherent(k, s.journal.recs[k]);
    forall i | 0 <= i < |s.log| && s.log[i].h.key == k ensures 1 <= s.log[i].n <= s.journal.recs[k].sends {
      assert SubmissionOk(s.journal.recs, s.log[i]);
    }
    CountAtMost(s.log, (u: Submission) => u.h.key == k, (u: Submission) => u.n, s.journal.recs[k].sends);
  }

  /** A proposal's attempts are exactly 1..m, m within its declared bound, and
      all but the last failed definitively. */
  lemma AttemptsAreInitial(s: Sys, k: Key, j: nat)
    requires Reachable(s) && k in s.journal.recs && 1 <= j < k.attempt
    ensures Key(k.id, j) in s.journal.recs && s.journal.recs[Key(k.id, j)].phase == Failed
    ensures k.id.subject.declaration.execution.Some?
    ensures var declared := k.id.subject.declaration.execution.value.maxAttempts; k.attempt <= (if declared == 0 then 1 else declared) <= 3
  {
    hide *;
    ReachableInv(s);
    JournalHolds(s);
    AttemptBounded(s.journal.recs, k);
    LaterAttemptExists(s.journal.recs, k.id, k.attempt + 1, j);
  }

  lemma JournalHolds(s: Sys)
    requires Inv(s)
    ensures AllCoherent(s.journal.recs) && AttemptsContiguous(s.journal.recs)
  {
    hide EnginesOk, EpochsOk, PendingApart, SentOk, JobsOk, AllReleasedOk, LogOk;
  }

  lemma AttemptBounded(recs: map<Key, Record>, k: Key)
    requires AllCoherent(recs) && k in recs
    ensures k.id.subject.declaration.execution.Some?
    ensures var declared := k.id.subject.declaration.execution.value.maxAttempts; k.attempt <= (if declared == 0 then 1 else declared) <= 3
  {
    assert Coherent(k, recs[k]);
  }

  /** One number per submit of a proposal: attempt and send number together. */
  function Serial(attempt: nat, n: nat, bound: nat): int {
    (attempt - 1) * bound + n
  }

  lemma SerialOrder(a: nat, b: nat, n: nat, m: nat, bound: nat)
    requires 1 <= n <= bound && 1 <= m <= bound && 1 <= a < b
    ensures Serial(a, n, bound) < Serial(b, m, bound)
  {
    assert (b - 1) * bound >= a * bound == (a - 1) * bound + bound;
  }

  lemma SerialApart(a: nat, b: nat, n: nat, m: nat, bound: nat)
    requires 1 <= n <= bound && 1 <= m <= bound && a >= 1 && b >= 1 && (a, n) != (b, m)
    ensures Serial(a, n, bound) != Serial(b, m, bound)
  {
    if a < b {
      SerialOrder(a, b, n, m, bound);
    } else if b < a {
      SerialOrder(b, a, m, n, bound);
    }
  }

  lemma SerialBound(attempt: nat, attempts: nat, n: nat, bound: nat)
    requires 1 <= attempt <= attempts && 1 <= n <= bound
    ensures 1 <= Serial(attempt, n, bound) <= attempts * bound
  {
    assert (attempt - 1) * bound + bound == attempt * bound;
    assert attempt * bound <= attempts * bound;
    assert 0 <= (attempt - 1) * bound;
  }

  /** All submits of a proposal, over all its attempts and all engines, are at
      most the product of its two budgets. */
  lemma ProposalBudget(s: Sys, id: ProposalId)
    requires Reachable(s) && id.subject.declaration.execution.Some? && ExecutionBounds(id.subject.declaration.execution.value)
    ensures var ex := id.subject.declaration.execution.value;
      CountProposal(s.log, id) <= ex.AttemptBudget() * ex.SendBudget() <= 15
  {
    ReachableInv(s);
    hide Reachable, EnginesOk, EpochsOk, PendingApart, SentOk, JobsOk, AllReleasedOk, StillStands, CountWhere, Serial;
    var ex := id.subject.declaration.execution.value;
    var attempts, bound := ex.AttemptBudget(), ex.SendBudget();
    forall i | 0 <= i < |s.log| && s.log[i].h.key.id == id
      ensures 1 <= s.log[i].h.key.attempt && 1 <= s.log[i].n <= bound
      ensures 1 <= Serial(s.log[i].h.key.attempt, s.log[i].n, bound) <= attempts * bound
    {
      InBudget(s, i);
      SerialBound(s.log[i].h.key.attempt, attempts, s.log[i].n, bound);
    }
    forall i, j | 0 <= i < j < |s.log| && s.log[i].h.key.id == id && s.log[j].h.key.id == id
      ensures Serial(s.log[i].h.key.attempt, s.log[i].n, bound) != Serial(s.log[j].h.key.attempt, s.log[j].n, bound)
    {
      SerialApart(s.log[i].h.key.attempt, s.log[j].h.key.attempt, s.log[i].n, s.log[j].n, bound);
    }
    CountAtMost(s.log, (u: Submission) => u.h.key.id == id, (u: Submission) => Serial(u.h.key.attempt, u.n, bound), attempts * bound);
    BudgetProduct(attempts, bound);
  }

  lemma InBudget(s: Sys, i: nat)
    requires Inv(s) && i < |s.log|
    ensures var k := s.log[i].h.key;
      && k.id.subject.declaration.execution.Some?
      && 1 <= k.attempt <= k.id.subject.declaration.execution.value.AttemptBudget()
      && 1 <= s.log[i].n <= k.id.subject.declaration.execution.value.SendBudget()
  {
    hide EnginesOk, EpochsOk, PendingApart, SentOk, JobsOk, AllReleasedOk, StillStands, AttemptsContiguous, OccupancyExclusive, EpisodesContiguous;
    assert SubmissionOk(s.journal.recs, s.log[i]);
    assert Coherent(s.log[i].h.key, s.journal.recs[s.log[i].h.key]);
  }

  lemma BudgetProduct(attempts: nat, bound: nat)
    requires attempts <= 3 && bound <= 5
    ensures attempts * bound <= 15
  {
    assert attempts * bound <= 3 * bound;
  }

  // ── episodes ──────────────────────────────────────────────────────────────

  /** For each subject the recovered proposals are exactly episodes 1..k and no
      record lies beyond episode k + 1. */
  lemma EpisodesAreContiguous(s: Sys, subject: ProposalSubject)
    requires Reachable(s)
    ensures var done := RecoveredEpisodes(s.journal.recs, subject);
      && (forall j: nat :: EpisodeRecovered(s.journal.recs, subject, j) <==> 1 <= j <= |done|)
      && (forall k :: k in s.journal.recs && k.id.subject == subject ==> 1 <= k.id.episode <= |done| + 1)
  {
    ReachableInv(s);
    hide EnginesOk, EpochsOk, PendingApart, SentOk, JobsOk, AllReleasedOk, LogOk, RecoveredEpisodes, EpisodeRecovered;
    RecoveredAreInitial(s.journal.recs, subject);
    forall k | k in s.journal.recs && k.id.subject == subject
      ensures 1 <= k.id.episode <= |RecoveredEpisodes(s.journal.recs, subject)| + 1
    {
      NoRecordBeyondNext(s.journal.recs, k);
    }
  }

  /** The proposals a step derives are never ones that have recovered before. */
  lemma RecoveredNeverDerivedAgain(s: Sys, props: map<ProposalId, Proposal>, id: ProposalId)
    requires Reachable(s) && WellDerived(props, s.journal.recs) && id in props
    ensures !EpisodeRecovered(s.journal.recs, id.subject, id.episode)
  {
    ReachableInv(s);
    DerivedIsNew(s.journal.recs, props, id);
  }

  // ── fencing ───────────────────────────────────────────────────────────────

  /** Once a newer epoch has been issued, no write of an older engine is accepted. */
  lemma OvertakenEngineCannotPersist(s: Sys, e: nat, next: Record)
    requires Inv(s) && CanWrite(s, e, next)
    ensures forall f :: f != e && !EngAt(s, f).Off? ==> EngAt(s, f).epoch < EngAt(s, e).epoch
  {
    WriterIsNewest(s, e, next);
    hide JournalOk, EnginesOk, PendingApart, SentOk, JobsOk, AllReleasedOk, LogOk, CanWrite;
    forall f | f != e && !EngAt(s, f).Off? ensures EngAt(s, f).epoch < EngAt(s, e).epoch {
      assert EngAt(s, f).epoch != EngAt(s, e).epoch;
    }
  }
}
