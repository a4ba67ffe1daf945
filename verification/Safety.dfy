/** The invariant of the action protocol over every interleaving of engines,
    crashes, takeovers, lost receipts and late sends, and what follows from it. */
module Safety {
  import opened Wrappers
  import opened OpsTypes
  import opened Profiles
  import opened ActionTypes
  import opened Journal
  import opened Actors
  import opened EngineRules
  import opened Protocol
  import opened JournalSafety

  // ── the invariant ─────────────────────────────────────────────────────────

  /** Epochs are issued once: no two engines hold the same one. */
  ghost predicate EpochsOk(s: Sys) {
    && (forall e {:trigger EngAt(s, e)} :: !EngAt(s, e).Off? ==> EngAt(s, e).epoch <= s.journal.epoch)
    && (forall e, f {:trigger EngAt(s, e), EngAt(s, f)} ::
          e != f && !EngAt(s, e).Off? && !EngAt(s, f).Off? ==> EngAt(s, e).epoch != EngAt(s, f).epoch)
  }

  /** What an engine remembers of the journal is still so: keys stay, intents
      never change, and send counts only grow. */
  ghost predicate LocalOk(recs: map<Key, Record>, local: map<Key, Record>) {
    forall k {:trigger local[k]} {:trigger k in local} :: k in local ==>
      k in recs && local[k].key == k && local[k].intent == recs[k].intent && 1 <= local[k].sends <= recs[k].sends
  }

  ghost predicate PropsOk(recs: map<Key, Record>, props: map<ProposalId, Proposal>) {
    forall id {:trigger props[id]} {:trigger id in props} :: id in props ==>
      && props[id].id == id && WellBuilt(props[id]) && id.episode >= 1
      && forall j: nat {:trigger EpisodeRecovered(recs, id.subject, j)} :: 1 <= j < id.episode ==> EpisodeRecovered(recs, id.subject, j)
  }

  /** A definitive answer in hand is what the provider holds, for good. */
  ghost predicate Truthful(a: ActorState, k: Key, res: Result) {
    && res.key == k
    && (res.state == ResultSucceeded || res.state == ResultFailed || res.state == ResultRefused ==>
         k in a.jobs && StateOf(a.jobs[k].b) == res.state)
  }

  ghost predicate Logged(log: seq<Submission>, k: Key, n: nat) {
    exists i :: 0 <= i < |log| && log[i].h.key == k && log[i].n == n
  }

  ghost predicate PcOk(actors: map<string, ActorState>, log: seq<Submission>, g: Eng)
    requires g.Busy?
  {
    match g.pc
    case Ready => true
    case Polled(k, answer) =>
      && k in g.local && g.local[k].phase.Occupies()
      && (answer.Some? ==> Truthful(JobsAt(actors, g.local[k].intent.provider), k, answer.value))
    case Sending(k, seen) =>
      && k in g.local && g.local[k].phase == Dispatching
      && StillStands(g.inp, map[], g.local[k]) && !Logged(log, k, g.local[k].sends)
      && FirstGated(g.inp, seen, k.id, g.local[k].sends)
    case Waiting(k, h) => k in g.local && g.local[k].phase == Dispatching && h.key == k
  }

  function JobsAt(actors: map<string, ActorState>, p: string): ActorState {
    if p in actors then actors[p] else NewActor
  }

  /** An engine with the newest epoch sees the journal exactly. */
  ghost predicate EngineOk(s: Sys, g: Eng) {
    g.Busy? ==>
      && (g.epoch == s.journal.epoch ==> g.local == s.journal.recs)
      && LocalOk(s.journal.recs, g.local) && PropsOk(s.journal.recs, g.inp.props) && g.inp.now > 0
      && PcOk(s.actors, s.log, g)
  }

  ghost predicate EnginesOk(s: Sys) {
    forall e {:trigger EngAt(s, e)} :: EngineOk(s, EngAt(s, e))
  }

  /** Two engines about to send the same attempt carry different send numbers. */
  ghost predicate PendingApart(s: Sys) {
    forall e, f {:trigger EngAt(s, e), EngAt(s, f)} ::
      e != f && PendingKey(EngAt(s, e)).Some? && PendingKey(EngAt(s, e)) == PendingKey(EngAt(s, f)) ==>
        PendingSend(EngAt(s, e)) != PendingSend(EngAt(s, f))
  }

  function PendingKey(g: Eng): Option<Key> {
    if g.Busy? && g.pc.Sending? && g.pc.key in g.local then Some(g.pc.key) else None
  }

  function PendingSend(g: Eng): nat {
    if PendingKey(g).Some? then g.local[g.pc.key].sends else 0
  }

  ghost predicate JobOk(recs: map<Key, Record>, p: string, k: Key, j: Job) {
    k in recs && recs[k].intent.provider == p && j.target == TargetOfKey(k) && j.digest == recs[k].intent.digest
  }

  /** Every job was handed off under a record. */
  ghost predicate JobsOk(recs: map<Key, Record>, actors: map<string, ActorState>) {
    forall p, k {:trigger JobsAt(actors, p), k in recs} {:trigger k in JobsAt(actors, p).jobs} ::
      k in JobsAt(actors, p).jobs ==> JobOk(recs, p, k, JobsAt(actors, p).jobs[k])
  }

  ghost predicate ReleasedOk(actors: map<string, ActorState>, k: Key, r: Record) {
    r.phase.Occupies() || (k in JobsAt(actors, r.intent.provider).jobs && !Live(JobsAt(actors, r.intent.provider), k))
  }

  /** A record that no longer holds its target belongs to a job that has ended or was refused. */
  ghost predicate AllReleasedOk(recs: map<Key, Record>, actors: map<string, ActorState>) {
    forall k {:trigger recs[k]} {:trigger k in recs} :: k in recs ==> ReleasedOk(actors, k, recs[k])
  }

  ghost predicate PacketOk(recs: map<Key, Record>, p: Packet) {
    && p.h.key in recs && recs[p.h.key].intent.provider == p.provider
    && p.h.digest == recs[p.h.key].intent.digest && p.h.target.uid == TargetOfKey(p.h.key)
  }

  ghost predicate SentOk(recs: map<Key, Record>, sent: set<Packet>) {
    forall p {:trigger PacketOk(recs, p)} {:trigger p in sent} :: p in sent ==> PacketOk(recs, p)
  }

  /** The handoff asks for what the attempt was persisted with. */
  ghost predicate HandsOff(h: Handoff, i: Intent) {
    h.owner == i.owner && h.action == i.action && h.for_ == i.for_ && h.target == i.binding.target && h.expected == i.expected
  }

  /** The send was made for a standing proposal: current digest, passing gates,
      and the attempt's own approval still counting at that instant. */
  ghost predicate SubmissionOk(recs: map<Key, Record>, u: Submission) {
    && u.h.key in recs && u.provider == recs[u.h.key].intent.provider
    && 1 <= u.n <= recs[u.h.key].sends
    && u.h.approval == recs[u.h.key].intent.approval && u.h.digest == recs[u.h.key].intent.digest
    && HandsOff(u.h, recs[u.h.key].intent)
    && StillStands(u.inp, map[], recs[u.h.key])
    && FirstGated(u.inp, u.seen, u.h.key.id, u.n)
  }

  ghost predicate LogOk(recs: map<Key, Record>, log: seq<Submission>) {
    && (forall i {:trigger log[i]} :: 0 <= i < |log| ==> SubmissionOk(recs, log[i]))
    && (forall i, j {:trigger log[i], log[j]} :: 0 <= i < j < |log| && log[i].h.key == log[j].h.key ==> log[i].n != log[j].n)
  }

  ghost predicate Inv(s: Sys) {
    && JournalOk(s.journal.recs) && EpochsOk(s) && EnginesOk(s) && PendingApart(s)
    && JobsOk(s.journal.recs, s.actors) && AllReleasedOk(s.journal.recs, s.actors)
    && SentOk(s.journal.recs, s.sent) && LogOk(s.journal.recs, s.log)
  }

  lemma InitInv(s: Sys)
    requires Init(s)
    ensures Inv(s)
  {
  }

  // ── growth of the journal ─────────────────────────────────────────────────

  /** What any write leaves as it was. */
  ghost predicate Grows(recs: map<Key, Record>, recs': map<Key, Record>) {
    forall k {:trigger recs[k]} {:trigger k in recs} :: k in recs ==>
      && k in recs' && recs'[k].intent == recs[k].intent && recs[k].sends <= recs'[k].sends
      && (recs[k].phase.Occupies() || recs'[k].phase == recs[k].phase)
      && (recs[k].recovery.Final() ==> recs'[k].recovery == recs[k].recovery)
  }

  lemma GrowsEpisode(recs: map<Key, Record>, recs': map<Key, Record>, subject: ProposalSubject, j: nat)
    requires Grows(recs, recs') && EpisodeRecovered(recs, subject, j)
    ensures EpisodeRecovered(recs', subject, j)
  {
    var l :| l in recs && l.id == ProposalId(subject, j) && recs[l].recovery == Recovered;
    assert l in recs' && recs'[l].recovery == Recovered;
  }

  lemma GrowsProps(recs: map<Key, Record>, recs': map<Key, Record>, props: map<ProposalId, Proposal>)
    requires Grows(recs, recs') && PropsOk(recs, props)
    ensures PropsOk(recs', props)
  {
    hide WellBuilt, EpisodeRecovered, Grows;
    forall id, j: nat | id in props && 1 <= j < id.episode
      ensures EpisodeRecovered(recs', id.subject, j)
    {
      assert props[id].id == id;
      GrowsEpisode(recs, recs', id.subject, j);
    }
  }

  lemma GrowsLocal(recs: map<Key, Record>, recs': map<Key, Record>, local: map<Key, Record>)
    requires Grows(recs, recs') && LocalOk(recs, local)
    ensures LocalOk(recs', local)
  {
  }

  lemma GrowsJobs(recs: map<Key, Record>, recs': map<Key, Record>, actors: map<string, ActorState>)
    requires Grows(recs, recs') && JobsOk(recs, actors)
    ensures JobsOk(recs', actors)
  {
    hide JobsAt;
    forall p, k | k in JobsAt(actors, p).jobs
      ensures JobOk(recs', p, k, JobsAt(actors, p).jobs[k])
    {
      assert JobOk(recs, p, k, JobsAt(actors, p).jobs[k]);
    }
  }

  lemma GrowsSent(recs: map<Key, Record>, recs': map<Key, Record>, sent: set<Packet>)
    requires Grows(recs, recs') && SentOk(recs, sent)
    ensures SentOk(recs', sent)
  {
    forall p | p in sent ensures PacketOk(recs', p) {
      assert PacketOk(recs, p);
    }
  }

  lemma StandsForIntent(inp: StepInput, local: map<Key, Record>, r: Record, r': Record)
    requires r.key == r'.key && r.intent == r'.intent
    ensures StillStands(inp, local, r) == StillStands(inp, map[], r')
  {
    hide Authorises, Authorised;
  }

  lemma GrowsLog(recs: map<Key, Record>, recs': map<Key, Record>, log: seq<Submission>)
    requires Grows(recs, recs') && LogOk(recs, log) && AllCoherent(recs) && AllCoherent(recs')
    ensures LogOk(recs', log)
  {
    hide StillStands, FirstGated;
    forall i | 0 <= i < |log| ensures SubmissionOk(recs', log[i]) {
      var u := log[i];
      assert SubmissionOk(recs, u);
      assert Coherent(u.h.key, recs[u.h.key]) && Coherent(u.h.key, recs'[u.h.key]);
      StandsForIntent(u.inp, map[], recs[u.h.key], recs'[u.h.key]);
    }
  }

  // ── steps that change one engine only ─────────────────────────────────────

  lemma EnginesKept(s: Sys, t: Sys, e: nat)
    requires EnginesOk(s)
    requires t.journal == s.journal && t.actors == s.actors && t.log == s.log
    requires forall f :: f != e ==> EngAt(t, f) == EngAt(s, f)
    requires EngineOk(t, EngAt(t, e))
    ensures EnginesOk(t)
  {
    hide LocalOk, PropsOk, PcOk;
    forall f ensures EngineOk(t, EngAt(t, f)) {
      assert EngineOk(s, EngAt(s, f));
    }
  }

  lemma EngineOnly(s: Sys, t: Sys, e: nat, g: Eng)
    requires Inv(s) && t == s.(engines := s.engines[e := g])
    requires !g.Off? ==> !EngAt(s, e).Off? && g.epoch == EngAt(s, e).epoch
    requires EngineOk(s, g) && PendingKey(g).None?
    ensures Inv(t)
  {
    hide JournalOk, JobsOk, AllReleasedOk, SentOk, LogOk, LocalOk, PropsOk, PcOk, PendingSend;
    forall f ensures EngAt(t, f) == if f == e then g else EngAt(s, f) { }
    EnginesKept(s, t, e);
  }

  lemma BeginInv(s: Sys, e: nat, inp: StepInput)
    requires Inv(s) && Enabled(s, Begin(e, inp))
    ensures Inv(Apply(s, Begin(e, inp)))
  {
    hide EnginesOk, JobsOk, AllReleasedOk, SentOk, LogOk, WellBuilt, PendingApart, EpochsOk, RecoveredEpisodes;
    var recs := s.journal.recs;
    forall id | id in inp.props
      ensures id.episode >= 1 && forall j: nat :: 1 <= j < id.episode ==> EpisodeRecovered(recs, id.subject, j)
    {
      DerivedIsNew(recs, inp.props, id);
    }
    forall k | k in recs ensures recs[k].key == k && 1 <= recs[k].sends {
      assert Coherent(k, recs[k]);
    }
    EngineOnly(s, Apply(s, Begin(e, inp)), e, Busy(EngAt(s, e).epoch, inp, recs, Ready));
  }

  lemma PollInv(s: Sys, e: nat, k: Key, answered: bool)
    requires Inv(s) && Enabled(s, Poll(e, k, answered))
    ensures Inv(Apply(s, Poll(e, k, answered)))
  {
    hide JournalOk, JobsOk, AllReleasedOk, SentOk, LogOk, PropsOk, PendingApart, EpochsOk;
    var g := EngAt(s, e);
    assert EngineOk(s, g);
    var answer := if answered then Some(AnswerTo(s, g.local[k])) else None;
    EngineOnly(s, Apply(s, Poll(e, k, answered)), e, Busy(g.epoch, g.inp, g.local, Polled(k, answer)));
  }

  lemma LocalEventInv(s: Sys, a: Action)
    requires Inv(s) && Enabled(s, a) && (a.Finish? || a.Crash? || a.Skip? || a.ReceiptLost?)
    ensures Inv(Apply(s, a))
  {
    hide JournalOk, JobsOk, AllReleasedOk, SentOk, LogOk, LocalOk, PropsOk, PendingApart, EpochsOk;
    var g := EngAt(s, a.e);
    assert EngineOk(s, g);
    var g' := if a.Finish? then Idle(g.epoch) else if a.Crash? then Off else Busy(g.epoch, g.inp, g.local, Ready);
    EngineOnly(s, Apply(s, a), a.e, g');
  }

  lemma TakeEpochInv(s: Sys, e: nat)
    requires Inv(s) && Enabled(s, TakeEpoch(e))
    ensures Inv(Apply(s, TakeEpoch(e)))
  {
    hide JournalOk, JobsOk, AllReleasedOk, SentOk, LogOk, LocalOk, PropsOk, PcOk, PendingSend;
    var t := Apply(s, TakeEpoch(e));
    forall f ensures EngAt(t, f) == if f == e then Idle(s.journal.epoch + 1) else EngAt(s, f) { }
    forall f ensures EngineOk(t, EngAt(t, f)) {
      assert EngineOk(s, EngAt(s, f));
    }
  }

  lemma TickInv(s: Sys, now: Time)
    requires Inv(s) && Enabled(s, Tick(now))
    ensures Inv(Apply(s, Tick(now)))
  {
    hide JournalOk, JobsOk, AllReleasedOk, SentOk, LogOk, LocalOk, PropsOk, PcOk, PendingKey, PendingSend;
    var t := Apply(s, Tick(now));
    forall f ensures EngAt(t, f) == EngAt(s, f) { }
    forall f ensures EngineOk(t, EngAt(t, f)) {
      assert EngineOk(s, EngAt(s, f));
    }
  }

  // ── writes ────────────────────────────────────────────────────────────────

  /** Only the newest engine can write, and it knows the journal exactly. */
  lemma WriterIsNewest(s: Sys, e: nat, next: Record)
    requires Inv(s) && CanWrite(s, e, next)
    ensures EngAt(s, e).Busy? && EngAt(s, e).epoch == s.journal.epoch && EngAt(s, e).local == s.journal.recs
    ensures next.key in s.journal.recs ==> s.journal.recs[next.key].version == next.version
    ensures next.key !in s.journal.recs ==> next.version == 0
  {
    hide JournalOk, JobsOk, AllReleasedOk, SentOk, LogOk, LocalOk, PropsOk, PcOk, PendingApart;
    assert EngineOk(s, EngAt(s, e));
  }

  /** The engines other than the writer. */
  lemma OthersKept(s: Sys, t: Sys, e: nat, f: nat)
    requires Inv(s) && EngAt(s, e).Busy? && EngAt(s, e).epoch == s.journal.epoch && f != e
    requires t.actors == s.actors && t.log == s.log && t.journal.epoch == s.journal.epoch
    requires EngAt(t, f) == EngAt(s, f) && Grows(s.journal.recs, t.journal.recs)
    ensures EngineOk(t, EngAt(t, f))
  {
    hide JournalOk, JobsOk, AllReleasedOk, SentOk, LogOk, LocalOk, PropsOk, PcOk, PendingApart, Grows;
    var g := EngAt(s, f);
    assert EngineOk(s, g);
    if g.Busy? {
      GrowsLocal(s.journal.recs, t.journal.recs, g.local);
      GrowsProps(s.journal.recs, t.journal.recs, g.inp.props);
      assert g.epoch != EngAt(s, e).epoch;
    }
  }

  /** A send number above the journal's is pending nowhere else and was never used. */
  lemma FreshSend(s: Sys, f: nat, k: Key, n: nat)
    requires Inv(s) && (k !in s.journal.recs || s.journal.recs[k].sends < n)
    ensures PendingKey(EngAt(s, f)) == Some(k) ==> PendingSend(EngAt(s, f)) != n
    ensures !Logged(s.log, k, n)
  {
    hide JournalOk, JobsOk, AllReleasedOk, SentOk, PropsOk, PcOk, PendingApart, EpochsOk, StillStands, FirstGated;
    var g := EngAt(s, f);
    assert EngineOk(s, g);
    forall i | 0 <= i < |s.log| && s.log[i].h.key == k ensures s.log[i].n != n {
      assert SubmissionOk(s.journal.recs, s.log[i]);
    }
  }

  /** The state after a write satisfies the invariant if the journal does and
      the writer's next move is in order. */
  lemma WrittenInv(s: Sys, e: nat, next: Record, pc: Pc)
    requires Inv(s) && CanWrite(s, e, next)
    requires var t := Written(s, e, next, pc);
      && JournalOk(t.journal.recs) && Grows(s.journal.recs, t.journal.recs)
      && ReleasedOk(s.actors, next.key, next)
      && PcOk(s.actors, s.log, EngAt(t, e))
    requires pc.Ready? || (pc.Sending? && pc.key == next.key && (next.key !in s.journal.recs || s.journal.recs[next.key].sends < next.sends))
    ensures Inv(Written(s, e, next, pc))
  {
    hide JournalOk, JobsOk, AllReleasedOk, SentOk, LogOk, PropsOk, PcOk, Grows, EnginesOk, PendingApart, CanWrite;
    var t := Written(s, e, next, pc);
    WriterIsNewest(s, e, next);
    WrittenEngines(s, t, e, next, pc);
    WrittenPending(s, t, e, next, pc);
    GrowsJobs(s.journal.recs, t.journal.recs, s.actors);
    GrowsSent(s.journal.recs, t.journal.recs, s.sent);
    CoherentOf(s.journal.recs);
    CoherentOf(t.journal.recs);
    GrowsLog(s.journal.recs, t.journal.recs, s.log);
    WrittenReleased(s, t, e, next, pc);
    WrittenEpochs(s, t, e, next, pc);
  }

  lemma CoherentOf(recs: map<Key, Record>)
    requires JournalOk(recs)
    ensures AllCoherent(recs)
  {
  }

  lemma WrittenEpochs(s: Sys, t: Sys, e: nat, next: Record, pc: Pc)
    requires EpochsOk(s) && CanWrite(s, e, next) && t == Written(s, e, next, pc)
    ensures EpochsOk(t)
  {
    forall f ensures !EngAt(t, f).Off? ==> !EngAt(s, f).Off? && EngAt(t, f).epoch == EngAt(s, f).epoch { }
  }

  lemma WrittenReleased(s: Sys, t: Sys, e: nat, next: Record, pc: Pc)
    requires AllReleasedOk(s.journal.recs, s.actors) && CanWrite(s, e, next) && t == Written(s, e, next, pc)
    requires ReleasedOk(s.actors, next.key, next)
    ensures AllReleasedOk(t.journal.recs, t.actors)
  {
    hide JobsAt;
  }

  lemma WrittenEngines(s: Sys, t: Sys, e: nat, next: Record, pc: Pc)
    requires Inv(s) && CanWrite(s, e, next) && t == Written(s, e, next, pc)
    requires EngAt(s, e).epoch == s.journal.epoch && EngAt(s, e).local == s.journal.recs
    requires JournalOk(t.journal.recs) && Grows(s.journal.recs, t.journal.recs) && PcOk(s.actors, s.log, EngAt(t, e))
    ensures EnginesOk(t)
  {
    hide JobsOk, AllReleasedOk, SentOk, LogOk, PcOk, PendingApart, EpochsOk, Grows, PropsOk;
    forall f ensures EngineOk(t, EngAt(t, f)) {
      if f == e {
        assert EngineOk(s, EngAt(s, e));
        GrowsProps(s.journal.recs, t.journal.recs, EngAt(s, e).inp.props);
        assert EngAt(t, e).local == t.journal.recs;
        SelfLocal(t.journal.recs);
      } else {
        OthersKept(s, t, e, f);
      }
    }
  }

  lemma SelfLocal(recs: map<Key, Record>)
    requires JournalOk(recs)
    ensures LocalOk(recs, recs)
  {
    forall k | k in recs ensures recs[k].key == k && 1 <= recs[k].sends {
      assert Coherent(k, recs[k]);
    }
  }

  lemma WrittenPending(s: Sys, t: Sys, e: nat, next: Record, pc: Pc)
    requires Inv(s) && CanWrite(s, e, next) && t == Written(s, e, next, pc)
    requires pc.Ready? || (pc.Sending? && pc.key == next.key && (next.key !in s.journal.recs || s.journal.recs[next.key].sends < next.sends))
    ensures PendingApart(t)
  {
    hide JournalOk, JobsOk, AllReleasedOk, SentOk, LogOk, EnginesOk, EpochsOk;
    forall f | f != e
      ensures EngAt(t, f) == EngAt(s, f)
      ensures pc.Sending? && PendingKey(EngAt(s, f)) == Some(next.key) ==> PendingSend(EngAt(s, f)) != next.sends
    {
      if pc.Sending? {
        FreshSend(s, f, next.key, next.sends);
      }
    }
    assert PendingKey(EngAt(t, e)) == if pc.Sending? then Some(next.key) else None;
    assert pc.Sending? ==> PendingSend(EngAt(t, e)) == next.sends;
  }

  /** A write that evolves a record the engine holds. */
  lemma EvolvedInv(s: Sys, e: nat, next: Record, pc: Pc)
    requires Inv(s) && CanWrite(s, e, next) && next.key in EngAt(s, e).local
    requires Evolves(EngAt(s, e).local[next.key], next) && ReleasedOk(s.actors, next.key, next)
    requires pc.Ready? || (pc.Sending? && pc.key == next.key && EngAt(s, e).local[next.key].sends < next.sends && next.sends > 1
      && next.phase == Dispatching && StillStands(EngAt(s, e).inp, map[], next))
    ensures Inv(Written(s, e, next, pc))
  {
    hide JournalOk, JobsOk, AllReleasedOk, SentOk, LogOk, EnginesOk, EpochsOk, PendingApart, LocalOk, PropsOk, CanWrite, StillStands, FirstGated, Coherent;
    var t := Written(s, e, next, pc);
    WriterIsNewest(s, e, next);
    var k := next.key;
    var recs := s.journal.recs;
    var r' := t.journal.recs[k];
    UpdateKeepsJournal(recs, k, r');
    if pc.Sending? {
      FreshSend(s, e, k, next.sends);
      LaterGated(EngAt(s, e).inp, pc.seen, k.id, next.sends);
      StandsForIntent(EngAt(s, e).inp, map[], next, r');
    }
    WrittenInv(s, e, next, pc);
  }

  lemma AdoptStoredInv(s: Sys, e: nat)
    requires Inv(s) && Enabled(s, AdoptStored(e))
    ensures Inv(Apply(s, AdoptStored(e)))
  {
    hide JournalOk, JobsOk, SentOk, LogOk, EpochsOk, PendingApart, PropsOk, CanWrite;
    var g := EngAt(s, e);
    assert EngineOk(s, g);
    var next := Adopted(g).value;
    WriterIsNewest(s, e, next);
    HeldRecord(s, g.pc.key);
    assert ReleasedOk(s.actors, g.pc.key, g.local[g.pc.key]);
    EvolvedInv(s, e, next, Ready);
  }

  /** What the journal says of any record. */
  lemma HeldRecord(s: Sys, k: Key)
    requires Inv(s)
    ensures k in s.journal.recs ==> Coherent(k, s.journal.recs[k]) && ReleasedOk(s.actors, k, s.journal.recs[k])
  {
    hide JobsOk, SentOk, LogOk, EnginesOk, EpochsOk, PendingApart, ReleasedOk, Coherent;
  }

  lemma AdvanceStoredInv(s: Sys, e: nat)
    requires Inv(s) && Enabled(s, AdvanceStored(e))
    ensures Inv(Apply(s, AdvanceStored(e)))
  {
    hide JournalOk, JobsOk, SentOk, LogOk, EpochsOk, PendingApart, PropsOk, CanWrite, AllReleasedOk, StillStands, FirstGated;
    var g := EngAt(s, e);
    assert EngineOk(s, g);
    var plan := PlanOf(g);
    WriterIsNewest(s, e, plan.next);
    var r := g.local[g.pc.key];
    HeldRecord(s, g.pc.key);
    if plan.Resend? {
      StandsForIntent(g.inp, g.local, r, plan.next);
    }
    EvolvedInv(s, e, plan.next, if plan.Resend? then Sending(plan.next.key, g.local) else Ready);
  }

  lemma RecoverStoredInv(s: Sys, e: nat, k: Key, rec: Recovery)
    requires Inv(s) && Enabled(s, RecoverStored(e, k, rec))
    ensures Inv(Apply(s, RecoverStored(e, k, rec)))
  {
    hide JournalOk, JobsOk, SentOk, LogOk, EpochsOk, PendingApart, PropsOk, CanWrite, AllReleasedOk;
    var g := EngAt(s, e);
    var next := g.local[k].(recovery := rec);
    assert EngineOk(s, g);
    assert next.key == k;
    WriterIsNewest(s, e, next);
    HeldRecord(s, k);
    EvolvedInv(s, e, next, Ready);
  }

  lemma ReceiptStoredInv(s: Sys, e: nat)
    requires Inv(s) && Enabled(s, ReceiptStored(e))
    ensures Inv(Apply(s, ReceiptStored(e)))
  {
    hide JournalOk, JobsOk, SentOk, LogOk, EpochsOk, PendingApart, PropsOk, CanWrite, AllReleasedOk;
    var g := EngAt(s, e);
    assert EngineOk(s, g);
    var r := g.local[g.pc.key];
    var rc := ReceiptFor(ActorAt(s, r.intent.provider), g.pc.h);
    var next := AfterReceipt(r, rc.accepted, g.inp.now);
    WriterIsNewest(s, e, next);
    HeldRecord(s, g.pc.key);
    EvolvedInv(s, e, next, Ready);
  }

  /** The journal with the new attempt in it. */
  lemma DecideJournal(recs: map<Key, Record>, g: Eng, id: ProposalId, n: nat, a: Approval, d: Option<Decision>)
    requires JournalOk(recs) && g.Busy? && g.local == recs && DecideGuard(g, id, n, a, d) && PropsOk(recs, g.inp.props)
    ensures var r := NewRecord(g.inp, g.inp.props[id], n, g.epoch, a, d).(version := 1);
      Key(id, n) !in recs && JournalOk(recs[Key(id, n) := r]) && Grows(recs, recs[Key(id, n) := r])
  {
    hide LocalOk, WellBuilt, Authorised, GatesPass, Coherent, NextAttempt, AllCoherent, AttemptsContiguous, OccupancyExclusive, EpisodesContiguous;
    var p := g.inp.props[id];
    assert p.id == id;
    var r := NewRecord(g.inp, p, n, g.epoch, a, d).(version := 1);
    NewCoherent(recs, g, id, n, a, d, g.epoch, 1);
    NewAttempts(recs, id, n, r);
    GateHoldsTarget(g, p);
    NewTargetUid(p);
    NewOccupancy(recs, g.inp, id, n, r);
    NewEpisodes(recs, id, n, r);
  }

  lemma DecideStoredInv(s: Sys, a: Action)
    requires Inv(s) && a.DecideStored? && Enabled(s, a)
    ensures Inv(Apply(s, a))
  {
    hide JobsOk, SentOk, LogOk, EpochsOk, PendingApart, CanWrite, AllReleasedOk, LocalOk, WellBuilt, Authorised, GatesPass, JournalOk, NextAttempt;
    hide StillStands, FirstGated, Grows;
    var g := EngAt(s, a.e);
    assert EngineOk(s, g);
    var p := g.inp.props[a.id];
    assert p.id == a.id;
    var k := Key(a.id, a.n);
    var r := NewRecord(g.inp, p, a.n, g.epoch, a.approval, a.counted);
    WriterIsNewest(s, a.e, r);
    DecideJournal(s.journal.recs, g, a.id, a.n, a.approval, a.counted);
    FreshSend(s, a.e, k, 1);
    NewStands(g, p, r, a.approval, a.counted);
    NewGated(g, p);
    StandsForIntent(g.inp, map[], r, r.(version := 1));
    WrittenInv(s, a.e, r, Sending(k, g.local));
  }

  lemma GateHoldsTarget(g: Eng, p: Proposal)
    requires g.Busy? && p.response.execution.Some? && GatesPass(g.inp, g.local, p, false)
    ensures !TargetHeld(g.local, p.binding.target.uid, p.id)
  {
  }

  lemma NewTargetUid(p: Proposal)
    requires WellBuilt(p)
    ensures p.id.subject.binding.target.uid == p.binding.target.uid
  {
  }

  lemma NewStands(g: Eng, p: Proposal, r: Record, a: Approval, d: Option<Decision>)
    requires g.Busy? && p.id in g.inp.props && g.inp.props[p.id] == p && p.response.execution.Some?
    requires GatesPass(g.inp, g.local, p, false) && Authorised(g.inp, p, a, d)
    requires r == NewRecord(g.inp, p, r.key.attempt, g.epoch, a, d)
    ensures StillStands(g.inp, map[], r)
  {
    hide Authorised, Authorises;
  }

  lemma NewGated(g: Eng, p: Proposal)
    requires g.Busy? && p.id in g.inp.props && g.inp.props[p.id] == p && p.response.execution.Some?
    requires GatesPass(g.inp, g.local, p, false)
    ensures FirstGated(g.inp, g.local, p.id, 1)
  {
  }

  /** A resend is no first send. */
  lemma LaterGated(inp: StepInput, seen: map<Key, Record>, id: ProposalId, n: nat)
    requires n > 1
    ensures FirstGated(inp, seen, id, n)
  {
  }

  // ── sends and providers ───────────────────────────────────────────────────

  lemma SubmitInv(s: Sys, e: nat)
    requires Inv(s) && Enabled(s, Submit(e))
    ensures Inv(Apply(s, Submit(e)))
  {
    hide JournalOk, JobsOk, AllReleasedOk, SentOk, LogOk, EnginesOk, PendingApart, PropsOk, StillStands, FirstGated;
    var t := Apply(s, Submit(e));
    SubmitLog(s, t, e);
    SubmitEngines(s, t, e);
    SubmitPending(s, t, e);
  }

  /** What an engine about to send knows. */
  lemma SenderKnows(s: Sys, e: nat)
    requires Inv(s) && Enabled(s, Submit(e))
    ensures var g := EngAt(s, e);
      var k := g.pc.key;
      && k in s.journal.recs && Coherent(k, s.journal.recs[k]) && g.local[k].key == k && g.local[k].intent == s.journal.recs[k].intent
      && 1 <= g.local[k].sends <= s.journal.recs[k].sends
      && StillStands(g.inp, map[], s.journal.recs[k]) && !Logged(s.log, k, g.local[k].sends)
      && FirstGated(g.inp, g.pc.seen, k.id, g.local[k].sends)
  {
    hide JobsOk, AllReleasedOk, PendingApart, PropsOk, StillStands, FirstGated, EpochsOk, LogOk, SentOk, Coherent;
    var g := EngAt(s, e);
    assert EngineOk(s, g);
    var k := g.pc.key;
    HeldRecord(s, k);
    StandsForKey(g.inp, k, g.local[k], s.journal.recs[k]);
  }

  lemma StandsForKey(inp: StepInput, k: Key, r: Record, r': Record)
    requires r.key == k && r.intent == r'.intent && Coherent(k, r')
    ensures StillStands(inp, map[], r) == StillStands(inp, map[], r')
  {
    StandsForIntent(inp, map[], r, r');
  }

  lemma SubmitLog(s: Sys, t: Sys, e: nat)
    requires Inv(s) && Enabled(s, Submit(e)) && t == Apply(s, Submit(e))
    ensures LogOk(t.journal.recs, t.log) && SentOk(t.journal.recs, t.sent)
  {
    hide JobsOk, AllReleasedOk, PendingApart, PropsOk, StillStands, FirstGated, EpochsOk, EnginesOk, JournalOk, Coherent;
    SenderKnows(s, e);
    var g := EngAt(s, e);
    var k := g.pc.key;
    var r := g.local[k];
    var recs := s.journal.recs;
    CoherentUid(k, recs[k]);
    assert SubmissionOk(recs, Submission(r.intent.provider, HandoffOf(r), r.sends, g.inp, g.pc.seen));
    forall i | 0 <= i < |s.log| && s.log[i].h.key == k ensures s.log[i].n != r.sends {
      assert !Logged(s.log, k, r.sends);
    }
    assert PacketOk(recs, Packet(r.intent.provider, HandoffOf(r)));
  }

  lemma CoherentUid(k: Key, r: Record)
    requires Coherent(k, r)
    ensures r.intent.binding.target.uid == TargetOfKey(k)
  {
  }

  lemma SubmitEngines(s: Sys, t: Sys, e: nat)
    requires Inv(s) && Enabled(s, Submit(e)) && t == Apply(s, Submit(e))
    ensures EnginesOk(t) && EpochsOk(t)
  {
    hide JournalOk, JobsOk, AllReleasedOk, SentOk, LogOk, PropsOk, LocalOk, StillStands, FirstGated;
    var g := EngAt(s, e);
    LocalKey(s, e, g.pc.key);
    forall f ensures EngAt(t, f) == if f == e then Busy(g.epoch, g.inp, g.local, t.engines[e].pc) else EngAt(s, f) { }
    forall f ensures EngineOk(t, EngAt(t, f)) {
      assert EngineOk(s, EngAt(s, f));
      assert EngineOk(s, EngAt(s, e));
      if f != e && EngAt(s, f).Busy? && EngAt(s, f).pc.Sending? {
        NotLogged(s, t, e, f);
      }
    }
  }

  /** The new log entry is not the send another engine is about to make. */
  lemma NotLogged(s: Sys, t: Sys, e: nat, f: nat)
    requires Enabled(s, Submit(e)) && t == Apply(s, Submit(e)) && f != e
    requires PendingApart(s) && EngAt(s, f).Busy? && EngAt(s, f).pc.Sending? && EngAt(s, f).pc.key in EngAt(s, f).local
    requires EngAt(s, e).local[EngAt(s, e).pc.key].key == EngAt(s, e).pc.key
    requires !Logged(s.log, EngAt(s, f).pc.key, EngAt(s, f).local[EngAt(s, f).pc.key].sends)
    ensures !Logged(t.log, EngAt(s, f).pc.key, EngAt(s, f).local[EngAt(s, f).pc.key].sends)
  {
    var g, h := EngAt(s, e), EngAt(s, f);
    assert PendingKey(g) == Some(g.pc.key) && PendingKey(h) == Some(h.pc.key);
    forall i | 0 <= i < |t.log| && t.log[i].h.key == h.pc.key ensures t.log[i].n != h.local[h.pc.key].sends {
      if i < |s.log| {
        assert s.log[i] == t.log[i];
      } else {
        assert PendingSend(g) == g.local[g.pc.key].sends && PendingSend(h) == h.local[h.pc.key].sends;
      }
    }
  }

  lemma LocalKey(s: Sys, e: nat, k: Key)
    requires EnginesOk(s) && EngAt(s, e).Busy? && k in EngAt(s, e).local
    ensures EngAt(s, e).local[k].key == k
  {
    hide PropsOk, PcOk;
    assert EngineOk(s, EngAt(s, e));
  }

  lemma SubmitPending(s: Sys, t: Sys, e: nat)
    requires PendingApart(s) && Enabled(s, Submit(e)) && t == Apply(s, Submit(e))
    ensures PendingApart(t)
  {
    forall f ensures f != e ==> EngAt(t, f) == EngAt(s, f) { }
    assert PendingKey(EngAt(t, e)).None?;
  }

  /** Providers only add jobs for known records, and no job comes back to life. */
  ghost predicate ActorGrows(a: ActorState, b: ActorState) {
    forall k {:trigger b.jobs[k]} {:trigger k in b.jobs} :: k in a.jobs ==>
      && k in b.jobs && b.jobs[k].target == a.jobs[k].target && b.jobs[k].digest == a.jobs[k].digest
      && (Live(a, k) || b.jobs[k].b == a.jobs[k].b)
  }

  lemma ActorsInv(s: Sys, t: Sys, p: string, a: ActorState)
    requires Inv(s) && t == s.(actors := s.actors[p := a])
    requires ActorGrows(ActorAt(s, p), a)
    requires forall k :: k in a.jobs && k !in ActorAt(s, p).jobs ==> JobOk(s.journal.recs, p, k, a.jobs[k])
    ensures Inv(t)
  {
    hide JournalOk, SentOk, LogOk, EnginesOk, PendingApart, JobsOk, AllReleasedOk, EpochsOk, ActorGrows;
    ActorsEngines(s, t, p, a);
    ActorsJobs(s, t, p, a);
  }

  lemma ActorsJobs(s: Sys, t: Sys, p: string, a: ActorState)
    requires Inv(s) && t == s.(actors := s.actors[p := a])
    requires ActorGrows(ActorAt(s, p), a)
    requires forall k :: k in a.jobs && k !in ActorAt(s, p).jobs ==> JobOk(s.journal.recs, p, k, a.jobs[k])
    ensures JobsOk(t.journal.recs, t.actors) && AllReleasedOk(t.journal.recs, t.actors)
  {
    hide JournalOk, SentOk, LogOk, EnginesOk, PendingApart, EpochsOk;
    forall q, k | k in JobsAt(t.actors, q).jobs
      ensures JobOk(t.journal.recs, q, k, JobsAt(t.actors, q).jobs[k])
    {
      if k in JobsAt(s.actors, q).jobs {
        assert JobOk(s.journal.recs, q, k, JobsAt(s.actors, q).jobs[k]);
      }
    }
    forall k | k in t.journal.recs ensures ReleasedOk(t.actors, k, t.journal.recs[k]) {
      assert ReleasedOk(s.actors, k, s.journal.recs[k]);
    }
  }

  lemma ActorsEngines(s: Sys, t: Sys, p: string, a: ActorState)
    requires Inv(s) && t == s.(actors := s.actors[p := a]) && ActorGrows(ActorAt(s, p), a)
    ensures EnginesOk(t) && EpochsOk(t) && PendingApart(t)
  {
    hide JournalOk, SentOk, LogOk, JobsOk, AllReleasedOk, LocalOk, PropsOk, StillStands, FirstGated, PendingKey, PendingSend;
    forall f ensures EngAt(t, f) == EngAt(s, f) { }
    forall f ensures EngineOk(t, EngAt(t, f)) {
      assert EngineOk(s, EngAt(s, f));
    }
  }

  lemma DeliverInv(s: Sys, packet: Packet, b: Behaviour)
    requires Inv(s) && Enabled(s, Deliver(packet, b))
    ensures Inv(Apply(s, Deliver(packet, b)))
  {
    hide JournalOk, LogOk, EnginesOk, PendingApart, JobsOk, AllReleasedOk, EpochsOk;
    var a := ActorAt(s, packet.provider);
    assert PacketOk(s.journal.recs, packet);
    ActorsInv(s, Apply(s, Deliver(packet, b)), packet.provider, Receive(a, packet.h, b));
  }

  lemma SettleInv(s: Sys, p: string, k: Key, b: Behaviour)
    requires Inv(s) && Enabled(s, Settle(p, k, b))
    ensures Inv(Apply(s, Settle(p, k, b)))
  {
    hide JournalOk, LogOk, EnginesOk, PendingApart, JobsOk, AllReleasedOk, EpochsOk, SentOk;
    ActorsInv(s, Apply(s, Settle(p, k, b)), p, Settled(ActorAt(s, p), k, b));
  }

  // ── every reachable state ─────────────────────────────────────────────────

  lemma StepInv(s: Sys, a: Action)
    requires Inv(s) && Enabled(s, a)
    ensures Inv(Apply(s, a))
  {
    hide Inv, Apply, Enabled;
    match a
    case TakeEpoch(e) => TakeEpochInv(s, e);
    case Begin(e, inp) => BeginInv(s, e, inp);
    case Tick(now) => TickInv(s, now);
    case Poll(e, k, answered) => PollInv(s, e, k, answered);
    case AdoptStored(e) => AdoptStoredInv(s, e);
    case AdvanceStored(e) => AdvanceStoredInv(s, e);
    case RecoverStored(e, k, rec) => RecoverStoredInv(s, e, k, rec);
    case DecideStored(_, _, _, _, _) => DecideStoredInv(s, a);
    case Submit(e) => SubmitInv(s, e);
    case Deliver(packet, b) => DeliverInv(s, packet, b);
    case ReceiptStored(e) => ReceiptStoredInv(s, e);
    case Settle(p, k, b) => SettleInv(s, p, k, b);
    case _ => LocalEventInv(s, a);
  }

  lemma {:induction false} RunInv(states: seq<Sys>, s: Sys, t: Sys)
    requires IsRun(states, s, t) && Inv(s)
    ensures Inv(t)
  {
    hide Inv, Enabled, Apply;
    var i := 0;
    while i < |states| - 1
      invariant 0 <= i < |states| && Inv(states[i])
    {
      assert Next(states[i], states[i + 1]);
      var a :| Enabled(states[i], a) && states[i + 1] == Apply(states[i], a);
      StepInv(states[i], a);
      i := i + 1;
    }
  }

  lemma ReachableInv(s: Sys)
    requires Reachable(s)
    ensures Inv(s)
  {
    hide Inv, IsRun, Init;
    var s0 :| Init(s0) && Run(s0, s);
    InitInv(s0);
    var states :| IsRun(states, s0, s);
    RunInv(states, s0, s);
  }
}
