/** The action protocol as a transition system: any number of engines share
    the fenced journal and send to providers over a network that may drop,
    delay, repeat or reorder what was sent. One transition is one journal
    operation, one provider operation, or one local event. */
module Protocol {
  import opened Wrappers
  import opened OpsTypes
  import opened Profiles
  import opened ActionTypes
  import opened Journal
  import opened Actors
  import opened EngineRules

  /** Where an engine is inside its step. */
  datatype Pc =
    | Ready
    | Polled(key: Key, answer: Option<Result>)  // about to act on the provider's answer, or on none
    | Sending(key: Key, seen: map<Key, Record>) // the handoff is persisted, not yet sent; seen: the records it was decided on
    | Waiting(key: Key, h: Handoff)             // sent, no receipt yet

  /** Off: no epoch claimed, as after a crash. Idle: between steps. Busy: in a
      step, with its inputs and its copy of the journal. */
  datatype Eng = Off | Idle(epoch: nat) | Busy(epoch: nat, inp: StepInput, local: map<Key, Record>, pc: Pc)

  /** One call of Submit: n is the send's number as the journal counts it, seen
      the engine's records when it decided on the send. */
  datatype Submission = Submission(provider: string, h: Handoff, n: nat, inp: StepInput, seen: map<Key, Record>)

  datatype Packet = Packet(provider: string, h: Handoff)

  datatype Sys = Sys(
    now: Time, journal: JournalState, actors: map<string, ActorState>, engines: map<nat, Eng>,
    sent: set<Packet>, log: seq<Submission>)

  function EngAt(s: Sys, e: nat): Eng {
    if e in s.engines then s.engines[e] else Off
  }

  function ActorAt(s: Sys, p: string): ActorState {
    if p in s.actors then s.actors[p] else NewActor
  }

  // ── proposals ─────────────────────────────────────────────────────────────

  ghost function RecoveredEpisodes(recs: map<Key, Record>, subject: ProposalSubject): set<int> {
    set k | k in recs && k.id.subject == subject && recs[k].recovery == Recovered :: k.id.episode as int
  }

  /** A proposal as `proposalOf` builds it, but for its episode. */
  ghost predicate WellBuilt(p: Proposal) {
    && p.response.execution.Some? && ExecutionBounds(p.response.execution.value)
    && p.id.subject == ProposalSubject(p.binding, p.response.action, p.response.for_, p.profile, KeyOfDeclaration(p.response))
    && p.digest.id == p.id
    && p.for_ == p.response.for_ && p.expected == p.response.execution.value.expectedImpact
  }

  /** The proposals of a step that listed recs: the episode is one more than
      the recovered proposals of the subject. */
  ghost predicate WellDerived(props: map<ProposalId, Proposal>, recs: map<Key, Record>) {
    forall id :: id in props ==>
      && props[id].id == id && WellBuilt(props[id])
      && id.episode == 1 + |RecoveredEpisodes(recs, id.subject)|
  }

  // ── transitions ───────────────────────────────────────────────────────────

  datatype Action =
    | TakeEpoch(e: nat)
    | Begin(e: nat, inp: StepInput)
    | Finish(e: nat)
    | Crash(e: nat)
    | Tick(now: Time)
    | Poll(e: nat, key: Key, answered: bool)
    | AdoptStored(e: nat)
    | AdvanceStored(e: nat)
    | Skip(e: nat)
    | RecoverStored(e: nat, key: Key, recovery: Recovery)
    | DecideStored(e: nat, id: ProposalId, n: nat, approval: Approval, counted: Option<Decision>)
    | Submit(e: nat)
    | Deliver(packet: Packet, b: Behaviour)
    | ReceiptStored(e: nat)
    | ReceiptLost(e: nat)
    | Settle(provider: string, key: Key, b: Behaviour)

  /** The journal accepts the write: the engine's epoch is the newest and its version current. */
  predicate CanWrite(s: Sys, e: nat, next: Record) {
    && EngAt(s, e).Busy?
    && Swap(s.journal, next.(fence := EngAt(s, e).epoch)).1.Stored?
  }

  /** `put`, when the journal accepts: journal and local copy get the stored record. */
  function Written(s: Sys, e: nat, next: Record, pc: Pc): Sys
    requires CanWrite(s, e, next)
  {
    var g := EngAt(s, e);
    var r := next.(fence := g.epoch, version := next.version + 1);
    s.(journal := s.journal.(recs := s.journal.recs[r.key := r]),
       engines := s.engines[e := Busy(g.epoch, g.inp, g.local[r.key := r], pc)])
  }

  function SetPc(s: Sys, e: nat, pc: Pc): Sys
    requires EngAt(s, e).Busy?
  {
    var g := EngAt(s, e);
    s.(engines := s.engines[e := Busy(g.epoch, g.inp, g.local, pc)])
  }

  /** The answer to a poll of key k by an engine that knows its record as r. */
  function AnswerTo(s: Sys, r: Record): Result {
    Answer(ActorAt(s, r.intent.provider), r.key, r.intent.digest)
  }

  /** The record after the answer, if the answer matches and changes it. */
  ghost function Adopted(g: Eng): Option<Record>
    requires g.Busy? && g.pc.Polled? && g.pc.key in g.local
  {
    var r := g.local[g.pc.key];
    match g.pc.answer
    case None => None
    case Some(a) => if Matches(r, a.key, a.fence, a.digest) then Adopt(r, a.state, g.inp.now) else None
  }

  ghost predicate Enabled(s: Sys, a: Action) {
    match a
    case TakeEpoch(e) => EngAt(s, e) == Off
    case Begin(e, inp) => EngAt(s, e).Idle? && 0 < inp.now <= s.now && WellDerived(inp.props, s.journal.recs)
    case Finish(e) => EngAt(s, e).Busy? && EngAt(s, e).pc == Ready
    case Crash(e) => true
    case Tick(now) => s.now <= now
    case Poll(e, k, answered) =>
      && EngAt(s, e).Busy? && EngAt(s, e).pc == Ready && k in EngAt(s, e).local
      && EngAt(s, e).local[k].phase.Occupies() && EngAt(s, e).local[k].fence <= EngAt(s, e).epoch
      && (answered ==> EngAt(s, e).local[k].intent.provider in EngAt(s, e).inp.registry)
    case AdoptStored(e) =>
      && EngAt(s, e).Busy? && EngAt(s, e).pc.Polled? && EngAt(s, e).pc.key in EngAt(s, e).local
      && Adopted(EngAt(s, e)).Some? && CanWrite(s, e, Adopted(EngAt(s, e)).value)
    case AdvanceStored(e) =>
      && EngAt(s, e).Busy? && EngAt(s, e).pc.Polled? && EngAt(s, e).pc.key in EngAt(s, e).local
      && PlanOf(EngAt(s, e)) != Stay && CanWrite(s, e, PlanOf(EngAt(s, e)).next)
    case Skip(e) => EngAt(s, e).Busy? && EngAt(s, e).pc.Polled?
    case RecoverStored(e, k, rec) =>
      && EngAt(s, e).Busy? && EngAt(s, e).pc == Ready && k in EngAt(s, e).local
      && EngAt(s, e).local[k].endedAt != 0 && !EngAt(s, e).local[k].recovery.Final() && rec.Final()
      && CanWrite(s, e, EngAt(s, e).local[k].(recovery := rec))
    case DecideStored(e, id, n, approval, counted) =>
      && EngAt(s, e).Busy? && EngAt(s, e).pc == Ready
      && DecideGuard(EngAt(s, e), id, n, approval, counted)
      && CanWrite(s, e, NewRecord(EngAt(s, e).inp, EngAt(s, e).inp.props[id], n, EngAt(s, e).epoch, approval, counted))
    case Submit(e) => EngAt(s, e).Busy? && EngAt(s, e).pc.Sending? && EngAt(s, e).pc.key in EngAt(s, e).local
    case Deliver(packet, b) => packet in s.sent
    case ReceiptStored(e) =>
      && EngAt(s, e).Busy? && EngAt(s, e).pc.Waiting? && EngAt(s, e).pc.key in EngAt(s, e).local
      && EngAt(s, e).pc.h.key in ActorAt(s, EngAt(s, e).local[EngAt(s, e).pc.key].intent.provider).jobs
      && var g := EngAt(s, e);
         var r := g.local[g.pc.key];
         var rc := ReceiptFor(ActorAt(s, r.intent.provider), g.pc.h);
         Matches(r, rc.key, rc.fence, rc.digest) && CanWrite(s, e, AfterReceipt(r, rc.accepted, g.inp.now))
    case ReceiptLost(e) => EngAt(s, e).Busy? && EngAt(s, e).pc.Waiting?
    case Settle(p, k, b) => true
  }

  ghost function PlanOf(g: Eng): Plan
    requires g.Busy? && g.pc.Polled? && g.pc.key in g.local
  {
    AdvancePlan(g.inp, g.local, g.local[g.pc.key], g.epoch)
  }

  /** What `decide` has established when it persists a new attempt. */
  ghost predicate DecideGuard(g: Eng, id: ProposalId, n: nat, approval: Approval, counted: Option<Decision>)
    requires g.Busy?
  {
    && id in g.inp.props && g.inp.props[id].response.execution.Some?
    && NextAttempt(g.local, id, n)
    && GatesPass(g.inp, g.local, g.inp.props[id], false)
    && Authorised(g.inp, g.inp.props[id], approval, counted)
  }

  ghost function Apply(s: Sys, a: Action): Sys
    requires Enabled(s, a)
  {
    match a
    case TakeEpoch(e) =>
      s.(journal := s.journal.(epoch := s.journal.epoch + 1), engines := s.engines[e := Idle(s.journal.epoch + 1)])
    case Begin(e, inp) => s.(engines := s.engines[e := Busy(EngAt(s, e).epoch, inp, s.journal.recs, Ready)])
    case Finish(e) => s.(engines := s.engines[e := Idle(EngAt(s, e).epoch)])
    case Crash(e) => s.(engines := s.engines[e := Off])
    case Tick(now) => s.(now := now)
    case Poll(e, k, answered) =>
      SetPc(s, e, Polled(k, if answered then Some(AnswerTo(s, EngAt(s, e).local[k])) else None))
    case AdoptStored(e) => Written(s, e, Adopted(EngAt(s, e)).value, Ready)
    case AdvanceStored(e) =>
      var plan := PlanOf(EngAt(s, e));
      Written(s, e, plan.next, if plan.Resend? then Sending(plan.next.key, EngAt(s, e).local) else Ready)
    case Skip(e) => SetPc(s, e, Ready)
    case RecoverStored(e, k, rec) => Written(s, e, EngAt(s, e).local[k].(recovery := rec), Ready)
    case DecideStored(e, id, n, approval, counted) =>
      var g := EngAt(s, e);
      Written(s, e, NewRecord(g.inp, g.inp.props[id], n, g.epoch, approval, counted), Sending(Key(id, n), g.local))
    case Submit(e) =>
      var g := EngAt(s, e);
      var r := g.local[g.pc.key];
      SetPc(s, e, Waiting(g.pc.key, HandoffOf(r)))
      .(sent := s.sent + {Packet(r.intent.provider, HandoffOf(r))},
        log := s.log + [Submission(r.intent.provider, HandoffOf(r), r.sends, g.inp, g.pc.seen)])
    case Deliver(packet, b) =>
      s.(actors := s.actors[packet.provider := Receive(ActorAt(s, packet.provider), packet.h, b)])
    case ReceiptStored(e) =>
      var g := EngAt(s, e);
      var r := g.local[g.pc.key];
      Written(s, e, AfterReceipt(r, ReceiptFor(ActorAt(s, r.intent.provider), g.pc.h).accepted, g.inp.now), Ready)
    case ReceiptLost(e) => SetPc(s, e, Ready)
    case Settle(p, k, b) => s.(actors := s.actors[p := Settled(ActorAt(s, p), k, b)])
  }

  ghost predicate Init(s: Sys) {
    && s.journal == JournalState(0, map[]) && s.engines == map[] && s.sent == {} && s.log == []
    && (forall p :: p in s.actors ==> s.actors[p].jobs == map[])
  }

  ghost predicate Next(s: Sys, t: Sys) {
    exists a :: Enabled(s, a) && t == Apply(s, a)
  }

  /** t is reached from s by zero or more transitions. */
  ghost predicate Run(s: Sys, t: Sys) {
    exists states :: IsRun(states, s, t)
  }

  ghost predicate IsRun(states: seq<Sys>, s: Sys, t: Sys) {
    && states != [] && states[0] == s && states[|states| - 1] == t
    && forall i :: 0 <= i < |states| - 1 ==> Next(states[i], states[i + 1])
  }

  ghost predicate Reachable(s: Sys) {
    exists s0 :: Init(s0) && Run(s0, s)
  }

  lemma RunRefl(s: Sys)
    ensures Run(s, s)
  {
    hide Next;
    assert IsRun([s], s, s);
  }

  lemma RunStep(s: Sys, t: Sys, a: Action)
    requires Run(s, t) && Enabled(t, a)
    ensures Run(s, Apply(t, a))
  {
    hide Enabled, Apply;
    var states :| IsRun(states, s, t);
    var u := Apply(t, a);
    assert Next(t, u);
    assert IsRun(states + [u], s, u);
  }
}
