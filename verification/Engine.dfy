/** The engine itself: one step lists the journal, derives proposals, advances
    what is in flight, judges recoveries and starts what may be started, in
    that order, against a real journal and real providers. Every method only
    takes transitions of the protocol. */
module Engine {
  import opened Wrappers
  import opened OpsTypes
  import opened Profiles
  import opened ActionTypes
  import opened Journal
  import opened Actors
  import opened EngineRules
  import opened Protocol
  import opened JournalSafety
  import Safety
  import Proposals
  import R = Recovery

  /** What the network does for one key: whether a poll is answered, whether a
      send arrives, what a new key meets there, and whether the receipt is lost. */
  datatype Net = Net(answered: bool, dropped: bool, receiptLost: bool, b: Behaviour)

  datatype Choice = Choice(n: nat, approval: Approval, counted: Option<Decision>)

  // ── the transitions, one at a time ────────────────────────────────────────

  lemma TakePoll(s0: Sys, s: Sys, e: nat, k: Key, answered: bool) returns (t: Sys)
    requires Run(s0, s) && EngAt(s, e).Busy? && EngAt(s, e).pc == Ready && k in EngAt(s, e).local
    requires EngAt(s, e).local[k].phase.Occupies() && EngAt(s, e).local[k].fence <= EngAt(s, e).epoch
    requires answered ==> EngAt(s, e).local[k].intent.provider in EngAt(s, e).inp.registry
    ensures Run(s0, t) && t == SetPc(s, e, Polled(k, if answered then Some(AnswerTo(s, EngAt(s, e).local[k])) else None))
  {
    hide Run;
    t := Apply(s, Poll(e, k, answered));
    RunStep(s0, s, Poll(e, k, answered));
  }

  lemma TakeAdopt(s0: Sys, s: Sys, e: nat, next: Record) returns (t: Sys)
    requires Run(s0, s) && EngAt(s, e).Busy? && EngAt(s, e).pc.Polled? && EngAt(s, e).pc.key in EngAt(s, e).local
    requires Adopted(EngAt(s, e)) == Some(next) && CanWrite(s, e, next)
    ensures Run(s0, t) && t == Written(s, e, next, Ready)
  {
    hide Run, CanWrite, Adopted;
    t := Apply(s, AdoptStored(e));
    RunStep(s0, s, AdoptStored(e));
  }

  lemma TakeAdvance(s0: Sys, s: Sys, e: nat, plan: Plan) returns (t: Sys)
    requires Run(s0, s) && EngAt(s, e).Busy? && EngAt(s, e).pc.Polled? && EngAt(s, e).pc.key in EngAt(s, e).local
    requires PlanOf(EngAt(s, e)) == plan && plan != Stay && CanWrite(s, e, plan.next)
    ensures Run(s0, t) && t == Written(s, e, plan.next, if plan.Resend? then Sending(plan.next.key, EngAt(s, e).local) else Ready)
  {
    hide Run, CanWrite, PlanOf;
    t := Apply(s, AdvanceStored(e));
    RunStep(s0, s, AdvanceStored(e));
  }

  lemma TakeSkip(s0: Sys, s: Sys, e: nat) returns (t: Sys)
    requires Run(s0, s) && EngAt(s, e).Busy? && (EngAt(s, e).pc.Polled? || EngAt(s, e).pc.Waiting?)
    ensures Run(s0, t) && t == SetPc(s, e, Ready)
  {
    hide Run;
    var a := if EngAt(s, e).pc.Polled? then Skip(e) else ReceiptLost(e);
    t := Apply(s, a);
    RunStep(s0, s, a);
  }

  lemma TakeRecover(s0: Sys, s: Sys, e: nat, k: Key, rec: Recovery) returns (t: Sys)
    requires Run(s0, s) && EngAt(s, e).Busy? && EngAt(s, e).pc == Ready && k in EngAt(s, e).local
    requires EngAt(s, e).local[k].endedAt != 0 && !EngAt(s, e).local[k].recovery.Final() && rec.Final()
    requires CanWrite(s, e, EngAt(s, e).local[k].(recovery := rec))
    ensures Run(s0, t) && t == Written(s, e, EngAt(s, e).local[k].(recovery := rec), Ready)
  {
    hide Run, CanWrite;
    t := Apply(s, RecoverStored(e, k, rec));
    RunStep(s0, s, RecoverStored(e, k, rec));
  }

  lemma TakeDecide(s0: Sys, s: Sys, e: nat, id: ProposalId, n: nat, a: Approval, d: Option<Decision>) returns (t: Sys)
    requires Run(s0, s) && EngAt(s, e).Busy? && EngAt(s, e).pc == Ready && DecideGuard(EngAt(s, e), id, n, a, d)
    requires CanWrite(s, e, NewRecord(EngAt(s, e).inp, EngAt(s, e).inp.props[id], n, EngAt(s, e).epoch, a, d))
    ensures Run(s0, t)
    ensures t == Written(s, e, NewRecord(EngAt(s, e).inp, EngAt(s, e).inp.props[id], n, EngAt(s, e).epoch, a, d), Sending(Key(id, n), EngAt(s, e).local))
  {
    hide Run, CanWrite, GatesPass, Authorised, NextAttempt, NewRecord;
    t := Apply(s, DecideStored(e, id, n, a, d));
    RunStep(s0, s, DecideStored(e, id, n, a, d));
  }

  lemma TakeSubmit(s0: Sys, s: Sys, e: nat) returns (t: Sys)
    requires Run(s0, s) && EngAt(s, e).Busy? && EngAt(s, e).pc.Sending? && EngAt(s, e).pc.key in EngAt(s, e).local
    ensures Run(s0, t) && t.journal == s.journal && t.actors == s.actors
    ensures var g := EngAt(s, e);
      var r := g.local[g.pc.key];
      && t.engines == s.engines[e := Busy(g.epoch, g.inp, g.local, Waiting(g.pc.key, HandoffOf(r)))]
      && Packet(r.intent.provider, HandoffOf(r)) in t.sent
  {
    hide Run;
    t := Apply(s, Submit(e));
    RunStep(s0, s, Submit(e));
  }

  lemma TakeDeliver(s0: Sys, s: Sys, packet: Packet, b: Behaviour) returns (t: Sys)
    requires Run(s0, s) && packet in s.sent
    ensures Run(s0, t) && t == s.(actors := s.actors[packet.provider := Receive(ActorAt(s, packet.provider), packet.h, b)])
  {
    hide Run, Receive;
    t := Apply(s, Deliver(packet, b));
    RunStep(s0, s, Deliver(packet, b));
  }

  lemma TakeReceipt(s0: Sys, s: Sys, e: nat, rc: Receipt) returns (t: Sys)
    requires Run(s0, s) && EngAt(s, e).Busy? && EngAt(s, e).pc.Waiting? && EngAt(s, e).pc.key in EngAt(s, e).local
    requires var g := EngAt(s, e);
      var r := g.local[g.pc.key];
      && g.pc.h.key in ActorAt(s, r.intent.provider).jobs && rc == ReceiptFor(ActorAt(s, r.intent.provider), g.pc.h)
      && Matches(r, rc.key, rc.fence, rc.digest) && CanWrite(s, e, AfterReceipt(r, rc.accepted, g.inp.now))
    ensures var g := EngAt(s, e);
      Run(s0, t) && t == Written(s, e, AfterReceipt(g.local[g.pc.key], rc.accepted, g.inp.now), Ready)
  {
    hide Run, CanWrite, AfterReceipt;
    t := Apply(s, ReceiptStored(e));
    RunStep(s0, s, ReceiptStored(e));
  }

  lemma TakeBegin(s0: Sys, s: Sys, e: nat, inp: StepInput) returns (t: Sys)
    requires Run(s0, s) && EngAt(s, e).Idle? && 0 < inp.now <= s.now && WellDerived(inp.props, s.journal.recs)
    ensures Run(s0, t) && t == s.(engines := s.engines[e := Busy(EngAt(s, e).epoch, inp, s.journal.recs, Ready)])
  {
    hide Run, WellDerived;
    t := Apply(s, Begin(e, inp));
    RunStep(s0, s, Begin(e, inp));
  }

  lemma TakeFinish(s0: Sys, s: Sys, e: nat) returns (t: Sys)
    requires Run(s0, s) && EngAt(s, e).Busy? && EngAt(s, e).pc == Ready
    ensures Run(s0, t) && t == s.(engines := s.engines[e := Idle(EngAt(s, e).epoch)])
  {
    hide Run;
    t := Apply(s, Finish(e));
    RunStep(s0, s, Finish(e));
  }

  lemma ClaimEpoch(s0: Sys, s: Sys, e: nat) returns (t: Sys)
    requires Run(s0, s) && EngAt(s, e) == Off
    ensures Run(s0, t)
    ensures t == s.(journal := s.journal.(epoch := s.journal.epoch + 1), engines := s.engines[e := Idle(s.journal.epoch + 1)])
  {
    hide Run;
    t := Apply(s, TakeEpoch(e));
    RunStep(s0, s, TakeEpoch(e));
  }

  /** `put` succeeds: no newer epoch is claimed and the version is current. */
  predicate Accepts(j: JournalState, epoch: nat, k: Key, version: nat) {
    j.epoch <= epoch && version == if k in j.recs then j.recs[k].version else 0
  }

  /** What the journal stores. */
  function Stamped(r: Record, epoch: nat): Record {
    r.(fence := epoch, version := r.version + 1)
  }

  /** What a send may leave of the local copy: the record as it was, or as the
      receipt makes it. */
  ghost predicate SentTo(before: map<Key, Record>, after: map<Key, Record>, k: Key, epoch: nat, net: Net, now: Time)
    requires k in before
  {
    || after == before
    || (!net.dropped && !net.receiptLost && exists accepted ::
          after == before[k := Stamped(AfterReceipt(before[k], accepted, now), epoch)])
  }

  /** Where `advance` takes the local copy after the given answer: a changing
      answer is adopted; otherwise the plan is carried out. */
  ghost predicate AdvancedTo(g: Eng, after: map<Key, Record>, net: Net)
    requires g.Busy? && g.pc.Polled? && g.pc.key in g.local
  {
    match Adopted(g)
    case Some(next) => after == g.local[next.key := Stamped(next, g.epoch)]
    case None =>
      match PlanOf(g)
      case Stay => after == g.local
      case Write(next) => after == g.local[next.key := Stamped(next, g.epoch)]
      case Resend(next) =>
        var resent := g.local[next.key := Stamped(next, g.epoch)];
        g.pc.key in resent && SentTo(resent, after, g.pc.key, g.epoch, net, g.inp.now)
  }

  /** The local copy after a send, exactly: unchanged when no receipt came back
      or the journal refused the write, else as the receipt says. */
  ghost function AfterSend(before: map<Key, Record>, k: Key, epoch: nat, heard: Option<bool>, stored: bool, now: Time): map<Key, Record>
    requires k in before
  {
    if heard.None? || !stored then before
    else before[k := Stamped(AfterReceipt(before[k], heard.value, now), epoch)]
  }

  /** Whether a send under this fence is heard and answered, and then whether
      the provider takes the job, as it took or refused it when it first came. */
  ghost function HeardBy(a: ActorState, k: Key, fence: nat, net: Net): Option<bool> {
    if net.dropped || net.receiptLost || fence < a.highFence || net.b == Silent then None
    else Some((if k in a.jobs then a.jobs[k].b else net.b) != Refuse)
  }

  // ── what a turn does, case by case ────────────────────────────────────────

  /** What the answer says about the record's last send; nothing if it is about another. */
  ghost function Said(r: Record, answer: Option<Result>): ResultState {
    if answer.Some? && answer.value.key == r.key && answer.value.fence == r.sentFence && answer.value.digest == r.intent.digest
    then answer.value.state else ResultUnknown
  }

  /** The parts of a record no turn touches. */
  ghost predicate Same(r: Record, n: Record) {
    n.key == r.key && n.intent == r.intent && n.recovery == r.recovery
  }

  ghost predicate SendsSame(r: Record, n: Record) {
    n.sends == r.sends && n.lastSentAt == r.lastSentAt && n.sentFence == r.sentFence
  }

  /** The provider's answer is taken over: each result leads to its own phase,
      and the stamps are the instants at which this engine learned them. */
  ghost predicate Taken(r: Record, n: Record, said: ResultState, now: Time) {
    && Same(r, n) && SendsSame(r, n)
    && match said
       case ResultSucceeded =>
         n.phase == Succeeded && n.refused == r.refused && n.completedAt == now && n.endedAt == now && n.ackedAt == (if r.ackedAt == 0 then now else r.ackedAt)
       case ResultFailed =>
         n.phase == Failed && n.refused == r.refused && n.completedAt == now && n.endedAt == now && n.ackedAt == (if r.ackedAt == 0 then now else r.ackedAt)
       case ResultRefused => n.phase == Failed && n.refused && n.ackedAt == now && n.completedAt == now && n.endedAt == r.endedAt
       case ResultPending => n.phase == Accepted && n.refused == r.refused && n.ackedAt == now && n.completedAt == r.completedAt && n.endedAt == r.endedAt
       case ResultUnknown => false
  }

  /** The attempt is given up: only its phase and the instant of it are new. */
  ghost predicate GivenUp(r: Record, n: Record, phase: Phase, now: Time) {
    && Same(r, n) && SendsSame(r, n)
    && n.phase == phase && n.completedAt == now && n.ackedAt == r.ackedAt && n.endedAt == r.endedAt && n.refused == r.refused
  }

  /** The attempt is sent once more, and the receipt that came back is taken over. */
  ghost predicate SentAgain(r: Record, n: Record, heard: Option<bool>, epoch: nat, now: Time) {
    && Same(r, n) && n.sends == r.sends + 1 && n.lastSentAt == now && n.sentFence == epoch && n.endedAt == r.endedAt
    && match heard
       case None => n.phase == Dispatching && n.ackedAt == r.ackedAt && n.completedAt == r.completedAt && n.refused == r.refused
       case Some(true) => n.phase == Accepted && n.ackedAt == now && n.completedAt == r.completedAt && n.refused == r.refused
       case Some(false) => n.phase == Failed && n.ackedAt == now && n.completedAt == now && n.refused
  }

  /** The whole turn of an occupying record. */
  ghost predicate TurnIs(r: Record, n: Record, answer: Option<Result>, heard: Option<bool>, stands: bool, epoch: nat, now: Time) {
    var said := Said(r, answer);
    var ackDue := r.intent.createdAt + r.intent.ackTimeout;
    if said == ResultSucceeded || said == ResultFailed || (said == ResultRefused && r.ackedAt == 0) || (said == ResultPending && r.phase == Dispatching) then
      Taken(r, n, said, now)
    else if r.phase == Dispatching && now >= ackDue then GivenUp(r, n, TimedOut, now)
    else if r.phase == Dispatching && r.sends < r.intent.maxSends && r.intent.maxSends > 0 && now >= r.lastSentAt + r.intent.ackTimeout / r.intent.maxSends then
      if stands then SentAgain(r, n, heard, epoch, now) else GivenUp(r, n, Withdrawn, now)
    else if r.phase == Accepted && now >= r.ackedAt + r.intent.completionTimeout then GivenUp(r, n, TimedOut, now)
    else n == r
  }

  /** The record `advance` leaves, given the answer and the receipt, if the journal takes the writes. */
  ghost function TurnOf(inp: StepInput, local: map<Key, Record>, r: Record, answer: Option<Result>, heard: Option<bool>, epoch: nat): Record {
    var adopted := if answer.Some? && Matches(r, answer.value.key, answer.value.fence, answer.value.digest) then Adopt(r, answer.value.state, inp.now) else None;
    if adopted.Some? then Stamped(adopted.value, epoch)
    else match AdvancePlan(inp, local, r, epoch)
      case Stay => r
      case Write(next) => Stamped(next, epoch)
      case Resend(next) =>
        if heard.None? then Stamped(next, epoch) else Stamped(AfterReceipt(Stamped(next, epoch), heard.value, inp.now), epoch)
  }

  /** Without a changing answer the plan is carried out. */
  lemma TurnByPlan(inp: StepInput, recs: map<Key, Record>, k: Key, answer: Option<Result>, heard: Option<bool>, epoch: nat)
    requires k in recs
    ensures var plan, n := AdvancePlan(inp, recs, recs[k], epoch), TurnOf(inp, recs, recs[k], answer, heard, epoch);
      Adopted(Busy(epoch, inp, recs, Polled(k, answer))).None? ==>
      && (plan.Stay? ==> n == recs[k] && recs == recs[k := n])
      && (plan.Write? ==> n == Stamped(plan.next, epoch))
      && (plan.Resend? ==> recs[k := n] == AfterSend(recs[k := Stamped(plan.next, epoch)], k, epoch, heard, true, inp.now))
  {
    hide AdvancePlan, AfterReceipt;
  }

  lemma TurnMeaning(inp: StepInput, local: map<Key, Record>, r: Record, answer: Option<Result>, heard: Option<bool>, epoch: nat)
    requires r.phase.Occupies()
    ensures TurnIs(r, TurnOf(inp, local, r, answer, heard, epoch), answer, heard, StillStands(inp, local, r), epoch, inp.now)
  {
    hide StillStands;
  }

  // ── what a whole step does ────────────────────────────────────────────────

  /** `advance` on one record: r became r' after the given answer. */
  ghost predicate TurnTaken(inp: StepInput, k: Key, r: Record, r': Record, epoch: nat, net: Net, answer: Option<Result>) {
    AdvancedTo(Busy(epoch, inp, map[k := r], Polled(k, answer)), map[k := r'], net)
  }

  /** Every occupying record that no newer engine wrote had its turn, and no other changed. */
  ghost predicate AllAdvanced(inp: StepInput, before: map<Key, Record>, after: map<Key, Record>, epoch: nat, net: Key -> Net, known: set<string>) {
    && after.Keys == before.Keys
    && forall k :: k in before ==> Advanced(inp, k, before[k], after[k], epoch, net(k), known)
  }

  ghost predicate Advanced(inp: StepInput, k: Key, r: Record, r': Record, epoch: nat, net: Net, known: set<string>) {
    if r.phase.Occupies() && r.fence <= epoch
    then exists answer: Option<Result> :: (answer.Some? <==> net.answered && r.intent.provider in known) && TurnTaken(inp, k, r, r', epoch, net, answer)
    else r' == r
  }

  /** Every ended record without a final verdict was judged; final verdicts were persisted. */
  ghost predicate AllJudged(inp: StepInput, before: map<Key, Record>, after: map<Key, Record>, epoch: nat, snapshot: Snapshot) {
    && after.Keys == before.Keys
    && forall k :: k in before ==> JudgedTo(inp, before[k], after[k], epoch, snapshot)
  }

  ghost predicate JudgedTo(inp: StepInput, r: Record, r': Record, epoch: nat, snapshot: Snapshot) {
    r' == Judged(inp, r, epoch, snapshot)
  }

  ghost function Judged(inp: StepInput, r: Record, epoch: nat, snapshot: Snapshot): Record {
    if r.endedAt == 0 || r.recovery.Final() || !R.RecoveryOf(R.EndedOf(r), snapshot, inp.now).Final() then r
    else Stamped(r.(recovery := R.RecoveryOf(R.EndedOf(r), snapshot, inp.now)), epoch)
  }

  /** What judging does to a record: one that ended without a final verdict gets
      the final verdict there is on what was observed after its end, and inside
      its recovery window only that it recovered or no longer applies. */
  lemma JudgedMeaning(inp: StepInput, r: Record, epoch: nat, snapshot: Snapshot)
    ensures var n := Judged(inp, r, epoch, snapshot);
      var e := R.Ended(r.intent.targetUid, r.intent.binding, r.endedAt, r.intent.recoveryWindow, r.intent.expected);
      var v := R.RecoveryOf(e, snapshot, inp.now);
      var judges := r.endedAt != 0 && (r.recovery == NoRecovery || r.recovery == Pending) && v != NoRecovery && v != Pending;
      && (!judges ==> n == r)
      && (judges ==> n.recovery == v && n == r.(recovery := v, fence := epoch, version := r.version + 1))
      && (judges && inp.now < r.endedAt + r.intent.recoveryWindow ==> v == Recovered || v == InapplicableNow)
  {
    hide R.RecoveryOf;
    var e := R.EndedOf(r);
    if R.RecoveryOf(e, snapshot, inp.now).Final() && inp.now < e.endedAt + e.window {
      R.FinalInsideWindow(e, snapshot, inp.now);
    }
  }

  ghost predicate Sub(a: map<Key, Record>, b: map<Key, Record>) {
    forall k :: k in a ==> k in b && a[k] == b[k]
  }

  /** The proposal was decided when the records stood as mid: whatever attempt
      could be made then exists now. */
  ghost predicate Decided(inp: StepInput, before: map<Key, Record>, after: map<Key, Record>, epoch: nat, id: ProposalId) {
    exists mid :: Sub(before, mid) && Sub(mid, after) && forall n, a, d :: DecideGuard(Busy(epoch, inp, mid, Ready), id, n, a, d) ==> Key(id, n) in after
  }

  /** Every new record is an attempt that could be made when it was. */
  ghost predicate Justly(inp: StepInput, before: map<Key, Record>, after: map<Key, Record>, epoch: nat, k: Key) {
    exists mid, a, d :: Sub(before, mid) && k !in mid && DecideGuard(Busy(epoch, inp, mid, Ready), k.id, k.attempt, a, d) && k in after && after[k].intent.approval == a
  }

  ghost predicate AllDecided(inp: StepInput, before: map<Key, Record>, after: map<Key, Record>, epoch: nat) {
    && Sub(before, after)
    && (forall id :: id in inp.props ==> Decided(inp, before, after, epoch, id))
    && (forall k :: k in after && k !in before ==> Justly(inp, before, after, epoch, k))
  }

  ghost predicate Only(before: map<Key, Record>, after: map<Key, Record>, k: Key) {
    k in before && k in after && after == before[k := after[k]]
  }

  lemma DecidedStays(inp: StepInput, before: map<Key, Record>, mid: map<Key, Record>, after: map<Key, Record>, epoch: nat, id: ProposalId)
    requires Decided(inp, before, mid, epoch, id) && Sub(mid, after)
    ensures Decided(inp, before, after, epoch, id)
  {
    hide DecideGuard;
    var m :| Sub(before, m) && Sub(m, mid) && forall n, a, d :: DecideGuard(Busy(epoch, inp, m, Ready), id, n, a, d) ==> Key(id, n) in mid;
    assert Sub(m, after);
  }

  lemma JustlyStays(inp: StepInput, before: map<Key, Record>, mid: map<Key, Record>, after: map<Key, Record>, epoch: nat, k: Key)
    requires Justly(inp, before, mid, epoch, k) && Sub(mid, after)
    ensures Justly(inp, before, after, epoch, k)
  {
    hide DecideGuard;
    var m, a, d :| Sub(before, m) && k !in m && DecideGuard(Busy(epoch, inp, m, Ready), k.id, k.attempt, a, d) && k in mid && mid[k].intent.approval == a;
  }

  /** Gates of a resend do not look at other records, so a record's turn depends on it alone. */
  lemma TurnIsLocal(inp: StepInput, recs: map<Key, Record>, after: map<Key, Record>, k: Key, epoch: nat, net: Net, answer: Option<Result>)
    requires k in recs && recs[k].key == k && AdvancedTo(Busy(epoch, inp, recs, Polled(k, answer)), after, net)
    ensures k in after && after == recs[k := after[k]] && TurnTaken(inp, k, recs[k], after[k], epoch, net, answer)
  {
    var g, h := Busy(epoch, inp, recs, Polled(k, answer)), Busy(epoch, inp, map[k := recs[k]], Polled(k, answer));
    hide Authorised, Adopt, ResendDue, Matches;
    assert Adopted(g) == Adopted(h);
    PlanIsLocal(inp, recs, map[k := recs[k]], recs[k], epoch);
    hide AdvancePlan, Adopted;
    if Adopted(g).Some? {
      AdoptedKeepsKey(g);
      assert after[k] == Stamped(Adopted(g).value, epoch);
      assert map[k := after[k]] == map[k := recs[k]][k := after[k]];
    } else if PlanOf(g) != Stay {
      PlanKeepsKey(inp, recs, recs[k], epoch);
      if PlanOf(g).Resend? {
        SentAlone(recs, after, k, PlanOf(g).next, epoch, net, inp.now);
      } else {
        assert map[k := after[k]] == map[k := recs[k]][k := after[k]];
      }
    }
  }

  lemma AdoptedKeepsKey(g: Eng)
    requires g.Busy? && g.pc.Polled? && g.pc.key in g.local && g.local[g.pc.key].key == g.pc.key && Adopted(g).Some?
    ensures Adopted(g).value.key == g.pc.key
  {
  }

  /** A send changes its own record only, and neither its intent nor its count. */
  lemma SentKeeps(before: map<Key, Record>, after: map<Key, Record>, k: Key, epoch: nat, net: Net, now: Time)
    requires k in before && SentTo(before, after, k, epoch, net, now)
    ensures after.Keys == before.Keys && after[k].intent == before[k].intent && after[k].sends == before[k].sends
    ensures forall j :: j in before && j != k ==> after[j] == before[j]
  {
  }

  lemma SentAlone(recs: map<Key, Record>, after: map<Key, Record>, k: Key, next: Record, epoch: nat, net: Net, now: Time)
    requires k in recs && next.key == k && SentTo(recs[k := Stamped(next, epoch)], after, k, epoch, net, now)
    ensures k in after && after == recs[k := after[k]]
    ensures SentTo(map[k := recs[k]][k := Stamped(next, epoch)], map[k := after[k]], k, epoch, net, now)
  {
    hide AfterReceipt, Stamped;
    var resent := recs[k := Stamped(next, epoch)];
    if after == resent {
      assert map[k := after[k]] == map[k := recs[k]][k := Stamped(next, epoch)];
    } else {
      var accepted :| after == resent[k := Stamped(AfterReceipt(resent[k], accepted, now), epoch)];
      var alone := map[k := recs[k]][k := Stamped(next, epoch)];
      assert map[k := after[k]] == alone[k := Stamped(AfterReceipt(alone[k], accepted, now), epoch)];
    }
  }

  lemma PlanIsLocal(inp: StepInput, a: map<Key, Record>, b: map<Key, Record>, r: Record, epoch: nat)
    ensures AdvancePlan(inp, a, r, epoch) == AdvancePlan(inp, b, r, epoch)
  {
    hide Authorised, ResendDue;
  }

  /** The local copy is keyed by the records' own keys. */
  ghost predicate KeysOk(recs: map<Key, Record>) {
    forall k {:trigger recs[k]} {:trigger k in recs} :: k in recs ==> recs[k].key == k && k.attempt >= 1
  }

  lemma RecordKey(recs: map<Key, Record>, k: Key)
    requires KeysOk(recs) && k in recs
    ensures recs[k].key == k && k.attempt >= 1
  {
  }

  lemma GuardMeans(g: Eng, id: ProposalId, n: nat, a: Approval, d: Option<Decision>)
    requires g.Busy? && DecideGuard(g, id, n, a, d)
    ensures n >= 1 && id in g.inp.props && g.inp.props[id].response.execution.Some? && Key(id, n) !in g.local
    ensures g.inp.props[id].response.execution.value.provider in g.inp.registry
  {
    hide Authorised;
    assert Key(id, n).id == id && Key(id, n).attempt == n;
  }

  lemma CoherentKeys(recs: map<Key, Record>)
    requires AllCoherent(recs)
    ensures KeysOk(recs)
  {
  }

  lemma DerivedExecutable(props: map<ProposalId, Proposal>, recs: map<Key, Record>)
    requires WellDerived(props, recs)
    ensures forall id {:trigger props[id]} {:trigger id in props} :: id in props ==> props[id].id == id && props[id].response.execution.Some?
  {
    hide RecoveredEpisodes, ExecutionBounds;
  }

  lemma CoherentStart(s0: Sys, s: Sys)
    requires Init(s0) && Run(s0, s)
    ensures AllCoherent(s.journal.recs)
  {
    hide Init, Run;
    assert Reachable(s);
    Safety.ReachableInv(s);
  }

  lemma NobodyAuthorises(inp: StepInput, p: Proposal)
    requires p.response.execution.Some? && p.human != []
    requires CountingRejection(inp, p) || forall d :: Counts(inp, p, d) ==> d.verdict != Approve
    ensures forall a, d :: !Authorised(inp, p, a, d)
  {
    hide Counts;
  }

  lemma AttemptIsUnique(local: map<Key, Record>, id: ProposalId, n: nat, m: nat)
    requires KeysOk(local) && NextAttempt(local, id, n) && NextAttempt(local, id, m)
    ensures n == m
  {
    assert n > 1 ==> Key(id, n - 1).attempt < m;
    assert m > 1 ==> Key(id, m - 1).attempt < n;
  }

  lemma AdoptKeepsKey(r: Record, state: ResultState, now: Time)
    requires Adopt(r, state, now).Some?
    ensures Adopt(r, state, now).value.key == r.key && Adopt(r, state, now).value.version == r.version
  {
  }

  lemma PlanKeepsKey(inp: StepInput, local: map<Key, Record>, r: Record, epoch: nat)
    requires AdvancePlan(inp, local, r, epoch) != Stay
    ensures AdvancePlan(inp, local, r, epoch).next.key == r.key && AdvancePlan(inp, local, r, epoch).next.version == r.version
  {
    hide StillStands, ResendDue;
  }

  lemma ResendIsRegistered(inp: StepInput, local: map<Key, Record>, r: Record, epoch: nat)
    requires AdvancePlan(inp, local, r, epoch).Resend?
    ensures r.intent.provider in inp.registry && AdvancePlan(inp, local, r, epoch).next.intent == r.intent
    ensures AdvancePlan(inp, local, r, epoch).next.sentFence == epoch
  {
    hide GatesPass, Authorised, ResendDue;
  }

  class Engine {
    ghost const me: nat
    const journal: MemJournal
    const providers: map<string, Actor>
    const registry: map<string, Registration>
    var epoch: nat
    var recs: map<Key, Record>
    var inp: StepInput

    /** Each provider name is a provider of its own. */
    constructor (ghost me: nat, journal: MemJournal, providers: map<string, Actor>, registry: map<string, Registration>)
      requires registry.Keys == providers.Keys
      requires forall p, q :: p in providers && q in providers && p != q ==> providers[p] != providers[q]
      ensures this.me == me && this.journal == journal && this.providers == providers && this.registry == registry
      ensures Wired() && epoch == 0
    {
      this.me, this.journal, this.providers, this.registry := me, journal, providers, registry;
      epoch, recs := 0, map[];
      inp := StepInput(0, map[], [], {}, registry, journal.durable);
    }

    ghost function Actors(): set<Actor> {
      set p | p in providers :: providers[p]
    }

    ghost predicate Wired() {
      && registry.Keys == providers.Keys
      && (forall p, q :: p in providers && q in providers && p != q ==> providers[p] != providers[q])
    }

    /** The world outside the engine is as s has it. */
    ghost predicate World(s: Sys)
      reads journal, Actors()
    {
      && Wired()
      && s.journal == journal.State()
      && (forall p {:trigger providers[p]} :: p in providers ==> providers[p].Valid() && ActorAt(s, p) == providers[p].State())
    }

    ghost predicate InputOk()
      reads this
    {
      && inp.registry == registry && 0 < inp.now
      && (forall id {:trigger inp.props[id]} {:trigger id in inp.props} :: id in inp.props ==> inp.props[id].id == id && inp.props[id].response.execution.Some?)
    }

    /** The engine is inside a step, at pc, as s has it. */
    ghost predicate Shows(s: Sys, pc: Pc)
      reads this, journal, Actors()
    {
      World(s) && InputOk() && EngAt(s, me) == Busy(epoch, inp, recs, pc) && KeysOk(recs)
    }

    /** The engine is between steps, or has not started, as s has it. */
    ghost predicate ShowsIdle(s: Sys)
      reads this, journal, Actors()
    {
      World(s) && EngAt(s, me) == if epoch == 0 then Off else Idle(epoch)
    }

    /** The local copy is the whole journal, as after listing. */
    predicate Synced()
      reads this, journal
    {
      recs == journal.recs
    }

    /** The answer to a poll for k, unless none comes. */
    ghost function PollOf(k: Key, net: Net): Option<Result>
      requires k in recs
      reads this, Actors()
    {
      var p := recs[k].intent.provider;
      if net.answered && p in providers then Some(Answer(providers[p].State(), k, recs[k].intent.digest)) else None
    }

    /** The receipt for a send of k under this fence, unless none comes. */
    ghost function ReceiptOf(k: Key, fence: nat, net: Net): Option<bool>
      requires k in recs
      reads this, Actors()
    {
      var p := recs[k].intent.provider;
      if p in providers then HeardBy(providers[p].State(), k, fence, net) else None
    }

    /** `put`: compare-and-swap under this engine's epoch. On refusal nothing
        changes; otherwise journal and local copy hold the stored record. */
    method Put(next: Record, ghost s: Sys, ghost pc: Pc, ghost pc': Pc) returns (ok: bool)
      requires Shows(s, pc) && next.key.attempt >= 1
      modifies this`recs, journal
      ensures journal.epoch == old(journal.epoch) && (old(Synced()) ==> Synced())
      ensures recs == if ok then old(recs)[next.key := Stamped(next, epoch)] else old(recs)
      ensures ok <==> Accepts(old(journal.State()), epoch, next.key, next.version)
      ensures ok ==> CanWrite(s, me, next) && Shows(Written(s, me, next, pc'), pc')
      ensures ok ==> Accepts(journal.State(), epoch, next.key, recs[next.key].version)
      ensures !ok ==> Shows(s, pc)
    {
      var out := journal.Put(next.(fence := epoch));
      match out
      case Stored(r) =>
        recs := recs[r.key := r];
        ok := true;
      case _ =>
        ok := false;
    }

    /** The plan that ends `advance`, computed. */
    method FindPlan(k: Key) returns (plan: Plan)
      requires k in recs && InputOk()
      ensures plan == AdvancePlan(inp, recs, recs[k], epoch)
    {
      var r := recs[k];
      var now := inp.now;
      match r.phase
      case Dispatching =>
        if now >= r.intent.createdAt + r.intent.ackTimeout {
          return Write(r.(phase := TimedOut, completedAt := now));
        }
        if !ResendDue(r, now) {
          return Stay;
        }
        var stands := CheckStands(r);
        if !stands {
          return Write(r.(phase := Withdrawn, completedAt := now));
        }
        plan := Resend(r.(sends := r.sends + 1, lastSentAt := now, sentFence := epoch));
      case Accepted =>
        if now >= r.ackedAt + r.intent.completionTimeout {
          return Write(r.(phase := TimedOut, completedAt := now));
        }
        plan := Stay;
      case _ =>
        plan := Stay;
    }

    method CheckStands(r: Record) returns (ok: bool)
      requires InputOk()
      ensures ok <==> StillStands(inp, recs, r)
    {
      hide GatesPass, Authorised;
      if r.key.id !in inp.props {
        return false;
      }
      var p := inp.props[r.key.id];
      if p.digest != r.intent.digest || r.intent.provider !in inp.registry {
        return false;
      }
      var gates := Gates(inp, recs, p, true);
      if gates != [] {
        return false;
      }
      ok := StillApproved(inp, p, r);
    }

    /** `send`: one submit, then what its receipt says, if one comes back. */
    method Send(k: Key, net: Net, ghost seen: map<Key, Record>, ghost s0: Sys, ghost s: Sys) returns (ghost t: Sys)
      requires Run(s0, s) && Shows(s, Sending(k, seen)) && k in recs && recs[k].intent.provider in providers
      modifies this`recs, journal, Actors()
      ensures journal.epoch == old(journal.epoch) && (old(Synced()) ==> Synced())
      ensures Run(s0, t) && Shows(t, Ready) && recs.Keys == old(recs.Keys)
      ensures SentTo(old(recs), recs, k, epoch, net, inp.now)
      ensures recs == AfterSend(old(recs), k, epoch, old(ReceiptOf(k, recs[k].sentFence, net)),
                                Accepts(old(journal.State()), epoch, k, old(recs)[k].version), inp.now)
    {
      hide Run, Receive, Apply, Enabled, Swap;
      RecordKey(recs, k);
      hide KeysOk;
      var r := recs[k];
      var h := HandoffOf(r);
      var p := r.intent.provider;
      t := TakeSubmit(s0, s, me);
      if net.dropped {
        t := TakeSkip(s0, t, me);
        return;
      }
      t := HandOff(k, h, net, s0, t);
    }

    /** The handoff arrives; a matching receipt that comes back is recorded. */
    method HandOff(k: Key, h: Handoff, net: Net, ghost s0: Sys, ghost s: Sys) returns (ghost t: Sys)
      requires Run(s0, s) && Shows(s, Waiting(k, h)) && k in recs && recs[k].intent.provider in providers
      requires recs[k].key == k && h == HandoffOf(recs[k]) && Packet(recs[k].intent.provider, h) in s.sent && !net.dropped
      modifies this`recs, journal, Actors()
      ensures journal.epoch == old(journal.epoch) && (old(Synced()) ==> Synced())
      ensures Run(s0, t) && Shows(t, Ready) && recs.Keys == old(recs.Keys)
      ensures recs == AfterSend(old(recs), k, epoch, old(ReceiptOf(k, recs[k].sentFence, net)),
                                Accepts(old(journal.State()), epoch, k, old(recs)[k].version), inp.now)
    {
      hide Run, Apply, Enabled, Swap, KeysOk, Accepts, InputOk, Answer, AfterReceipt, Receive, HeardBy, Matches, HandoffOf, ReceiptFor;
      var rc;
      rc, t := Arrive(k, h, net, s0, s);
      if rc.None? || net.receiptLost || !Matches(recs[k], rc.value.key, rc.value.fence, rc.value.digest) {
        t := TakeSkip(s0, t, me);
        return;
      }
      t := Acknowledge(k, h, rc.value, s0, t);
    }

    /** The provider takes in the handoff and answers with its receipt, or with none. */
    method Arrive(k: Key, h: Handoff, net: Net, ghost s0: Sys, ghost s: Sys) returns (rc: Option<Receipt>, ghost t: Sys)
      requires Run(s0, s) && Shows(s, Waiting(k, h)) && k in recs && recs[k].intent.provider in providers
      requires recs[k].key == k && h == HandoffOf(recs[k]) && Packet(recs[k].intent.provider, h) in s.sent && !net.dropped
      modifies Actors()
      ensures Run(s0, t) && Shows(t, Waiting(k, h))
      ensures rc.Some? && !net.receiptLost <==> old(ReceiptOf(k, recs[k].sentFence, net)).Some?
      ensures rc.Some? ==> h.key in ActorAt(t, recs[k].intent.provider).jobs && rc.value == ReceiptFor(ActorAt(t, recs[k].intent.provider), h)
      ensures rc.Some? ==> Matches(recs[k], rc.value.key, rc.value.fence, rc.value.digest)
      ensures rc.Some? && !net.receiptLost ==> rc.value.accepted == old(ReceiptOf(k, recs[k].sentFence, net)).value
    {
      hide Run, Apply, Enabled, Swap, KeysOk, InputOk, Answer;
      var p := recs[k].intent.provider;
      rc := providers[p].Submit(h, net.b);
      t := TakeDeliver(s0, s, Packet(p, h), net.b);
    }

    /** A matching receipt is recorded, unless the write is refused. */
    method Acknowledge(k: Key, h: Handoff, rc: Receipt, ghost s0: Sys, ghost s: Sys) returns (ghost t: Sys)
      requires Run(s0, s) && Shows(s, Waiting(k, h)) && k in recs && recs[k].intent.provider in providers
      requires h.key in ActorAt(s, recs[k].intent.provider).jobs && rc == ReceiptFor(ActorAt(s, recs[k].intent.provider), h)
      requires Matches(recs[k], rc.key, rc.fence, rc.digest)
      modifies this`recs, journal
      ensures journal.epoch == old(journal.epoch) && (old(Synced()) ==> Synced())
      ensures Run(s0, t) && Shows(t, Ready) && recs.Keys == old(recs.Keys)
      ensures recs == if Accepts(old(journal.State()), epoch, k, old(recs)[k].version)
                      then old(recs)[k := Stamped(AfterReceipt(old(recs)[k], rc.accepted, inp.now), epoch)] else old(recs)
    {
      hide Run, Receive, Swap, CanWrite, Written;
      var next := AfterReceipt(recs[k], rc.accepted, inp.now);
      assert next.key == k;
      var ok := Put(next, s, Waiting(k, h), Ready);
      if ok {
        t := TakeReceipt(s0, s, me, rc);
      } else {
        t := TakeSkip(s0, s, me);
      }
    }

    /** `advance`: poll, adopt a matching answer, else time out, withdraw,
        resend or stay. A record a newer engine wrote is left alone. */
    method Advance(k: Key, net: Net, ghost s0: Sys, ghost s: Sys) returns (ghost t: Sys)
      requires Run(s0, s) && Shows(s, Ready) && k in recs && recs[k].phase.Occupies()
      modifies this`recs, journal, Actors()
      ensures journal.epoch == old(journal.epoch) && (old(Synced()) ==> Synced())
      ensures Run(s0, t) && Shows(t, Ready) && recs.Keys == old(recs.Keys)
      ensures old(recs)[k].fence > epoch || !Accepts(old(journal.State()), epoch, k, old(recs)[k].version) ==> recs == old(recs)
      ensures old(recs)[k].fence <= epoch && Accepts(old(journal.State()), epoch, k, old(recs)[k].version) ==>
        && AdvancedTo(Busy(epoch, inp, old(recs), Polled(k, old(PollOf(k, net)))), recs, net)
        && recs == old(recs)[k := recs[k]]
        && TurnIs(old(recs)[k], recs[k], old(PollOf(k, net)), old(ReceiptOf(k, epoch, net)), StillStands(inp, old(recs), old(recs)[k]), epoch, inp.now)
    {
      ghost var polled, heard := PollOf(k, net), ReceiptOf(k, epoch, net);
      t := TakeTurn(k, net, s0, s);
      if old(recs)[k].fence <= epoch && Accepts(old(journal.State()), epoch, k, old(recs)[k].version) {
        TurnMeaning(inp, old(recs), old(recs)[k], polled, heard, epoch);
      }
    }

    /** The exchange with the provider and the writes it leads to. */
    method TakeTurn(k: Key, net: Net, ghost s0: Sys, ghost s: Sys) returns (ghost t: Sys)
      requires Run(s0, s) && Shows(s, Ready) && k in recs && recs[k].phase.Occupies()
      modifies this`recs, journal, Actors()
      ensures journal.epoch == old(journal.epoch) && (old(Synced()) ==> Synced())
      ensures Run(s0, t) && Shows(t, Ready) && recs.Keys == old(recs.Keys)
      ensures old(recs)[k].fence > epoch || !Accepts(old(journal.State()), epoch, k, old(recs)[k].version) ==> recs == old(recs)
      ensures old(recs)[k].fence <= epoch && Accepts(old(journal.State()), epoch, k, old(recs)[k].version) ==>
        && AdvancedTo(Busy(epoch, inp, old(recs), Polled(k, old(PollOf(k, net)))), recs, net)
        && recs == old(recs)[k := TurnOf(inp, old(recs), old(recs)[k], old(PollOf(k, net)), old(ReceiptOf(k, epoch, net)), epoch)]
    {
      hide Run, Apply, Enabled, Swap, KeysOk, CanWrite, Written, InputOk, AdvancePlan, Adopt, SentTo, Accepts, HeardBy;
      t := s;
      var r := recs[k];
      if epoch < r.fence {
        return;
      }
      var answer: Option<Result>;
      answer, t := Ask(k, net, s0, s);
      RecordKey(recs, k);
      if answer.Some? && Matches(r, answer.value.key, answer.value.fence, answer.value.digest) {
        var next := Adopt(r, answer.value.state, inp.now);
        if next.Some? {
          AdoptKeepsKey(r, answer.value.state, inp.now);
          var ok := Put(next.value, t, Polled(k, answer), Ready);
          if ok {
            t := TakeAdopt(s0, t, me, next.value);
            return;
          }
        }
      }
      t := Carry(k, answer, net, s0, t);
    }

    /** One poll by key, which may go unanswered. */
    method Ask(k: Key, net: Net, ghost s0: Sys, ghost s: Sys) returns (answer: Option<Result>, ghost t: Sys)
      requires Run(s0, s) && Shows(s, Ready) && k in recs && recs[k].phase.Occupies() && recs[k].fence <= epoch
      ensures Run(s0, t) && Shows(t, Polled(k, answer))
      ensures answer == PollOf(k, net)
    {
      hide Run, Apply, Enabled, Swap;
      var r := recs[k];
      answer := None;
      if r.intent.provider in providers && net.answered {
        var a := providers[r.intent.provider].Poll(k, r.intent.digest);
        answer := Some(a);
      }
      t := TakePoll(s0, s, me, k, answer.Some?);
    }

    /** The switch that ends `advance`. */
    method Carry(k: Key, answer: Option<Result>, net: Net, ghost s0: Sys, ghost s: Sys) returns (ghost t: Sys)
      requires Run(s0, s) && Shows(s, Polled(k, answer)) && k in recs
      modifies this`recs, journal, Actors()
      ensures journal.epoch == old(journal.epoch) && (old(Synced()) ==> Synced())
      ensures Run(s0, t) && Shows(t, Ready) && recs.Keys == old(recs.Keys)
      ensures !Accepts(old(journal.State()), epoch, k, old(recs)[k].version) ==> recs == old(recs)
      ensures Adopted(Busy(epoch, inp, old(recs), Polled(k, answer))).None? && Accepts(old(journal.State()), epoch, k, old(recs)[k].version) ==>
        && AdvancedTo(Busy(epoch, inp, old(recs), Polled(k, answer)), recs, net)
        && recs == old(recs)[k := TurnOf(inp, old(recs), old(recs)[k], answer, old(ReceiptOf(k, epoch, net)), epoch)]
    {
      hide Run, Apply, Enabled, Swap, KeysOk, CanWrite, Written, AdvancePlan, SentTo, Accepts, Adopted, HeardBy, TurnOf, AfterSend;
      assert InputOk();
      hide InputOk;
      TurnByPlan(inp, recs, k, answer, ReceiptOf(k, epoch, net), epoch);
      var plan := FindPlan(k);
      if plan.Stay? {
        t := TakeSkip(s0, s, me);
        return;
      }
      hide ReceiptOf;
      t := CarryOut(k, plan, answer, net, s0, s);
    }

    /** The plan is written, and after a resend the attempt sent. */
    method CarryOut(k: Key, plan: Plan, answer: Option<Result>, net: Net, ghost s0: Sys, ghost s: Sys) returns (ghost t: Sys)
      requires Run(s0, s) && Shows(s, Polled(k, answer)) && k in recs
      requires !plan.Stay? && plan == AdvancePlan(inp, recs, recs[k], epoch)
      modifies this`recs, journal, Actors()
      ensures journal.epoch == old(journal.epoch) && (old(Synced()) ==> Synced())
      ensures Run(s0, t) && Shows(t, Ready) && recs.Keys == old(recs.Keys)
      ensures plan.next.key == k
      ensures !Accepts(old(journal.State()), epoch, k, old(recs)[k].version) ==> recs == old(recs)
      ensures Accepts(old(journal.State()), epoch, k, old(recs)[k].version) ==>
        var written := old(recs)[k := Stamped(plan.next, epoch)];
        && (plan.Write? ==> recs == written)
        && (plan.Resend? ==> recs == AfterSend(written, k, epoch, old(ReceiptOf(k, epoch, net)), true, inp.now))
        && (plan.Resend? ==> SentTo(written, recs, k, epoch, net, inp.now))
    {
      hide Run, Apply, Enabled, Swap, KeysOk, CanWrite, Written, AdvancePlan, SentTo, Accepts, HeardBy, AfterSend;
      assert InputOk();
      hide InputOk;
      RecordKey(recs, k);
      PlanKeepsKey(inp, recs, recs[k], epoch);
      ghost var pc := if plan.Resend? then Sending(k, recs) else Ready;
      var ok := Put(plan.next, s, Polled(k, answer), pc);
      if !ok {
        t := TakeSkip(s0, s, me);
        return;
      }
      t := TakeAdvance(s0, s, me, plan);
      if plan.Resend? {
        ResendIsRegistered(inp, old(recs), old(recs)[k], epoch);
        t := Send(k, net, old(recs), s0, t);
      }
    }

    /** `recover`: the verdict is persisted only when it is final, and it is
        the meaning of recovery on this snapshot. */
    method Recover(k: Key, snapshot: Snapshot, ghost s0: Sys, ghost s: Sys) returns (ghost t: Sys)
      requires Run(s0, s) && Shows(s, Ready) && k in recs && recs[k].endedAt != 0 && !recs[k].recovery.Final()
      modifies this`recs, journal
      ensures journal.epoch == old(journal.epoch) && (old(Synced()) ==> Synced())
      ensures Run(s0, t) && Shows(t, Ready) && recs.Keys == old(recs.Keys)
      ensures var verdict := R.RecoveryOf(R.EndedOf(old(recs)[k]), snapshot, inp.now);
        recs == if verdict.Final() && Accepts(old(journal.State()), epoch, k, old(recs)[k].version)
                then old(recs)[k := Stamped(old(recs)[k].(recovery := verdict), epoch)] else old(recs)
    {
      hide Run, Apply, Enabled, Swap, CanWrite, Written, R.RecoveryOf, Accepts;
      t := s;
      var verdict := R.AssessRecovery(R.EndedOf(recs[k]), snapshot, inp.now);
      if verdict.None? || !verdict.value.Final() {
        return;
      }
      var ok := Put(recs[k].(recovery := verdict.value), s, Ready, Ready);
      if ok {
        t := TakeRecover(s0, s, me, k, verdict.value);
      }
    }

    /** `decide`: a new attempt is persisted, then sent, only when there is one
        to make, every gate passes and the approval counts. */
    method Decide(id: ProposalId, net: Net, ghost s0: Sys, ghost s: Sys) returns (ghost t: Sys)
      requires Run(s0, s) && Shows(s, Ready) && id in inp.props
      modifies this`recs, journal, Actors()
      ensures journal.epoch == old(journal.epoch) && (old(Synced()) ==> Synced())
      ensures Run(s0, t) && Shows(t, Ready)
      ensures journal.epoch > epoch ==> recs == old(recs)
      ensures forall n, a, d :: DecideGuard(Busy(epoch, inp, old(recs), Ready), id, n, a, d) && Accepts(old(journal.State()), epoch, Key(id, n), 0) ==>
        Key(id, n) in recs
      ensures forall k :: k in recs && k !in old(recs) ==> exists a, d ::
        DecideGuard(Busy(epoch, inp, old(recs), Ready), k.id, k.attempt, a, d) && recs[k].intent.approval == a && recs[k].sends == 1
      ensures forall k :: k in old(recs) ==> k in recs && recs[k] == old(recs)[k]
    {
      hide Run, DecideGuard, KeysOk, World, InputOk;
      t := s;
      var choice := Choose(id, s);
      if choice.Some? {
        t := Start(id, choice.value, net, s0, s);
      }
    }

    /** Persist the chosen attempt, then send it; a refused write sends nothing. */
    method Start(id: ProposalId, c: Choice, net: Net, ghost s0: Sys, ghost s: Sys) returns (ghost t: Sys)
      requires Run(s0, s) && Shows(s, Ready) && DecideGuard(Busy(epoch, inp, recs, Ready), id, c.n, c.approval, c.counted)
      modifies this`recs, journal, Actors()
      ensures journal.epoch == old(journal.epoch) && (old(Synced()) ==> Synced())
      ensures Run(s0, t) && Shows(t, Ready)
      ensures Accepts(old(journal.State()), epoch, Key(id, c.n), 0) ==> Key(id, c.n) in recs
      ensures !Accepts(old(journal.State()), epoch, Key(id, c.n), 0) ==> recs == old(recs)
      ensures forall k :: k in recs && k !in old(recs) ==>
        k == Key(id, c.n) && recs[k].intent.approval == c.approval && recs[k].sends == 1
      ensures forall k :: k in old(recs) ==> k in recs && recs[k] == old(recs)[k]
    {
      hide Run, DecideGuard, Accepts, KeysOk, World, InputOk, SentTo;
      var ok;
      ok, t := Persist(id, c, s0, s);
      if ok {
        ghost var mid := recs;
        t := Send(Key(id, c.n), net, old(recs), s0, t);
        SentKeeps(mid, recs, Key(id, c.n), epoch, net, inp.now);
      }
    }

    method Persist(id: ProposalId, c: Choice, ghost s0: Sys, ghost s: Sys) returns (ok: bool, ghost t: Sys)
      requires Run(s0, s) && Shows(s, Ready) && DecideGuard(Busy(epoch, inp, recs, Ready), id, c.n, c.approval, c.counted)
      modifies this`recs, journal
      ensures journal.epoch == old(journal.epoch) && (old(Synced()) ==> Synced())
      ensures Run(s0, t) && Shows(t, if ok then Sending(Key(id, c.n), old(recs)) else Ready)
      ensures ok <==> Accepts(old(journal.State()), epoch, Key(id, c.n), 0)
      ensures !ok ==> recs == old(recs)
      ensures ok ==> Key(id, c.n) !in old(recs) && recs.Keys == old(recs.Keys) + {Key(id, c.n)}
      ensures ok ==> forall k :: k in old(recs) ==> recs[k] == old(recs)[k]
      ensures ok ==> recs[Key(id, c.n)].intent.provider in providers
      ensures ok ==> recs[Key(id, c.n)].intent.approval == c.approval && recs[Key(id, c.n)].sends == 1
    {
      hide Run, Apply, Enabled, Swap, CanWrite, Written, DecideGuard, Accepts, KeysOk;
      GuardMeans(EngAt(s, me), id, c.n, c.approval, c.counted);
      var r := NewRecord(inp, inp.props[id], c.n, epoch, c.approval, c.counted);
      ok := Put(r, s, Ready, Sending(Key(id, c.n), recs));
      if ok {
        t := TakeDecide(s0, s, me, id, c.n, c.approval, c.counted);
      } else {
        t := s;
      }
    }

    /** The attempt `decide` makes, and on whose approval. */
    method Choose(id: ProposalId, ghost s: Sys) returns (choice: Option<Choice>)
      requires Shows(s, Ready) && id in inp.props
      ensures choice.Some? ==> DecideGuard(Busy(epoch, inp, recs, Ready), id, choice.value.n, choice.value.approval, choice.value.counted)
      ensures forall n, a, d :: DecideGuard(Busy(epoch, inp, recs, Ready), id, n, a, d) ==> choice.Some? && choice.value.n == n
    {
      hide Authorised, NextAttempt, GatesPass, World;
      choice := None;
      var p := inp.props[id];
      var n := FindAttempt(recs, id);
      if n.None? {
        return;
      }
      var gates := Gates(inp, recs, p, false);
      var approved, counted, rejected := FindApproval(inp, p);
      if approved.None? {
        NobodyAuthorises(inp, p);
        return;
      }
      if gates != [] {
        return;
      }
      forall m: nat | NextAttempt(recs, id, m) ensures m == n.value {
        AttemptIsUnique(recs, id, n.value, m);
      }
      choice := Some(Choice(n.value, approved.value, counted));
    }

    /** One record's turn, if it occupies. */
    method Turn(k: Key, net: Net, ghost s0: Sys, ghost s: Sys) returns (ghost t: Sys)
      requires Run(s0, s) && Shows(s, Ready) && k in recs
      modifies this`recs, journal, Actors()
      ensures Run(s0, t) && Shows(t, Ready)
      ensures journal.epoch == old(journal.epoch) && (old(Synced()) ==> Synced())
      ensures journal.epoch > epoch ==> recs == old(recs)
      ensures old(Synced()) && journal.epoch <= epoch ==> Only(old(recs), recs, k) && Advanced(inp, k, old(recs)[k], recs[k], epoch, net, providers.Keys)
      ensures recs.Keys == old(recs.Keys)
    {
      hide Run, World, InputOk, AdvancedTo, TurnTaken, Adopted;
      t := s;
      RecordKey(recs, k);
      hide KeysOk;
      if !recs[k].phase.Occupies() {
        return;
      }
      t := Advance(k, net, s0, s);
      if old(Synced()) && journal.epoch <= epoch && old(recs)[k].fence <= epoch {
        ghost var answer := old(PollOf(k, net));
        TurnIsLocal(inp, old(recs), recs, k, epoch, net, answer);
      }
    }

    method AdvanceAll(net: Key -> Net, ghost s0: Sys, ghost s: Sys) returns (ghost t: Sys)
      requires Run(s0, s) && Shows(s, Ready)
      modifies this`recs, journal, Actors()
      ensures Run(s0, t) && Shows(t, Ready)
      ensures journal.epoch == old(journal.epoch) && (old(Synced()) ==> Synced())
      ensures journal.epoch > epoch ==> recs == old(recs)
      ensures old(Synced()) && journal.epoch <= epoch ==> AllAdvanced(inp, old(recs), recs, epoch, net, providers.Keys)
    {
      hide Run, Shows, Advanced;
      t := s;
      var left := recs.Keys;
      while left != {}
        invariant Run(s0, t) && Shows(t, Ready) && left <= recs.Keys && recs.Keys == old(recs.Keys)
        invariant journal.epoch == old(journal.epoch) && (old(Synced()) ==> Synced())
        invariant journal.epoch > epoch ==> recs == old(recs)
        invariant forall k :: k in left && old(Synced()) && journal.epoch <= epoch ==> recs[k] == old(recs)[k]
        invariant forall k :: k in recs && k !in left && old(Synced()) && journal.epoch <= epoch ==> Advanced(inp, k, old(recs)[k], recs[k], epoch, net(k), providers.Keys)
      {
        var k :| k in left;
        left := left - {k};
        t := Turn(k, net(k), s0, t);
      }
    }

    /** One record's verdict, if it ended without one. */
    method Judge(k: Key, snapshot: Snapshot, ghost s0: Sys, ghost s: Sys) returns (ghost t: Sys)
      requires Run(s0, s) && Shows(s, Ready) && k in recs
      modifies this`recs, journal
      ensures Run(s0, t) && Shows(t, Ready) && recs.Keys == old(recs.Keys)
      ensures journal.epoch == old(journal.epoch) && (old(Synced()) ==> Synced())
      ensures journal.epoch > epoch ==> recs == old(recs)
      ensures old(Synced()) && journal.epoch <= epoch ==> JudgedTo(inp, old(recs)[k], recs[k], epoch, snapshot)
      ensures forall j :: j in recs && j != k ==> recs[j] == old(recs)[j]
    {
      hide Run, World, InputOk, KeysOk, R.RecoveryOf, Stamped;
      t := s;
      if recs[k].endedAt != 0 && !recs[k].recovery.Final() {
        t := Recover(k, snapshot, s0, t);
      }
    }

    method RecoverAll(snapshot: Snapshot, ghost s0: Sys, ghost s: Sys) returns (ghost t: Sys)
      requires Run(s0, s) && Shows(s, Ready)
      modifies this`recs, journal
      ensures Run(s0, t) && Shows(t, Ready)
      ensures journal.epoch == old(journal.epoch) && (old(Synced()) ==> Synced())
      ensures journal.epoch > epoch ==> recs == old(recs)
      ensures old(Synced()) && journal.epoch <= epoch ==> AllJudged(inp, old(recs), recs, epoch, snapshot)
    {
      hide Run, Shows, JudgedTo;
      t := s;
      var left := recs.Keys;
      while left != {}
        invariant Run(s0, t) && Shows(t, Ready) && left <= recs.Keys && recs.Keys == old(recs.Keys)
        invariant journal.epoch == old(journal.epoch) && (old(Synced()) ==> Synced())
        invariant journal.epoch > epoch ==> recs == old(recs)
        invariant forall k :: k in left && old(Synced()) && journal.epoch <= epoch ==> recs[k] == old(recs)[k]
        invariant forall k :: k in recs && k !in left && old(Synced()) && journal.epoch <= epoch ==> JudgedTo(inp, old(recs)[k], recs[k], epoch, snapshot)
      {
        var k :| k in left;
        left := left - {k};
        t := Judge(k, snapshot, s0, t);
      }
    }

    method DecideAll(net: Key -> Net, ghost s0: Sys, ghost s: Sys) returns (ghost t: Sys)
      requires Run(s0, s) && Shows(s, Ready)
      modifies this`recs, journal, Actors()
      ensures Run(s0, t) && Shows(t, Ready)
      ensures journal.epoch == old(journal.epoch) && (old(Synced()) ==> Synced())
      ensures journal.epoch > epoch ==> recs == old(recs)
      ensures old(Synced()) && journal.epoch <= epoch ==> AllDecided(inp, old(recs), recs, epoch)
    {
      hide Run, Shows, Justly, Decided;
      t := s;
      var left := inp.props.Keys;
      while left != {}
        invariant Run(s0, t) && Shows(t, Ready) && left <= inp.props.Keys && Sub(old(recs), recs)
        invariant journal.epoch == old(journal.epoch) && (old(Synced()) ==> Synced())
        invariant journal.epoch > epoch ==> recs == old(recs)
        invariant forall id :: id in inp.props && id !in left && old(Synced()) && journal.epoch <= epoch ==> Decided(inp, old(recs), recs, epoch, id)
        invariant forall k :: k in recs && k !in old(recs) ==> Justly(inp, old(recs), recs, epoch, k)
      {
        var id :| id in left;
        left := left - {id};
        ghost var mid := recs;
        t := DecideNext(id, net(Key(id, 1)), old(recs), s0, t);
        forall i | Decided(inp, old(recs), mid, epoch, i) ensures Decided(inp, old(recs), recs, epoch, i) {
          DecidedStays(inp, old(recs), mid, recs, epoch, i);
        }
        forall k | k in mid && Justly(inp, old(recs), mid, epoch, k) ensures Justly(inp, old(recs), recs, epoch, k) {
          JustlyStays(inp, old(recs), mid, recs, epoch, k);
        }
      }
    }

    /** Decide one proposal, seen from where the loop began. */
    method DecideNext(id: ProposalId, net: Net, ghost before: map<Key, Record>, ghost s0: Sys, ghost s: Sys) returns (ghost t: Sys)
      requires Run(s0, s) && Shows(s, Ready) && id in inp.props && Sub(before, recs)
      modifies this`recs, journal, Actors()
      ensures Run(s0, t) && Shows(t, Ready)
      ensures journal.epoch == old(journal.epoch) && (old(Synced()) ==> Synced())
      ensures journal.epoch > epoch ==> recs == old(recs)
      ensures Sub(old(recs), recs)
      ensures old(Synced()) && journal.epoch <= epoch ==> Decided(inp, before, recs, epoch, id)
      ensures forall k :: k in recs && k !in old(recs) ==> Justly(inp, before, recs, epoch, k)
    {
      hide Run, World, InputOk, KeysOk, DecideGuard;
      t := Decide(id, net, s0, s);
      if old(Synced()) && journal.epoch <= epoch {
        forall n, a, d | DecideGuard(Busy(epoch, inp, old(recs), Ready), id, n, a, d) ensures Key(id, n) in recs {
          GuardMeans(Busy(epoch, inp, old(recs), Ready), id, n, a, d);
        }
      }
    }

    /** `Step`: claim an epoch if there is none yet, list, derive, advance what
        occupies, judge what ended, decide every proposal. Whatever the network
        does, the step is a run of the protocol, so what holds in every
        reachable state holds while it runs and after it. An overtaken engine
        changes no record; the newest one takes every turn. */
    method Step(snapshot: Snapshot, assessment: seq<TargetAssessment>, profile: Option<Profile>,
                decisions: seq<Decision>, genuine: set<Decision>, now: Time, net: Key -> Net, ghost s0: Sys, ghost s: Sys)
      returns (ghost t: Sys, ghost advanced: map<Key, Record>, ghost judged: map<Key, Record>)
      requires Init(s0) && Run(s0, s) && ShowsIdle(s) && 0 < now <= s.now
      requires profile.Some? ==> ProfileOk(profile.value)
      modifies this, journal, Actors()
      ensures Run(s0, t) && Reachable(t) && ShowsIdle(t)
      ensures epoch > 0 && (old(epoch) != 0 ==> epoch == old(epoch))
      ensures inp.now == now && inp.decisions == decisions && WellDerived(inp.props, old(journal.recs))
      ensures journal.epoch > epoch ==> journal.recs == old(journal.recs)
      ensures journal.epoch <= epoch ==> AllAdvanced(inp, old(journal.recs), advanced, epoch, net, providers.Keys)
      ensures journal.epoch <= epoch ==> AllJudged(inp, advanced, judged, epoch, snapshot)
      ensures journal.epoch <= epoch ==> AllDecided(inp, judged, journal.recs, epoch)
    {
      hide Run, WellDerived, ProfileOk, Init, AllCoherent, Shows, World, InputOk, KeysOk, AllAdvanced, AllJudged, AllDecided;
      CoherentStart(s0, s);
      t := Claim(s0, s);
      t := Open(snapshot, assessment, profile, decisions, genuine, now, s0, t);
      t := AdvanceAll(net, s0, t);
      advanced := recs;
      t := RecoverAll(snapshot, s0, t);
      judged := recs;
      t := DecideAll(net, s0, t);
      t := Finish(s0, t);
      assert Reachable(t);
    }

    method Finish(ghost s0: Sys, ghost s: Sys) returns (ghost t: Sys)
      requires Run(s0, s) && Shows(s, Ready) && epoch > 0
      ensures Run(s0, t) && ShowsIdle(t)
    {
      hide Run, InputOk, KeysOk;
      t := TakeFinish(s0, s, me);
    }

    /** The epoch is claimed once, on the first step. */
    method Claim(ghost s0: Sys, ghost s: Sys) returns (ghost t: Sys)
      requires Run(s0, s) && ShowsIdle(s)
      modifies this`epoch, journal
      ensures Run(s0, t) && World(t) && EngAt(t, me) == Idle(epoch)
      ensures epoch > 0 && (old(epoch) != 0 ==> epoch == old(epoch))
      ensures t.now == s.now && t.journal.recs == s.journal.recs && journal.recs == old(journal.recs)
    {
      hide Run;
      t := s;
      if epoch == 0 {
        t := ClaimEpoch(s0, s, me);
        epoch := journal.Epoch();
      }
    }

    /** The head of a step: list the journal, then derive the proposals. */
    method Open(snapshot: Snapshot, assessment: seq<TargetAssessment>, profile: Option<Profile>,
                decisions: seq<Decision>, genuine: set<Decision>, now: Time, ghost s0: Sys, ghost s: Sys)
      returns (ghost t: Sys)
      requires Run(s0, s) && World(s) && EngAt(s, me) == Idle(epoch) && AllCoherent(s.journal.recs) && 0 < now <= s.now
      requires profile.Some? ==> ProfileOk(profile.value)
      modifies this`recs, this`inp
      ensures Run(s0, t) && Shows(t, Ready)
      ensures recs == journal.recs && WellDerived(inp.props, recs) && inp.now == now && inp.decisions == decisions
      ensures profile.Some? ==> forall id :: id in inp.props ==> Proposals.Justified(snapshot.targets, assessment, profile.value, recs, inp.props[id])
    {
      hide Run, Apply, Enabled, Swap, ProfileOk, Proposals.Justified, Proposals.Covered, WellDerived, AllCoherent, KeysOk;
      recs := journal.List();
      var props := Proposals.Derive(snapshot.targets, assessment, profile, recs);
      inp := StepInput(now, props, decisions, genuine, registry, journal.durable);
      CoherentKeys(recs);
      DerivedExecutable(props, recs);
      t := TakeBegin(s0, s, me, inp);
    }
  }
}
