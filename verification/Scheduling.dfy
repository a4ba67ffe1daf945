/** What the investigator decides from: queries, episodes and turns, which slot
    is asked next, when an episode may start, and what one turn of a target
    must therefore do (pkg/investigate/investigator.go). */
module Scheduling {
  import opened Wrappers
  import opened OpsTypes
  import opened Predicates
  import EvidenceRules
  import opened Cache
  import opened Ledger
  import opened Conclusions
  import opened Rotation
  import C = Candidates

  datatype Query = Query(key: ApplicabilityKey, maxAge: Duration)

  /** By target UID, then by slot. */
  type Queries = map<string, map<string, Query>>

  /** Each query asks for the slot it is filed under. */
  predicate QueriesOk(slots: map<string, Query>) {
    forall s :: s in slots ==> slots[s].key.slot == s
  }

  /** How one provider call ends. inTime: its context did not expire; sliceFirst:
      the run slice was what ended it. */
  datatype Answer = Answer(inTime: bool, sliceFirst: bool, available: bool, value: Value, observedAt: Time, validUntil: Time)

  /** When each slot of one identity was last called, as a sequence number. */
  datatype Progress = Progress(key: EpisodeKey, next: nat, order: map<string, nat>)

  function Asked(order: map<string, nat>, s: string): nat {
    if s in order then order[s] else 0
  }

  /** a is asked before b among equals: less recently asked, then by name. */
  predicate Sooner(order: map<string, nat>, a: string, b: string) {
    Asked(order, a) < Asked(order, b) || (Asked(order, a) == Asked(order, b) && (a == b || Below(a, b)))
  }

  lemma SoonerOrders(order: map<string, nat>, a: string, b: string)
    ensures Sooner(order, a, a) && (Sooner(order, a, b) || Sooner(order, b, a))
    ensures forall c :: Sooner(order, a, b) && Sooner(order, b, c) ==> Sooner(order, a, c)
  {
    BelowTotal(a, b);
    forall c | Sooner(order, a, b) && Sooner(order, b, c) ensures Sooner(order, a, c) {
      if Below(a, b) && Below(b, c) {
        BelowTransitive(a, b, c);
      }
    }
  }

  function KeyOf(ta: TargetAssessment, slots: map<string, Query>): EpisodeKey {
    EpisodeKey(ta.target.uid, ta.contract, set s | s in slots :: BoundSlot(slots[s].key.slot, slots[s].key.provider, slots[s].key.resolvedUid))
  }

  ghost predicate Monotone(clock: nat -> Time) {
    forall i: nat, j: nat :: i <= j ==> clock(i) <= clock(j)
  }

  /** Nothing recorded is ever lost. */
  ghost predicate Extends(g: History, h: History) {
    g.starts <= h.starts && g.calls <= h.calls
  }

  /** The cooldown of u's record is over. */
  predicate Cooled(es: map<string, Episode>, u: string, now: Time, cooldown: Duration) {
    u in es && now >= es[u].started + cooldown
  }

  /** The record of a target that is no longer queryable: ended, or forgotten. */
  function Dropped(es: map<string, Episode>, u: string, now: Time, cooldown: Duration): map<string, Episode> {
    if u !in es || Cooled(es, u, now, cooldown) then es - {u}
    else if es[u].state == Active then es[u := es[u].(state := Superseded)]
    else es
  }

  lemma CooledSame(es: map<string, Episode>, fs: map<string, Episode>, u: string, now: Time, cooldown: Duration)
    requires u in es && u in fs && es[u].started == fs[u].started
    ensures Cooled(es, u, now, cooldown) == Cooled(fs, u, now, cooldown) == (fs[u].started + cooldown <= now)
  {
  }

  lemma DroppedMeans(was: map<string, Episode>, es: map<string, Episode>, u: string, now: Time, cooldown: Duration)
    requires u in was && u in es && es[u] == was[u]
    ensures var ds := Dropped(es, u, now, cooldown);
      && (u in ds <==> !Cooled(was, u, now, cooldown))
      && (u in ds ==> ds[u].state != Active && (ds[u] == was[u] || ds[u] == was[u].(state := Superseded)))
      && ds - {u} == es - {u}
      && forall v :: v != u ==> (v in ds <==> v in es) && (v in es ==> ds[v] == es[v])
  {
  }

  /** Records of queryable targets stay as they are; of the others only those
      that still cool down stay, ended. */
  ghost predicate Purged(before: map<string, Episode>, after: map<string, Episode>, queryable: set<string>, now: Time, cooldown: Duration) {
    && after.Keys <= before.Keys
    && (forall u :: u in before ==> (u in after <==> u in queryable || !Cooled(before, u, now, cooldown)))
    && (forall u :: u in after ==> after[u] == before[u] || (u !in queryable && after[u] == before[u].(state := Superseded)))
    && (forall u :: u in after && u !in queryable ==> after[u].state != Active)
  }

  /** Only terminal records whose cooldown is over go. */
  ghost predicate Pruned(before: map<string, Episode>, after: map<string, Episode>, now: Time, cooldown: Duration) {
    && after.Keys <= before.Keys
    && (forall u :: u in before ==> (u in after <==> before[u].state == Active || !Cooled(before, u, now, cooldown)))
    && (forall u :: u in after ==> after[u] == before[u])
  }

  predicate Finished(es: map<string, Episode>, u: string) {
    u in es && (es[u].state == Resolved || es[u].state == Refreshed)
  }

  /** The episode of u ended and nothing else changed. */
  ghost predicate EndedOnly(before: map<string, Episode>, after: map<string, Episode>, u: string) {
    u in before && u in after && after[u].state != Active && after == before[u := before[u].(state := after[u].state)]
  }

  /** Another call fits the episode: a new slot, in time, within calls and steps. */
  ghost predicate Chargeable(l: Limits, es: map<string, Episode>, u: string, slot: string, now: Time) {
    && u in es && slot !in es[u].dispatched && now < es[u].started + l.deadline
    && es[u].calls < l.maxCalls && es[u].steps < l.maxSteps
  }

  predicate Running(es: map<string, Episode>, u: string) {
    u in es && es[u].state == Active
  }

  /** A turn only asks what may be charged. */
  ghost predicate MayAsk(turn: Move, slots: map<string, Query>, l: Limits, es: map<string, Episode>, u: string, now: Time) {
    turn.Ask? ==> turn.slot in slots && Chargeable(l, es, u, turn.slot, now)
  }

  /** No other target's record changed. */
  ghost predicate Others(before: map<string, Episode>, after: map<string, Episode>, u: string) {
    before - {u} == after - {u}
  }

  /** No other target has an episode running that had none. */
  ghost predicate Quieter(before: map<string, Episode>, after: map<string, Episode>, u: string) {
    forall v {:trigger Running(after, v)} :: v != u && Running(after, v) ==> Running(before, v)
  }

  lemma OthersQuieter(before: map<string, Episode>, after: map<string, Episode>, u: string)
    requires Others(before, after, u)
    ensures Quieter(before, after, u)
  {
    forall v | v != u && Running(after, v) ensures Running(before, v) {
      assert v in after - {u} && v in before - {u} && (after - {u})[v] == (before - {u})[v];
    }
  }

  lemma QuieterTrans(a: map<string, Episode>, b: map<string, Episode>, c: map<string, Episode>, u: string)
    requires Quieter(a, b, u) && Quieter(b, c, u)
    ensures Quieter(a, c, u)
  {
  }

  predicate SameRecord(before: map<string, Episode>, after: map<string, Episode>, u: string) {
    u in before && u in after && after[u] == before[u]
  }

  lemma PrunedQuieter(before: map<string, Episode>, after: map<string, Episode>, now: Time, cooldown: Duration, u: string)
    requires Pruned(before, after, now, cooldown)
    ensures Quieter(before, after, u)
  {
  }

  /** The targets whose turn was completed have no episode running. */
  ghost predicate AllQuiet(es: map<string, Episode>, done: seq<string>) {
    forall k {:trigger done[k]} :: 0 <= k < |done| ==> !Running(es, done[k])
  }

  lemma QuietStays(before: map<string, Episode>, after: map<string, Episode>, u: string, done: seq<string>)
    requires AllQuiet(before, done) && Quieter(before, after, u) && u !in done
    ensures AllQuiet(after, done)
  {
    forall k | 0 <= k < |done| ensures !Running(after, done[k]) {
      assert done[k] in done;
    }
  }

  lemma NobodyRunning(es: map<string, Episode>)
    ensures AllQuiet(es, [])
  {
  }

  lemma QuietToo(es: map<string, Episode>, done: seq<string>, u: string)
    requires AllQuiet(es, done) && !Running(es, u)
    ensures AllQuiet(es, done + [u])
  {
  }

  /** The next target had no turn in this run so far. */
  lemma NotYet(uids: seq<string>, start: nat, k: nat)
    requires Sorted(uids) && k < |uids|
    ensures Turn(uids, start, k) !in Turns(uids, start, k)
  {
    hide Sorted, Turn;
    forall j | 0 <= j < k ensures Turns(uids, start, k)[j] != Turn(uids, start, k) {
      TurnsApart(uids, start, j, k);
    }
  }

  /** Records may be missing, none is different. */
  ghost predicate Fewer(before: map<string, Episode>, after: map<string, Episode>) {
    forall u :: u in after ==> u in before && after[u] == before[u]
  }

  /** The record once a call of the slot is charged. */
  function Charged(ep: Episode, slot: string): Episode {
    ep.(steps := ep.steps + 1, calls := ep.calls + 1, dispatched := ep.dispatched + {slot})
  }

  /** A round that charged a call: it goes on one step further, or its episode
      was ended by the call, or cut off. */
  lemma RoundCharged(es: map<string, Episode>, mid: map<string, Episode>, es': map<string, Episode>, u: string, slot: string, again: bool, maxSteps: int)
    requires Running(es, u) && mid == es[u := Charged(es[u], slot)] && es[u].steps < maxSteps
    requires es' == mid || (!again && EndedOnly(mid, es', u) && !Finished(es', u))
    ensures u in es' && Others(es, es', u) && !Finished(es', u)
    ensures again ==> Stepped(es, es', u, maxSteps)
  {
  }

  /** A round that charged nothing. */
  lemma RoundOver(es: map<string, Episode>, es': map<string, Episode>, u: string)
    requires Running(es, u) && (es' == es || EndedOnly(es, es', u))
    ensures u in es' && Others(es, es', u) && (EndedOnly(es, es', u) ==> !Running(es', u)) && (es' == es ==> !Finished(es', u))
  {
  }

  lemma ChargedRuns(es: map<string, Episode>, u: string, slot: string, g: History, at: Time)
    requires Running(es, u) && u in g.last
    ensures Running(es[u := Charged(es[u], slot)], u)
    ensures Extends(g, Called(g, u, slot, at)) && Called(g, u, slot, at).starts == g.starts
  {
  }

  /** The episode goes on, one step further and within its steps. */
  ghost predicate Stepped(before: map<string, Episode>, after: map<string, Episode>, u: string, maxSteps: int) {
    Running(after, u) && u in before && before[u].steps < after[u].steps <= maxSteps
  }

  ghost predicate Admitted(before: Table, after: Table, o: Observation) {
    after == before[o.key := AdmitTo(EntryAt(before, o.key), o)]
  }

  /** The statement a finished call leaves: a late, missing or future-stamped
      answer is an outage, never a value. */
  function Statement(q: Query, a: Answer, took: Duration, timeout: Duration, after: Time, deadline: Time): Observation {
    if !a.inTime || took > timeout || after >= deadline || !a.available || a.observedAt > after
    then Observation(q.key, ProviderUnavailableOutcome, ZeroValue, after, 0)
    else Observation(q.key, ValueOutcome, a.value, a.observedAt, a.validUntil)
  }

  /** Nothing held is ever stamped after its receipt, so no value taken in
      later can be shadowed by one from the future. */
  lemma NeverFromTheFuture(q: Query, a: Answer, took: Duration, timeout: Duration, after: Time, deadline: Time)
    ensures var o := Statement(q, a, took, timeout, after, deadline);
      && o.key == q.key && o.observedAt <= after
      && (IsValue(o) ==> after < deadline && took <= timeout && o.observedAt == a.observedAt)
  {
  }

  /** Exactly what a finished call leaves: the provider's value as it gave it,
      when it is there, in time by every bound and not from the future; else an
      outage as of the instant the call was over. */
  lemma StatementMeaning(q: Query, a: Answer, took: Duration, timeout: Duration, after: Time, deadline: Time)
    ensures var o := Statement(q, a, took, timeout, after, deadline);
      var good := a.available && a.inTime && took <= timeout && after < deadline && a.observedAt <= after;
      && o.key == q.key
      && (good ==> o.outcome == ValueOutcome && o.value == a.value && o.observedAt == a.observedAt && o.validUntil == a.validUntil)
      && (!good ==> o.outcome == ProviderUnavailableOutcome && o.observedAt == after && o.validUntil == 0)
  {
  }

  /** Slots take turns: one never asked, or asked longer ago, goes before. */
  lemma OldestFirst(order: map<string, nat>, a: string, b: string)
    requires b in order && order[b] > if a in order then order[a] else 0
    ensures Sooner(order, a, b) && !Sooner(order, b, a)
  {
  }

  /** ... and among slots asked equally long ago the first by name. */
  lemma ThenByName(order: map<string, nat>, a: string, b: string)
    requires Asked(order, a) == Asked(order, b) && Below(a, b)
    ensures Sooner(order, a, b) && !Sooner(order, b, a)
  {
    BelowIrreflexive(a);
    if Below(b, a) {
      BelowTransitive(a, b, a);
    }
  }

  /** An episode goes on under the same target instance, contract and bindings only. */
  lemma KeyMeaning(ta: TargetAssessment, slots: map<string, Query>, ta': TargetAssessment, slots': map<string, Query>)
    requires QueriesOk(slots) && QueriesOk(slots')
    ensures KeyOf(ta, slots) == KeyOf(ta', slots') <==>
      && ta.target.uid == ta'.target.uid && ta.contract == ta'.contract && slots.Keys == slots'.Keys
      && forall s :: s in slots && s in slots' ==> slots[s].key.provider == slots'[s].key.provider && slots[s].key.resolvedUid == slots'[s].key.resolvedUid
  {
    var a, b := KeyOf(ta, slots).bindings, KeyOf(ta', slots').bindings;
    forall s | s in slots ensures BoundSlot(s, slots[s].key.provider, slots[s].key.resolvedUid) in a { }
    forall s | s in slots' ensures BoundSlot(s, slots'[s].key.provider, slots'[s].key.resolvedUid) in b { }
    forall x | x in a ensures x.slot in slots && x == BoundSlot(x.slot, slots[x.slot].key.provider, slots[x.slot].key.resolvedUid) { }
    forall x | x in b ensures x.slot in slots' && x == BoundSlot(x.slot, slots'[x.slot].key.provider, slots'[x.slot].key.resolvedUid) { }
    if a == b {
      forall s ensures s in slots <==> s in slots' { }
      forall s | s in slots && s in slots' ensures BoundSlot(s, slots[s].key.provider, slots[s].key.resolvedUid) in b { }
    }
  }

  lemma TurnIs(uids: seq<string>, start: nat, k: nat)
    requires start < |uids| && k < |uids|
    ensures uids[(start + k) % |uids|] == Turn(uids, start, k) && Turn(uids, start, k) in uids
  {
    WrapIsMod(|uids|, start + k);
  }

  // ── which query next ──────────────────────────────────────────────────────

  /** A capability predicate reads the slot, or an envelope that is selected or required does. */
  predicate UsedSlot(c: Contract, selected: string, s: string) {
    || (exists cp, r :: cp in c.capabilities && r in cp.requirements && r.predicate_.Some? && r.predicate_.value.assertion == s)
    || (exists e, p :: e in c.envelopes && p in e.requirements && p.assertion == s
          && (e.name == selected || exists cp, r :: cp in c.capabilities && r in cp.requirements && r.envelope == e.name))
  }

  predicate HasCurrent(ta: TargetAssessment, s: string) {
    s in ta.evidence && ta.evidence[s].Current?
  }

  /** The open hypotheses a call of this slot could decide. */
  function OpenOn(cands: set<C.Candidate>, s: string): set<C.Candidate> {
    set x | x in cands && x.id.Names() == C.Input(C.OfAssertion, s) && x.status == C.Open
  }

  /** When held value evidence is due for refresh; margin is the fraction of maxAge before expiry. */
  function RefreshDue(list: seq<Observation>, maxAge: Duration, margin: Duration): Option<Time> {
    if list == [] || !IsValue(list[0]) || maxAge <= 0 then None
    else
      var o := list[0];
      var expiry := if o.validUntil != 0 && o.validUntil < o.observedAt + maxAge then o.validUntil else o.observedAt + maxAge;
      Some(expiry - margin)
  }

  /** Everything a query could decide about the target, open or not. */
  ghost predicate Hypotheses(ta: TargetAssessment, c: Contract, cands: set<C.Candidate>) {
    forall x :: x in cands <==> C.IsCandidate(ta, c, x)
  }

  /** The slot is free to be asked and would decide an open hypothesis. */
  ghost predicate Useful(ta: TargetAssessment, cands: set<C.Candidate>, slots: map<string, Query>, spent: set<string>, s: string) {
    s in slots && s !in spent && !HasCurrent(ta, s) && OpenOn(cands, s) != {}
  }

  /** The slot is free to be asked, read by something, current and due. */
  ghost predicate Refreshable(held: Table, margin: Duration -> Duration, ta: TargetAssessment, c: Contract, slots: map<string, Query>,
                        spent: set<string>, now: Time, s: string) {
    && s in slots && s !in spent && HasCurrent(ta, s) && UsedSlot(c, ta.envelopeSelection, s)
    && var due := RefreshDue(if slots[s].key in held then held[slots[s].key].list else [], slots[s].maxAge, margin(slots[s].maxAge));
       due.Some? && due.value <= now
  }

  /** Some slot is worth a call. */
  ghost predicate Askable(held: Table, margin: Duration -> Duration, ta: TargetAssessment, c: Contract, cands: set<C.Candidate>,
                          slots: map<string, Query>, spent: set<string>, now: Time) {
    exists s :: Useful(ta, cands, slots, spent, s) || Refreshable(held, margin, ta, c, slots, spent, now, s)
  }

  /** The slot to ask: the useful one that decides most, the least recently
      asked among equals, then the first by name; only without any, the stale
      slot asked least recently, then the first by name. */
  ghost predicate Preferred(held: Table, margin: Duration -> Duration, ta: TargetAssessment, c: Contract, cands: set<C.Candidate>,
                            slots: map<string, Query>, spent: set<string>, order: map<string, nat>, now: Time, s: string) {
    if exists u :: Useful(ta, cands, slots, spent, u) then
      && Useful(ta, cands, slots, spent, s)
      && forall u :: Useful(ta, cands, slots, spent, u) ==>
           || |OpenOn(cands, u)| < |OpenOn(cands, s)|
           || (|OpenOn(cands, u)| == |OpenOn(cands, s)| && Sooner(order, s, u))
    else
      && Refreshable(held, margin, ta, c, slots, spent, now, s)
      && forall u :: Refreshable(held, margin, ta, c, slots, spent, now, u) ==> Sooner(order, s, u)
  }

  // ── what a turn must do ───────────────────────────────────────────────────

  /** The valid target as assessed at that instant on what is held, and its contract. */
  ghost predicate View(base: Snapshot, held: Table, at: Time, uid: string, ta: TargetAssessment, c: Contract) {
    at != 0 && Assesses(base, AllHeld(held), at, uid, ta) && ta.valid && IsContract(base, uid, c)
  }

  /** There is one view at most. */
  lemma OneView(base: Snapshot, held: Table, at: Time, uid: string, ta: TargetAssessment, c: Contract, ta': TargetAssessment, c': Contract)
    requires View(base, held, at, uid, ta, c) && View(base, held, at, uid, ta', c')
    ensures ta == ta' && c == c'
  {
    hide Assesses, AllHeld;
    AssessedOnce(base, AllHeld(held), at, uid, ta, ta');
  }

  lemma OneSetOfHypotheses(ta: TargetAssessment, c: Contract, a: set<C.Candidate>, b: set<C.Candidate>)
    requires Hypotheses(ta, c, a) && Hypotheses(ta, c, b)
    ensures a == b
  {
    hide C.IsCandidate;
  }

  /** Something is worth asking about the target. */
  ghost predicate AskDue(base: Snapshot, held: Table, margin: Duration -> Duration, uid: string, slots: map<string, Query>, spent: set<string>, at: Time) {
    exists ta, c, cands :: View(base, held, at, uid, ta, c) && Hypotheses(ta, c, cands) && Askable(held, margin, ta, c, cands, slots, spent, at)
  }

  /** ... and this slot first. */
  ghost predicate AskFirst(base: Snapshot, held: Table, margin: Duration -> Duration, uid: string, slots: map<string, Query>, spent: set<string>,
                           order: map<string, nat>, at: Time, s: string) {
    exists ta, c, cands :: View(base, held, at, uid, ta, c) && Hypotheses(ta, c, cands) && Preferred(held, margin, ta, c, cands, slots, spent, order, at, s)
  }

  /** What the one view says is what there is to ask. */
  lemma ViewDecides(base: Snapshot, held: Table, margin: Duration -> Duration, at: Time, uid: string, ta: TargetAssessment, c: Contract,
                    slots: map<string, Query>, spent: set<string>)
    requires View(base, held, at, uid, ta, c)
    ensures AskDue(base, held, margin, uid, slots, spent, at) <==> SomethingAskable(held, margin, ta, c, slots, spent, at)
  {
    hide View, Hypotheses, Askable;
    if AskDue(base, held, margin, uid, slots, spent, at) {
      var ta', c', cands :| View(base, held, at, uid, ta', c') && Hypotheses(ta', c', cands) && Askable(held, margin, ta', c', cands, slots, spent, at);
      OneView(base, held, at, uid, ta, c, ta', c');
    }
  }

  lemma DueIsValid(base: Snapshot, held: Table, margin: Duration -> Duration, at: Time, uid: string, slots: map<string, Query>, spent: set<string>)
    requires AskDue(base, held, margin, uid, slots, spent, at)
    ensures at != 0 && ValidUid(base, uid)
  {
    hide Assesses, AllHeld, Hypotheses, Askable, ValidUid;
    var ta, c, cands :| View(base, held, at, uid, ta, c) && Hypotheses(ta, c, cands) && Askable(held, margin, ta, c, cands, slots, spent, at);
    AssessedValid(base, AllHeld(held), at, uid, ta);
  }

  lemma DerivedAll(ta: TargetAssessment, c: Contract, cands: set<C.Candidate>)
    requires forall x :: x in cands <==> C.IsCandidate(ta, c, x)
    ensures Hypotheses(ta, c, cands)
  {
  }

  lemma NothingOpenConcludes(base: Snapshot, held: Table, at: Time, uid: string, ta: TargetAssessment, c: Contract, cands: set<C.Candidate>)
    requires View(base, held, at, uid, ta, c) && Hypotheses(ta, c, cands) && !C.HasOpen(cands)
    ensures Concluded(base, AllHeld(held), at, uid)
  {
    hide Assesses, AllHeld, C.IsCandidate, ContractWith, IsContract;
    SameContract(base, AllHeld(held), at, uid, ta);
    assert C.NothingOpen(ta, c);
  }

  lemma FirstToAsk(base: Snapshot, held: Table, margin: Duration -> Duration, uid: string, ta: TargetAssessment, c: Contract, cands: set<C.Candidate>,
                   slots: map<string, Query>, spent: set<string>, order: map<string, nat>, at: Time, s: string)
    requires View(base, held, at, uid, ta, c) && Hypotheses(ta, c, cands) && Preferred(held, margin, ta, c, cands, slots, spent, order, at, s)
    ensures AskFirst(base, held, margin, uid, slots, spent, order, at, s)
  {
    hide View, Hypotheses, Preferred;
  }

  /** The target is seen at that instant under this identity. */
  ghost predicate SeenAs(base: Snapshot, held: Table, at: Time, uid: string, slots: map<string, Query>, key: EpisodeKey) {
    exists ta, c :: View(base, held, at, uid, ta, c) && key == KeyOf(ta, slots)
  }

  /** The records that restrict admission: running, or not yet cooled down. */
  function Resident(es: map<string, Episode>, now: Time, cooldown: Duration): set<string> {
    set u | u in es && (es[u].state == Active || now < es[u].started + cooldown)
  }

  /** The cooldown of the last episode is over and there is room for a record. */
  ghost predicate Admissible(l: Limits, es: map<string, Episode>, uid: string, now: Time) {
    && (uid in es ==> es[uid].started + l.cooldown <= now)
    && (uid in es || |Resident(es, now, l.cooldown)| < l.maxResident)
  }

  lemma Unchanged(es: map<string, Episode>, u: string)
    ensures Quieter(es, es, u) && Fewer(es, es)
  {
  }

  lemma BeginsQuiet(before: map<string, Episode>, mid: map<string, Episode>, after: map<string, Episode>, u: string)
    requires Quieter(before, mid, u) && u in after && after == mid[u := after[u]]
    ensures Quieter(before, after, u)
  {
    forall v | v != u && Running(after, v) ensures Running(before, v) {
      assert Running(mid, v);
    }
  }

  lemma ResidentsAreKept(es: map<string, Episode>, after: map<string, Episode>, now: Time, cooldown: Duration)
    requires Pruned(es, after, now, cooldown)
    ensures after.Keys == Resident(es, now, cooldown)
  {
  }

  lemma ResidentsFit(es: map<string, Episode>, now: Time, cooldown: Duration)
    ensures |Resident(es, now, cooldown)| <= |es|
  {
    var rs := Resident(es, now, cooldown);
    assert rs <= es.Keys;
    assert |es.Keys - rs| == |es.Keys| - |rs|;
    assert |es.Keys| == |es|;
  }

  /** Hypotheses are one set, so what is said of some is said of these. */
  ghost predicate SomethingUseful(ta: TargetAssessment, c: Contract, slots: map<string, Query>, spent: set<string>) {
    exists cands, s :: Hypotheses(ta, c, cands) && Useful(ta, cands, slots, spent, s)
  }

  /** An episode investigates exactly when some slot would decide something. */
  ghost function KindFor(ta: TargetAssessment, c: Contract, slots: map<string, Query>): EpisodeKind {
    if SomethingUseful(ta, c, slots, {}) then KindInvestigate else KindRefresh
  }

  /** The record of an episode that has just begun, with its whole budget. */
  ghost predicate Fresh(es: map<string, Episode>, progress: map<string, Progress>, u: string, key: EpisodeKey, kind: EpisodeKind, prog: Progress, now: Time) {
    && u in es && es[u] == Episode(key, kind, now, 0, 0, Active, {})
    && u in progress && progress[u] == prog
  }

  ghost predicate SomethingAskable(held: Table, margin: Duration -> Duration, ta: TargetAssessment, c: Contract, slots: map<string, Query>,
                                   spent: set<string>, now: Time) {
    exists cands :: Hypotheses(ta, c, cands) && Askable(held, margin, ta, c, cands, slots, spent, now)
  }

  lemma TheseHypotheses(held: Table, margin: Duration -> Duration, ta: TargetAssessment, c: Contract, cands: set<C.Candidate>,
                        slots: map<string, Query>, spent: set<string>, now: Time)
    requires Hypotheses(ta, c, cands)
    ensures SomethingUseful(ta, c, slots, spent) <==> exists s :: Useful(ta, cands, slots, spent, s)
    ensures SomethingAskable(held, margin, ta, c, slots, spent, now) <==> Askable(held, margin, ta, c, cands, slots, spent, now)
  {
    hide Useful, Askable, Hypotheses;
    forall other | Hypotheses(ta, c, other) ensures other == cands {
      OneSetOfHypotheses(ta, c, other, cands);
    }
  }

  /** The state of the investigator at the start or end of a turn. */
  datatype Glimpse = Glimpse(tick: nat, held: Table, es: map<string, Episode>, progress: map<string, Progress>, g: History)

  /** An episode of the identity in which the target is seen is running. */
  ghost predicate Resumes(base: Snapshot, uid: string, slots: map<string, Query>, b: Glimpse, at: Time) {
    Running(b.es, uid) && SeenAs(base, b.held, at, uid, slots, b.es[uid].key)
  }

  /** A turn that begins at b starts an episode: none of this identity runs,
      something is worth asking, and a start is admitted. */
  ghost predicate Starts(l: Limits, margin: Duration -> Duration, base: Snapshot, uid: string, slots: map<string, Query>, b: Glimpse, at: Time) {
    !Resumes(base, uid, slots, b, at) && AskDue(base, b.held, margin, uid, slots, {}, at) && Admissible(l, b.es, uid, at)
  }

  /** The selection history that steers the turn: that of the same identity only. */
  ghost predicate SteeredBy(base: Snapshot, uid: string, slots: map<string, Query>, b: Glimpse, at: Time, order: map<string, nat>) {
    if uid in b.progress && SeenAs(base, b.held, at, uid, slots, b.progress[uid].key) then order == b.progress[uid].order else order == map[]
  }

  /** The call episode e would make now is asked of this slot. */
  ghost predicate AsksFor(base: Snapshot, held: Table, margin: Duration -> Duration, uid: string, slots: map<string, Query>,
                          es: map<string, Episode>, order: map<string, nat>, at: Time, s: string) {
    uid in es && AskFirst(base, held, margin, uid, slots, es[uid].dispatched, order, at, s)
  }

  /** Episode e of uid has a call to make now. */
  ghost predicate HasCall(l: Limits, margin: Duration -> Duration, base: Snapshot, held: Table, uid: string, slots: map<string, Query>,
                          es: map<string, Episode>, at: Time) {
    uid in es && CallNow(l, margin, base, held, uid, slots, es[uid].started, es[uid].steps, es[uid].calls, es[uid].dispatched, at)
  }

  /** Another call of the episode fits its deadline, steps and calls, and
      something is worth asking. */
  ghost predicate CallNow(l: Limits, margin: Duration -> Duration, base: Snapshot, held: Table, uid: string, slots: map<string, Query>,
                          started: Time, steps: nat, calls: nat, spent: set<string>, at: Time) {
    && at < started + l.deadline && steps < l.maxSteps && calls < l.maxCalls
    && AskDue(base, held, margin, uid, slots, spent, at)
  }

  /** The next call recorded after before is one of the newest episode of uid,
      made at that instant, on the slot to be asked first. */
  ghost predicate CallMade(margin: Duration -> Duration, base: Snapshot, held: Table, uid: string, slots: map<string, Query>,
                           spent: set<string>, order: map<string, nat>, at: Time, before: seq<Call>, after: seq<Call>, start: nat) {
    && before <= after && |before| < |after|
    && var call := after[|before|];
       call.uid == uid && call.at == at && call.start == start && AskFirst(base, held, margin, uid, slots, spent, order, at, call.slot)
  }

  lemma CallStays(margin: Duration -> Duration, base: Snapshot, held: Table, uid: string, slots: map<string, Query>,
                  spent: set<string>, order: map<string, nat>, at: Time, before: seq<Call>, mid: seq<Call>, after: seq<Call>, start: nat)
    requires CallMade(margin, base, held, uid, slots, spent, order, at, before, mid, start) && mid <= after
    ensures CallMade(margin, base, held, uid, slots, spent, order, at, before, after, start)
  {
    hide AskFirst;
  }

  /** A turn that begins at b makes a call: the slice outlasts the first
      decision, and the episode started or resumed still has one to make then. */
  ghost predicate CallDue(l: Limits, margin: Duration -> Duration, clock: nat -> Time, sliceEnd: nat,
                          base: Snapshot, uid: string, slots: map<string, Query>, b: Glimpse) {
    var at, next := clock(b.tick), clock(b.tick + 1);
    && b.tick + 2 < sliceEnd
    && if Starts(l, margin, base, uid, slots, b, at) then CallNow(l, margin, base, b.held, uid, slots, at, 0, 0, {}, next)
       else
         && Resumes(base, uid, slots, b, at)
         && var e := b.es[uid]; CallNow(l, margin, base, b.held, uid, slots, e.started, e.steps, e.calls, e.dispatched, next)
  }

  /** The slots the episode had called when the turn began. */
  function SpentBy(starts: bool, b: Glimpse, uid: string): set<string> {
    if starts || uid !in b.es then {} else b.es[uid].dispatched
  }

  /** Call number |b.g.calls| was made in the turn: by the episode that started
      or that runs, at the second reading, on the slot to be asked first. */
  ghost predicate FirstCall(margin: Duration -> Duration, clock: nat -> Time, base: Snapshot, uid: string, slots: map<string, Query>,
                            starts: bool, b: Glimpse, a: Glimpse) {
    exists order, start: nat :: && SteeredBy(base, uid, slots, b, clock(b.tick), order)
      && start < |a.g.starts| && a.g.starts[start].uid == uid && (starts ==> start == |b.g.starts|)
      && CallMade(margin, base, b.held, uid, slots, SpentBy(starts, b, uid), order, clock(b.tick + 1), b.g.calls, a.g.calls, start)
  }

  /** What a turn of uid from b to a does: an episode starts exactly when one
      must, at the first reading; and when a call is due it is made. */
  ghost predicate TurnTaken(l: Limits, margin: Duration -> Duration, clock: nat -> Time, sliceEnd: nat,
                            base: Snapshot, uid: string, slots: map<string, Query>, b: Glimpse, a: Glimpse) {
    var starts := Starts(l, margin, base, uid, slots, b, clock(b.tick));
    && a.g.starts == (if starts then b.g.starts + [Start(uid, clock(b.tick))] else b.g.starts)
    && (CallDue(l, margin, clock, sliceEnd, base, uid, slots, b) ==> FirstCall(margin, clock, base, uid, slots, starts, b, a))
  }

  datatype Choice = Choice(slot: string, kind: EpisodeKind)

  /** What one round of the episode loop comes to. */
  datatype Move = Over | Paused | Ask(slot: string)

  /** A round asks a slot exactly as it should: the first to be asked, and one
      whenever the slice is not over and the episode has a call to make. */
  ghost predicate AsksRightly(l: Limits, margin: Duration -> Duration, base: Snapshot, held: Table, uid: string, slots: map<string, Query>,
                              es: map<string, Episode>, order: map<string, nat>, now: Time, sliced: bool, turn: Move) {
    && (turn.Ask? ==> AsksFor(base, held, margin, uid, slots, es, order, now, turn.slot))
    && (!sliced && HasCall(l, margin, base, held, uid, slots, es, now) ==> turn.Ask?)
  }

  ghost predicate Seen(base: Snapshot, held: Table, at: Time, uid: string) {
    exists ta, c :: View(base, held, at, uid, ta, c)
  }

  ghost predicate SomethingOpen(base: Snapshot, held: Table, at: Time, uid: string) {
    exists ta, c :: View(base, held, at, uid, ta, c) && !C.NothingOpen(ta, c)
  }

  /** The state in which a round that makes no call ends episode e: by the first
      of shutdown, deadline, steps and validity that says so; for want of calls
      while something is worth asking; else for want of a query while something
      is open; and resolved, or refreshed if that was what it was for, otherwise. */
  ghost function EndState(l: Limits, margin: Duration -> Duration, base: Snapshot, held: Table, uid: string, slots: map<string, Query>,
                          e: Episode, now: Time, shutdown: bool): EpisodeState {
    if shutdown then Cancelled
    else if now >= e.started + l.deadline then DeadlineHit
    else if e.steps >= l.maxSteps then ExhaustedSteps
    else if !Seen(base, held, now, uid) then TargetInvalid
    else if AskDue(base, held, margin, uid, slots, e.dispatched, now) then ExhaustedCalls
    else if SomethingOpen(base, held, now, uid) then NoAllowedQuery
    else if e.kind == KindRefresh then Refreshed
    else Resolved
  }

  /** What a round that makes no call leaves: a paused episode as it was, on the
      end of the slice only, and an ended one in the state it should have. */
  ghost predicate EndsRightly(l: Limits, margin: Duration -> Duration, base: Snapshot, held: Table, uid: string, slots: map<string, Query>,
                              es: map<string, Episode>, es': map<string, Episode>, now: Time, shutdown: bool, sliced: bool, turn: Move) {
    && (turn.Paused? ==> sliced && !shutdown && es' == es)
    && (turn.Over? ==>
          && (shutdown || !sliced) && uid in es
          && es' == es[uid := es[uid].(state := EndState(l, margin, base, held, uid, slots, es[uid], now, shutdown))])
  }

  lemma SeenSo(base: Snapshot, held: Table, at: Time, uid: string, ta: TargetAssessment, c: Contract)
    requires View(base, held, at, uid, ta, c)
    ensures Seen(base, held, at, uid) && (SomethingOpen(base, held, at, uid) <==> !C.NothingOpen(ta, c))
  {
    hide View, C.NothingOpen;
    if SomethingOpen(base, held, at, uid) {
      var ta', c' :| View(base, held, at, uid, ta', c') && !C.NothingOpen(ta', c');
      OneView(base, held, at, uid, ta, c, ta', c');
    }
  }

  lemma SeenIsValid(base: Snapshot, held: Table, at: Time, uid: string)
    requires Seen(base, held, at, uid)
    ensures at != 0 && ValidUid(base, uid)
  {
    hide Assesses, AllHeld, ValidUid;
    var ta, c :| View(base, held, at, uid, ta, c);
    AssessedValid(base, AllHeld(held), at, uid, ta);
  }

  lemma OpenIsOpen(ta: TargetAssessment, c: Contract, cands: set<C.Candidate>)
    requires Hypotheses(ta, c, cands)
    ensures C.HasOpen(cands) <==> !C.NothingOpen(ta, c)
  {
    hide C.IsCandidate;
  }

  /** A round makes the call there is to make, unless the slice is over. */
  ghost predicate RoundCalls(l: Limits, margin: Duration -> Duration, base: Snapshot, held: Table, uid: string, slots: map<string, Query>,
                             es: map<string, Episode>, order: map<string, nat>, now: Time, sliced: bool, before: History, after: History) {
    !sliced && HasCall(l, margin, base, held, uid, slots, es, now) ==>
      && uid in es && uid in before.last
      && CallMade(margin, base, held, uid, slots, es[uid].dispatched, order, now, before.calls, after.calls, before.last[uid])
  }

  lemma AskedIsCalled(l: Limits, margin: Duration -> Duration, base: Snapshot, held: Table, uid: string, slots: map<string, Query>,
                      es: map<string, Episode>, order: map<string, nat>, now: Time, sliced: bool, turn: Move, before: History)
    requires AsksRightly(l, margin, base, held, uid, slots, es, order, now, sliced, turn)
    ensures turn.Ask? && uid in before.last ==>
      RoundCalls(l, margin, base, held, uid, slots, es, order, now, sliced, before, Called(before, uid, turn.slot, now))
    ensures !turn.Ask? ==> RoundCalls(l, margin, base, held, uid, slots, es, order, now, sliced, before, before)
  {
    hide HasCall, AskFirst;
  }

  lemma RoundCallsStay(l: Limits, margin: Duration -> Duration, base: Snapshot, held: Table, uid: string, slots: map<string, Query>,
                       es: map<string, Episode>, order: map<string, nat>, now: Time, sliced: bool, before: History, mid: History, after: History)
    requires RoundCalls(l, margin, base, held, uid, slots, es, order, now, sliced, before, mid) && mid.calls <= after.calls
    ensures RoundCalls(l, margin, base, held, uid, slots, es, order, now, sliced, before, after)
  {
    hide HasCall, AskFirst;
  }

  // ── one turn ──────────────────────────────────────────────────────────────

  /** The identity in which the target is seen is that of the one view. */
  lemma SeenMeans(base: Snapshot, held: Table, at: Time, uid: string, slots: map<string, Query>, ta: TargetAssessment, c: Contract)
    requires View(base, held, at, uid, ta, c)
    ensures forall key :: SeenAs(base, held, at, uid, slots, key) <==> key == KeyOf(ta, slots)
  {
    hide View, KeyOf;
    forall key ensures SeenAs(base, held, at, uid, slots, key) <==> key == KeyOf(ta, slots) {
      if SeenAs(base, held, at, uid, slots, key) {
        var ta', c' :| View(base, held, at, uid, ta', c') && key == KeyOf(ta', slots);
        OneView(base, held, at, uid, ta, c, ta', c');
      }
    }
  }

  /** How the episode to work on came about: it runs under this identity, or it
      started because there was something to ask and a start was admitted. */
  ghost predicate MadeReady(l: Limits, margin: Duration -> Duration, held: Table, uid: string, ta: TargetAssessment, c: Contract, slots: map<string, Query>,
                            key: EpisodeKey, prog: Progress, now: Time, es: map<string, Episode>, es': map<string, Episode>,
                            g: History, g': History, ok: bool) {
    if Running(es, uid) && es[uid].key == key then ok && es' == es && g' == g
    else
      && (ok <==> SomethingAskable(held, margin, ta, c, slots, {}, now) && Admissible(l, es, uid, now))
      && (ok ==> g' == Begun(g, uid, now) && uid in es' && es'[uid] == Episode(key, KindFor(ta, c, slots), now, 0, 0, Active, {}))
      && (!ok ==> g' == g)
      && (!ok && Running(es, uid) ==> es' == es[uid := es[uid].(state := Superseded)])
  }

  /** The slice ended before the call could answer. */
  predicate CutOff(a: Answer, sliced: bool) {
    !a.inTime && sliced && a.sliceFirst
  }

  /** A statement for k can be held. */
  predicate HasRoom(held: set<ApplicabilityKey>, capacity: int, k: ApplicabilityKey) {
    k in held || |held| < capacity
  }

  /** The running episodes of these targets ended as invalid, and nothing else changed. */
  ghost predicate Invalidated(es: map<string, Episode>, es': map<string, Episode>, invalid: set<string>) {
    && es'.Keys == es.Keys
    && forall u :: u in es ==> es'[u] == if u in invalid && es[u].state == Active then es[u].(state := TargetInvalid) else es[u]
  }

  lemma NoneInvalidated(es: map<string, Episode>)
    ensures Invalidated(es, es, {})
  {
  }

  lemma OneMoreInvalidated(es: map<string, Episode>, mid: map<string, Episode>, es': map<string, Episode>, invalid: set<string>, u: string)
    requires Invalidated(es, mid, invalid) && u !in invalid
    requires es' == if Running(mid, u) then mid[u := mid[u].(state := TargetInvalid)] else mid
    ensures Invalidated(es, es', invalid + {u})
  {
  }

  lemma InvalidatedQuiet(es: map<string, Episode>, es': map<string, Episode>, invalid: set<string>)
    requires Invalidated(es, es', invalid)
    ensures es'.Keys == es.Keys && forall u :: u in es' && u in invalid ==> !Running(es', u)
  {
  }

  /** How a call ends for its episode: shutdown cancels it, the end of the slice
      leaves it running, and a statement for which there is no room ends it. */
  ghost predicate AskedTo(es: map<string, Episode>, es': map<string, Episode>, uid: string, shutdown: bool, cut: bool, room: bool, again: bool) {
    && uid in es
    && (again <==> !shutdown && !cut && room)
    && es' == if shutdown then es[uid := es[uid].(state := Cancelled)]
              else if !cut && !room then es[uid := es[uid].(state := CapacityHit)]
              else es
  }

  /** The newest start of uid is its own. */
  ghost predicate StartedLast(g: History, uid: string) {
    uid in g.last && g.last[uid] < |g.starts| && g.starts[g.last[uid]].uid == uid
  }

  lemma RecordHasStart(l: Limits, now: Time, g: History, es: map<string, Episode>, uid: string)
    requires HistoryOk(l, now, g, es) && uid in es
    ensures StartedLast(g, uid)
  {
    hide SlotsOf, CallsOk;
  }

  lemma SteeredSo(base: Snapshot, uid: string, slots: map<string, Query>, b: Glimpse, at: Time, ta: TargetAssessment, c: Contract, prog: Progress)
    requires View(base, b.held, at, uid, ta, c)
    requires prog == if uid in b.progress && b.progress[uid].key == KeyOf(ta, slots) then b.progress[uid] else Progress(KeyOf(ta, slots), 0, map[])
    ensures SteeredBy(base, uid, slots, b, at, prog.order)
  {
    hide View, KeyOf, SeenAs;
    SeenMeans(base, b.held, at, uid, slots, ta, c);
  }

  lemma StartsSo(l: Limits, margin: Duration -> Duration, base: Snapshot, uid: string, slots: map<string, Query>, b: Glimpse, at: Time,
                 ta: TargetAssessment, c: Contract)
    requires View(base, b.held, at, uid, ta, c)
    ensures Resumes(base, uid, slots, b, at) <==> Running(b.es, uid) && b.es[uid].key == KeyOf(ta, slots)
    ensures Starts(l, margin, base, uid, slots, b, at) <==>
      && !Resumes(base, uid, slots, b, at) && SomethingAskable(b.held, margin, ta, c, slots, {}, at) && Admissible(l, b.es, uid, at)
  {
    hide View, KeyOf, SeenAs, SomethingAskable, Admissible;
    SeenMeans(base, b.held, at, uid, slots, ta, c);
    ViewDecides(base, b.held, margin, at, uid, ta, c, slots, {});
  }

  /** The turn of a valid target. */
  lemma ValidTurn(l: Limits, margin: Duration -> Duration, clock: nat -> Time, sliceEnd: nat, base: Snapshot, uid: string, slots: map<string, Query>,
                  b: Glimpse, a: Glimpse, ta: TargetAssessment, c: Contract, prog: Progress, mid: map<string, Episode>, g: History, ok: bool)
    requires View(base, b.held, clock(b.tick), uid, ta, c)
    requires prog == if uid in b.progress && b.progress[uid].key == KeyOf(ta, slots) then b.progress[uid] else Progress(KeyOf(ta, slots), 0, map[])
    requires MadeReady(l, margin, b.held, uid, ta, c, slots, KeyOf(ta, slots), prog, clock(b.tick), b.es, mid, b.g, g, ok)
    requires a.g.starts == g.starts && (!ok ==> a.g == g) && (ok ==> StartedLast(g, uid))
    requires ok ==> RoundCalls(l, margin, base, b.held, uid, slots, mid, prog.order, clock(b.tick + 1), sliceEnd <= b.tick + 2, g, a.g)
    ensures TurnTaken(l, margin, clock, sliceEnd, base, uid, slots, b, a)
  {
    hide View, KeyOf, SeenAs, SomethingAskable, Admissible, Resumes, SteeredBy, Starts, AskDue, AskFirst, FirstCall;
    var at := clock(b.tick);
    StartsSo(l, margin, base, uid, slots, b, at, ta, c);
    SteeredSo(base, uid, slots, b, at, ta, c, prog);
    if CallDue(l, margin, clock, sliceEnd, base, uid, slots, b) {
      FirstCallSo(margin, clock, base, uid, slots, Starts(l, margin, base, uid, slots, b, at), b, a, prog.order, g.last[uid]);
    }
  }

  lemma FirstCallSo(margin: Duration -> Duration, clock: nat -> Time, base: Snapshot, uid: string, slots: map<string, Query>,
                    starts: bool, b: Glimpse, a: Glimpse, order: map<string, nat>, start: nat)
    requires SteeredBy(base, uid, slots, b, clock(b.tick), order)
    requires start < |a.g.starts| && a.g.starts[start].uid == uid && (starts ==> start == |b.g.starts|)
    requires CallMade(margin, base, b.held, uid, slots, SpentBy(starts, b, uid), order, clock(b.tick + 1), b.g.calls, a.g.calls, start)
    ensures FirstCall(margin, clock, base, uid, slots, starts, b, a)
  {
    hide SteeredBy, CallMade;
  }

  /** The turn of a target that is not valid. */
  lemma InvalidTurn(l: Limits, margin: Duration -> Duration, clock: nat -> Time, sliceEnd: nat, base: Snapshot, uid: string, slots: map<string, Query>,
                    b: Glimpse, a: Glimpse)
    requires (clock(b.tick) == 0 || !ValidUid(base, uid)) && a.g == b.g
    ensures TurnTaken(l, margin, clock, sliceEnd, base, uid, slots, b, a)
  {
    hide Assesses, AllHeld, KeyOf, ValidUid, Admissible, FirstCall, CallNow;
    var at := clock(b.tick);
    forall ta, c ensures !View(base, b.held, at, uid, ta, c) {
      if View(base, b.held, at, uid, ta, c) {
        AssessedValid(base, AllHeld(b.held), at, uid, ta);
      }
    }
    assert !Starts(l, margin, base, uid, slots, b, at) && !Resumes(base, uid, slots, b, at);
  }

  /** The turns done, one after another, each from where the one before left. */
  ghost predicate AllTaken(l: Limits, margin: Duration -> Duration, clock: nat -> Time, sliceEnd: nat, base: Snapshot, qs: Queries,
                           done: seq<string>, seen: seq<Glimpse>) {
    && |seen| == |done| + 1
    && forall k {:trigger done[k]} :: 0 <= k < |done| ==>
         done[k] in qs && TurnTaken(l, margin, clock, sliceEnd, base, done[k], qs[done[k]], seen[k], seen[k + 1])
  }

  lemma NoneTaken(l: Limits, margin: Duration -> Duration, clock: nat -> Time, sliceEnd: nat, base: Snapshot, qs: Queries, b: Glimpse)
    ensures AllTaken(l, margin, clock, sliceEnd, base, qs, [], [b])
  {
  }

  lemma OneMoreTaken(l: Limits, margin: Duration -> Duration, clock: nat -> Time, sliceEnd: nat, base: Snapshot, qs: Queries,
                     done: seq<string>, seen: seq<Glimpse>, u: string, a: Glimpse)
    requires AllTaken(l, margin, clock, sliceEnd, base, qs, done, seen) && u in qs
    requires TurnTaken(l, margin, clock, sliceEnd, base, u, qs[u], seen[|done|], a)
    ensures AllTaken(l, margin, clock, sliceEnd, base, qs, done + [u], seen + [a])
  {
    hide TurnTaken;
  }

  lemma TakenByAll(l: Limits, margin: Duration -> Duration, clock: nat -> Time, sliceEnd: nat, base: Snapshot, qs: Queries, all: Queries,
                   done: seq<string>, seen: seq<Glimpse>)
    requires AllTaken(l, margin, clock, sliceEnd, base, qs, done, seen) && forall u :: u in qs ==> u in all && all[u] == qs[u]
    ensures AllTaken(l, margin, clock, sliceEnd, base, all, done, seen)
  {
    hide TurnTaken;
  }
}
