/** What every write keeps true of the journal: records agree with their keys,
    attempts are contiguous, episodes are contiguous, and no two attempts hold
    one target. */
module JournalSafety {
  import opened Wrappers
  import opened OpsTypes
  import opened Profiles
  import opened ActionTypes
  import opened EngineRules
  import opened Protocol
  import opened Counting

  function TargetOfKey(k: Key): string {
    k.id.subject.binding.target.uid
  }

  /** A record says about its proposal what the proposal's identity says. */
  ghost predicate Coherent(k: Key, r: Record) {
    var d := k.id.subject.declaration;
    && r.key == k && k.attempt >= 1
    && r.intent.targetUid == TargetOfKey(k) && r.intent.binding == k.id.subject.binding && r.intent.digest.id == k.id
    && d.execution.Some? && ExecutionBounds(d.execution.value) && r.intent.execution == d.execution.value
    && r.intent.maxAttempts == d.execution.value.AttemptBudget() && k.attempt <= r.intent.maxAttempts
    && r.intent.maxSends == d.execution.value.SendBudget() && 1 <= r.sends <= r.intent.maxSends
    && (r.endedAt != 0 || r.refused ==> !r.phase.Occupies())
    && (r.endedAt != 0 ==> !r.refused)
    && (r.recovery.Final() ==> r.endedAt != 0)
  }

  ghost predicate AllCoherent(recs: map<Key, Record>) {
    forall k {:trigger Coherent(k, recs[k])} {:trigger k in recs} :: k in recs ==> Coherent(k, recs[k])
  }

  /** An attempt is preceded by failed attempts only. */
  ghost predicate AttemptsContiguous(recs: map<Key, Record>) {
    forall k :: k in recs && k.attempt > 1 ==>
      Key(k.id, k.attempt - 1) in recs && recs[Key(k.id, k.attempt - 1)].phase == Failed
  }

  /** At most one attempt per target may hold live responsibility. */
  ghost predicate OccupancyExclusive(recs: map<Key, Record>) {
    forall k, l | k in recs && l in recs && recs[k].phase.Occupies() && recs[l].phase.Occupies() ::
      TargetOfKey(k) == TargetOfKey(l) ==> k == l
  }

  ghost predicate EpisodeRecovered(recs: map<Key, Record>, subject: ProposalSubject, episode: nat) {
    exists k :: k in recs && k.id == ProposalId(subject, episode) && recs[k].recovery == Recovered
  }

  /** A record of an episode comes after the recovery of all earlier ones. */
  ghost predicate EpisodesContiguous(recs: map<Key, Record>) {
    && (forall k :: k in recs ==> k.id.episode >= 1)
    && (forall k, j: nat :: k in recs && 1 <= j < k.id.episode ==> EpisodeRecovered(recs, k.id.subject, j))
  }

  ghost predicate JournalOk(recs: map<Key, Record>) {
    AllCoherent(recs) && AttemptsContiguous(recs) && OccupancyExclusive(recs) && EpisodesContiguous(recs)
  }

  // ── updates of an existing record ─────────────────────────────────────────

  /** How any engine write may change a record. */
  ghost predicate Evolves(r: Record, n: Record) {
    && n.key == r.key && n.intent == r.intent
    && r.sends <= n.sends <= r.intent.maxSends
    && (n.phase == r.phase || r.phase.Occupies())
    && (n.recovery == r.recovery || (!r.recovery.Final() && n.endedAt != 0))
    && (n.endedAt == r.endedAt || r.phase.Occupies())
    && (n.endedAt != 0 || n.refused ==> !n.phase.Occupies())
    && (n.endedAt != 0 ==> !n.refused)
  }

  lemma UpdateCoherent(recs: map<Key, Record>, k: Key, n: Record)
    requires k in recs && AllCoherent(recs) && Evolves(recs[k], n)
    ensures AllCoherent(recs[k := n])
  {
    assert Coherent(k, recs[k]);
    var recs' := recs[k := n];
    forall j | j in recs' ensures Coherent(j, recs'[j]) {
      if j != k {
        assert Coherent(j, recs[j]);
      }
    }
  }

  lemma UpdateAttempts(recs: map<Key, Record>, k: Key, n: Record)
    requires k in recs && AttemptsContiguous(recs) && Evolves(recs[k], n)
    ensures AttemptsContiguous(recs[k := n])
  {
  }

  lemma UpdateOccupancy(recs: map<Key, Record>, k: Key, n: Record)
    requires k in recs && OccupancyExclusive(recs) && Evolves(recs[k], n)
    ensures OccupancyExclusive(recs[k := n])
  {
  }

  lemma UpdateRecovered(recs: map<Key, Record>, k: Key, n: Record, subject: ProposalSubject, j: nat)
    requires k in recs && Evolves(recs[k], n) && EpisodeRecovered(recs, subject, j)
    ensures EpisodeRecovered(recs[k := n], subject, j)
  {
    var l :| l in recs && l.id == ProposalId(subject, j) && recs[l].recovery == Recovered;
    assert l in recs[k := n] && recs[k := n][l].recovery == Recovered;
  }

  lemma UpdateEpisodes(recs: map<Key, Record>, k: Key, n: Record)
    requires k in recs && EpisodesContiguous(recs) && Evolves(recs[k], n)
    ensures EpisodesContiguous(recs[k := n])
  {
    hide Evolves, EpisodeRecovered;
    var recs' := recs[k := n];
    forall l, j: nat | l in recs' && 1 <= j < l.id.episode
      ensures EpisodeRecovered(recs', l.id.subject, j)
    {
      UpdateRecovered(recs, k, n, l.id.subject, j);
    }
  }

  lemma UpdateKeepsJournal(recs: map<Key, Record>, k: Key, n: Record)
    requires k in recs && JournalOk(recs) && Evolves(recs[k], n)
    ensures JournalOk(recs[k := n])
  {
    hide AllCoherent, AttemptsContiguous, OccupancyExclusive, EpisodesContiguous, Evolves;
    UpdateCoherent(recs, k, n);
    UpdateAttempts(recs, k, n);
    UpdateOccupancy(recs, k, n);
    UpdateEpisodes(recs, k, n);
  }

  // ── a new attempt ─────────────────────────────────────────────────────────

  lemma NewCoherent(recs: map<Key, Record>, g: Eng, id: ProposalId, n: nat, a: Approval, d: Option<Decision>, f: nat, v: nat)
    requires AllCoherent(recs) && g.Busy? && g.local == recs && DecideGuard(g, id, n, a, d)
    requires WellBuilt(g.inp.props[id]) && g.inp.props[id].id == id
    ensures var r := NewRecord(g.inp, g.inp.props[id], n, g.epoch, a, d).(fence := f, version := v);
      Key(id, n) !in recs && Coherent(Key(id, n), r) && AllCoherent(recs[Key(id, n) := r])
  {
    var p := g.inp.props[id];
    var ex := p.response.execution.value;
    BudgetsPositive(ex);
    var r := NewRecord(g.inp, p, n, g.epoch, a, d).(fence := f, version := v);
    if n > 1 {
      assert Coherent(Key(id, n - 1), recs[Key(id, n - 1)]);
    }
    assert Coherent(Key(id, n), r);
    var recs' := recs[Key(id, n) := r];
    forall j | j in recs' ensures Coherent(j, recs'[j]) {
      if j != Key(id, n) {
        assert Coherent(j, recs[j]);
      }
    }
  }

  lemma NewAttempts(recs: map<Key, Record>, id: ProposalId, n: nat, r: Record)
    requires AttemptsContiguous(recs) && NextAttempt(recs, id, n)
    ensures AttemptsContiguous(recs[Key(id, n) := r])
  {
    var recs' := recs[Key(id, n) := r];
    forall k | k in recs' && k.attempt > 1
      ensures Key(k.id, k.attempt - 1) in recs' && recs'[Key(k.id, k.attempt - 1)].phase == Failed
    {
      if k != Key(id, n) {
        assert k.id == id ==> k.attempt < n;
      }
    }
  }

  /** Attempts of the same proposal before the next one hold nothing. */
  lemma EarlierAttemptsFree(recs: map<Key, Record>, id: ProposalId, n: nat, k: Key)
    requires AttemptsContiguous(recs) && NextAttempt(recs, id, n) && k in recs && k.id == id && k.attempt >= 1
    ensures recs[k].phase == Failed
  {
    assert k.attempt < n && n > 1;
    if k.attempt == n - 1 {
      assert k == Key(id, n - 1);
    } else {
      LaterAttemptExists(recs, id, n, k.attempt);
    }
  }

  lemma {:induction false} LaterAttemptExists(recs: map<Key, Record>, id: ProposalId, n: nat, m: nat)
    requires AttemptsContiguous(recs) && n > 1 && Key(id, n - 1) in recs && 1 <= m < n - 1
    ensures Key(id, m + 1) in recs && Key(id, m) in recs && recs[Key(id, m)].phase == Failed
    decreases n - m
  {
    if m + 1 < n - 1 {
      LaterAttemptExists(recs, id, n, m + 1);
    }
    assert Key(id, m + 1) in recs;
    assert Key(Key(id, m + 1).id, Key(id, m + 1).attempt - 1) in recs;
  }

  lemma NewOccupancy(recs: map<Key, Record>, inp: StepInput, id: ProposalId, n: nat, r: Record)
    requires AttemptsContiguous(recs) && OccupancyExclusive(recs) && AllCoherent(recs)
    requires NextAttempt(recs, id, n) && !TargetHeld(recs, TargetOfKey(Key(id, n)), id)
    ensures OccupancyExclusive(recs[Key(id, n) := r])
  {
    var recs' := recs[Key(id, n) := r];
    forall k | k in recs && TargetOfKey(k) == TargetOfKey(Key(id, n))
      ensures !recs[k].phase.Occupies()
    {
      assert Coherent(k, recs[k]);
      if k.id == id {
        EarlierAttemptsFree(recs, id, n, k);
      }
    }
  }

  lemma NewEpisodes(recs: map<Key, Record>, id: ProposalId, n: nat, r: Record)
    requires EpisodesContiguous(recs) && Key(id, n) !in recs && id.episode >= 1
    requires forall j: nat :: 1 <= j < id.episode ==> EpisodeRecovered(recs, id.subject, j)
    ensures EpisodesContiguous(recs[Key(id, n) := r])
  {
    var recs' := recs[Key(id, n) := r];
    forall k, j: nat | k in recs' && 1 <= j < k.id.episode
      ensures EpisodeRecovered(recs', k.id.subject, j)
    {
      assert EpisodeRecovered(recs, k.id.subject, j);
      var l :| l in recs && l.id == ProposalId(k.id.subject, j) && recs[l].recovery == Recovered;
      assert l in recs' && recs'[l].recovery == Recovered;
    }
  }

  // ── episodes ──────────────────────────────────────────────────────────────

  /** A finite set of positive numbers closed downwards is 1..k. */
  lemma InitialSegment(s: set<int>)
    requires forall x :: x in s ==> x >= 1 && forall y :: 1 <= y < x ==> y in s
    ensures forall y :: y in s <==> 1 <= y <= |s|
  {
    forall y ensures y in s <==> 1 <= y <= |s| {
      if y in s {
        assert Ints(y) <= s;
        Smaller(Ints(y), s);
      } else if 1 <= y <= |s| {
        forall x | x in s ensures x in Ints(y - 1) { }
        Smaller(s, Ints(y - 1));
      }
    }
  }

  /** For each subject the recovered proposals are exactly episodes 1..k. */
  lemma RecoveredAreInitial(recs: map<Key, Record>, subject: ProposalSubject)
    requires EpisodesContiguous(recs)
    ensures var done := RecoveredEpisodes(recs, subject);
      forall j: nat :: EpisodeRecovered(recs, subject, j) <==> 1 <= j <= |done|
  {
    var done := RecoveredEpisodes(recs, subject);
    forall j: nat ensures j in done <==> EpisodeRecovered(recs, subject, j) {
      if j in done {
        var k :| k in recs && k.id.subject == subject && recs[k].recovery == Recovered && k.id.episode == j;
        assert k.id == ProposalId(subject, j);
      }
      if EpisodeRecovered(recs, subject, j) {
        var k :| k in recs && k.id == ProposalId(subject, j) && recs[k].recovery == Recovered;
      }
    }
    forall x, y | x in done && 1 <= y < x ensures y in done {
      var k :| k in recs && k.id.subject == subject && recs[k].recovery == Recovered && k.id.episode == x;
      assert EpisodeRecovered(recs, k.id.subject, y);
    }
    InitialSegment(done);
  }

  /** ... and no record lies beyond episode k + 1. */
  lemma NoRecordBeyondNext(recs: map<Key, Record>, k: Key)
    requires EpisodesContiguous(recs) && k in recs
    ensures 1 <= k.id.episode <= |RecoveredEpisodes(recs, k.id.subject)| + 1
  {
    RecoveredAreInitial(recs, k.id.subject);
    if k.id.episode > 1 {
      assert EpisodeRecovered(recs, k.id.subject, k.id.episode - 1);
    }
  }

  /** A derived proposal comes after every recovered one: a recovered
      proposal's ID is never derived again. */
  lemma DerivedIsNew(recs: map<Key, Record>, props: map<ProposalId, Proposal>, id: ProposalId)
    requires EpisodesContiguous(recs) && WellDerived(props, recs) && id in props
    ensures forall j: nat :: 1 <= j < id.episode ==> EpisodeRecovered(recs, id.subject, j)
    ensures !EpisodeRecovered(recs, id.subject, id.episode)
  {
    RecoveredAreInitial(recs, id.subject);
  }
}
