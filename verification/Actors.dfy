/** The reference action provider (pkg/action/actiontest/actiontest.go): it
    deduplicates by key, rejects stale fences and remembers refusals; a silent
    one notes the fence and nothing else. Forged
    answers are not part of this model, and a job moves only from pending to
    succeeded or failed. */
module Actors {
  import opened Wrappers
  import opened ActionTypes

  datatype Behaviour = Succeed | Fail | AcceptOnly | Refuse | Silent

  datatype Job = Job(fence: nat, digest: Digest, target: string, b: Behaviour)

  datatype ActorState = ActorState(highFence: nat, jobs: map<Key, Job>)

  const NewActor := ActorState(0, map[])

  predicate Live(a: ActorState, k: Key) {
    k in a.jobs && StateOf(a.jobs[k].b) == ResultPending
  }

  /** The handoff h reaches the actor, which is silent or would treat a new key as b says. */
  function Receive(a: ActorState, h: Handoff, b: Behaviour): ActorState {
    if h.fence < a.highFence then a
    else if b == Silent then a.(highFence := h.fence)
    else if h.key in a.jobs then ActorState(h.fence, a.jobs[h.key := a.jobs[h.key].(fence := h.fence)])
    else ActorState(h.fence, a.jobs[h.key := Job(h.fence, h.digest, h.target.uid, b)])
  }

  /** The receipt for a delivered handoff. */
  function ReceiptFor(a: ActorState, h: Handoff): Receipt
    requires h.key in a.jobs
  {
    Receipt(h.key, h.fence, h.digest, a.jobs[h.key].b != Refuse)
  }

  function StateOf(b: Behaviour): ResultState {
    match b
    case Succeed => ResultSucceeded
    case Fail => ResultFailed
    case Refuse => ResultRefused
    case _ => ResultPending
  }

  /** The actor's answer to a poll. */
  function Answer(a: ActorState, k: Key, nobody: Digest): Result {
    if k in a.jobs then Result(k, a.jobs[k].fence, a.jobs[k].digest, StateOf(a.jobs[k].b))
    else Result(k, 0, nobody, ResultUnknown)
  }

  /** A pending job ends. */
  function Settled(a: ActorState, k: Key, b: Behaviour): ActorState {
    if Live(a, k) && (b == Succeed || b == Fail) then a.(jobs := a.jobs[k := a.jobs[k].(b := b)]) else a
  }

  /** What one handoff does: nothing when its fence is older than one heard
      before; else the fence is noted, and unless the provider stays silent the
      key has its one job, which a repetition changes in nothing but its fence. */
  lemma ReceiveMeaning(a: ActorState, h: Handoff, b: Behaviour)
    ensures var n := Receive(a, h, b);
      && (h.fence < a.highFence ==> n == a)
      && (h.fence >= a.highFence ==> n.highFence == h.fence)
      && n.jobs.Keys == a.jobs.Keys + (if h.fence >= a.highFence && b != Silent then {h.key} else {})
      && (forall k :: k in a.jobs ==> n.jobs[k].b == a.jobs[k].b && n.jobs[k].digest == a.jobs[k].digest && n.jobs[k].target == a.jobs[k].target)
      && (forall k :: k in a.jobs && k != h.key ==> n.jobs[k] == a.jobs[k])
      && (h.key in n.jobs && h.key !in a.jobs ==> n.jobs[h.key] == Job(h.fence, h.digest, h.target.uid, b))
      && (h.key in a.jobs && h.fence >= a.highFence && b != Silent ==> n.jobs[h.key].fence == h.fence)
  {
  }

  /** A poll answers with the job's own last fence, its digest and how it stands;
      of a key never heard of nothing is known. */
  lemma AnswerMeaning(a: ActorState, k: Key, nobody: Digest)
    ensures var r := Answer(a, k, nobody);
      && r.key == k
      && (k !in a.jobs ==> r.state == ResultUnknown)
      && (k in a.jobs ==> r.fence == a.jobs[k].fence && r.digest == a.jobs[k].digest)
      && (k in a.jobs ==> (
            match a.jobs[k].b
            case Succeed => r.state == ResultSucceeded
            case Fail => r.state == ResultFailed
            case Refuse => r.state == ResultRefused
            case AcceptOnly => r.state == ResultPending
            case Silent => r.state == ResultPending))
  {
  }

  /** Only a pending job can end, and it ends as it is said to. */
  lemma SettledMeaning(a: ActorState, k: Key, b: Behaviour)
    ensures var n := Settled(a, k, b);
      && n.highFence == a.highFence && n.jobs.Keys == a.jobs.Keys
      && (forall j :: j in a.jobs && j != k ==> n.jobs[j] == a.jobs[j])
      && (k in a.jobs && (a.jobs[k].b == AcceptOnly || a.jobs[k].b == Silent) && (b == Succeed || b == Fail) ==> n.jobs[k] == a.jobs[k].(b := b))
      && (k in a.jobs && a.jobs[k].b != AcceptOnly && a.jobs[k].b != Silent ==> n.jobs[k] == a.jobs[k])
  {
  }

  class Actor {
    var highFence: nat
    var jobs: map<Key, Job>
    /** Newly accepted executions per key. */
    var executions: map<Key, nat>

    function State(): ActorState
      reads this
    {
      ActorState(highFence, jobs)
    }

    /** Each accepted key was executed once, whatever was sent how often. */
    ghost predicate Valid()
      reads this
    {
      && (forall k :: k in executions <==> k in jobs && jobs[k].b != Refuse)
      && (forall k :: k in executions ==> executions[k] == 1)
    }

    constructor ()
      ensures Valid() && State() == NewActor
    {
      highFence, jobs, executions := 0, map[], map[];
    }

    /** b is how a new key ends up; dropped handoffs never call this. */
    method Submit(h: Handoff, b: Behaviour) returns (r: Option<Receipt>)
      requires Valid()
      modifies this
      ensures Valid() && State() == Receive(old(State()), h, b)
      ensures r.None? <==> h.fence < old(highFence) || b == Silent
      ensures r.Some? ==> h.key in jobs && r.value == ReceiptFor(State(), h)
    {
      if h.fence < highFence {
        return None;
      }
      highFence := h.fence;
      if b == Silent {
        return None;
      }
      if h.key !in jobs {
        jobs := jobs[h.key := Job(h.fence, h.digest, h.target.uid, b)];
        if b != Refuse {
          executions := executions[h.key := 1];
        }
      }
      jobs := jobs[h.key := jobs[h.key].(fence := h.fence)];
      r := Some(Receipt(h.key, h.fence, h.digest, jobs[h.key].b != Refuse));
    }

    method Poll(k: Key, nobody: Digest) returns (r: Result)
      ensures r == Answer(State(), k, nobody)
    {
      r := if k in jobs then Result(k, jobs[k].fence, jobs[k].digest, StateOf(jobs[k].b)) else Result(k, 0, nobody, ResultUnknown);
    }

    method Settle(k: Key, b: Behaviour)
      requires Valid()
      modifies this
      ensures Valid() && State() == Settled(old(State()), k, b)
    {
      if k in jobs && StateOf(jobs[k].b) == ResultPending && (b == Succeed || b == Fail) {
        jobs := jobs[k := jobs[k].(b := b)];
      }
    }
  }
}
