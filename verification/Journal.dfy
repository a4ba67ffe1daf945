/** The fenced compare-and-swap journal (pkg/action/journal.go). */
module Journal {
  import opened Wrappers
  import opened ActionTypes

  datatype JournalState = JournalState(epoch: nat, recs: map<Key, Record>)

  datatype PutOutcome = Stored(record: Record) | Fenced | Conflict

  /** `MemJournal.Put` as a function of the journal: refuse a writer older than
      the newest epoch, then compare and swap on the version. */
  function Swap(j: JournalState, r: Record): (JournalState, PutOutcome) {
    if r.fence < j.epoch then (j, Fenced)
    else if (r.key !in j.recs && r.version != 0) || (r.key in j.recs && j.recs[r.key].version != r.version) then (j, Conflict)
    else
      var stored := r.(version := r.version + 1);
      (j.(recs := j.recs[r.key := stored]), Stored(stored))
  }

  class MemJournal {
    const durable: bool
    var epoch: nat
    var recs: map<Key, Record>

    constructor (durable: bool)
      ensures this.durable == durable && State() == JournalState(0, map[])
    {
      this.durable := durable;
      epoch, recs := 0, map[];
    }

    function State(): JournalState
      reads this
    {
      JournalState(epoch, recs)
    }

    /** Claims an epoch newer than any issued before. */
    method Epoch() returns (e: nat)
      modifies this
      ensures e == old(epoch) + 1 && State() == JournalState(e, old(recs))
    {
      epoch := epoch + 1;
      return epoch;
    }

    method List() returns (list: map<Key, Record>)
      ensures list == recs
    {
      return recs;
    }

    method Put(r: Record) returns (out: PutOutcome)
      modifies this
      ensures (State(), out) == Swap(old(State()), r)
    {
      if r.fence < epoch {
        return Fenced;
      }
      if (r.key !in recs && r.version != 0) || (r.key in recs && recs[r.key].version != r.version) {
        return Conflict;
      }
      var stored := r.(version := r.version + 1);
      recs := recs[r.key := stored];
      out := Stored(stored);
    }
  }
}
