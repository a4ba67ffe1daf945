/** The investigator's evidence cache: held statements by key, and the
    watermark of accepted values (`admit`, `purge` in pkg/investigate/investigator.go). */
module Cache {
  import opened Wrappers
  import opened OpsTypes
  import opened Predicates
  import opened EvidenceRules

  const MAX_SIMULTANEOUS: nat := 4

  /** What is held for one key, and the stamp of its last accepted value. */
  datatype Entry = Entry(list: seq<Observation>, mark: Option<Time>)

  predicate IsValue(o: Observation) {
    o.outcome == ValueOutcome
  }

  /** An equal stamp joins the held values; the same value again does not. */
  predicate Joins(e: Entry, o: Observation) {
    && e.list != [] && e.mark == Some(o.observedAt) && IsValue(e.list[0]) && e.list[0].observedAt == o.observedAt
    && |e.list| < MAX_SIMULTANEOUS && forall h :: h in e.list ==> h.value != o.value
  }

  predicate Newer(e: Entry, o: Observation) {
    e.mark.None? || o.observedAt > e.mark.value
  }

  /** The value o is taken in. */
  predicate Accepts(e: Option<Entry>, o: Observation) {
    IsValue(o) && (e.None? || Newer(e.value, o) || Joins(e.value, o))
  }

  /** What admitting o makes of a key's entry. */
  function AdmitTo(e: Option<Entry>, o: Observation): Entry {
    match e
    case None => Entry([o], if IsValue(o) then Some(o.observedAt) else None)
    case Some(was) =>
      if !IsValue(o) then Entry([o], was.mark)
      else if Newer(was, o) then Entry([o], Some(o.observedAt))
      else if Joins(was, o) then Entry(was.list + [o], was.mark)
      else was
  }

  ghost predicate Outage(e: Entry) {
    |e.list| == 1 && !IsValue(e.list[0])
  }

  /** An outage alone, or one to four distinct values all stamped with the mark. */
  ghost predicate EntryOk(k: ApplicabilityKey, e: Entry) {
    && e.list != [] && (forall o :: o in e.list ==> o.key == k)
    && (Outage(e) || (
          && |e.list| <= MAX_SIMULTANEOUS
          && (forall o :: o in e.list ==> IsValue(o) && e.mark == Some(o.observedAt))
          && forall i, j :: 0 <= i < j < |e.list| ==> e.list[i].value != e.list[j].value))
  }

  lemma AdmitKeepsEntry(k: ApplicabilityKey, e: Option<Entry>, o: Observation)
    requires o.key == k && (e.Some? ==> EntryOk(k, e.value))
    ensures EntryOk(k, AdmitTo(e, o))
    ensures Accepts(e, o) <==> o in AdmitTo(e, o).list && IsValue(o) && (e.None? || AdmitTo(e, o) != e.value)
  {
  }

  /** Exactly what admitting a statement does to what is held: an outage and a
      strictly newer value replace everything; a value as new as the last
      accepted joins the up to three others of that instant, unless an outage
      came between; anything else is ignored. Only values move the mark. */
  lemma AdmitMeaning(k: ApplicabilityKey, e: Entry, o: Observation)
    requires EntryOk(k, e) && o.key == k
    ensures 1 <= |AdmitTo(Some(e), o).list| <= 4
    ensures var n := AdmitTo(Some(e), o);
      var newer := e.mark.None? || o.observedAt > e.mark.value;
      var outage := e.list[0].outcome != ValueOutcome;
      && (o.outcome != ValueOutcome ==> n == Entry([o], e.mark))
      && (o.outcome == ValueOutcome && newer ==> n == Entry([o], Some(o.observedAt)))
      && (o.outcome == ValueOutcome && !newer ==> n.mark == e.mark)
      && (o.outcome == ValueOutcome && !newer && (o.observedAt < e.mark.value || outage || |e.list| == 4) ==> n == e)
      && (o.outcome == ValueOutcome && !newer && o.observedAt == e.mark.value && !outage && |e.list| < 4 ==>
            n.list == if exists h :: h in e.list && h.value == o.value then e.list else e.list + [o])
  {
  }

  // ── runs of one key ───────────────────────────────────────────────────────

  /** The entry after statements os, while the key stays held. */
  function Held(os: seq<Observation>): Option<Entry> {
    if os == [] then None else Some(AdmitTo(Held(os[..|os| - 1]), os[|os| - 1]))
  }

  /** The stamps of the values accepted among os, in order. */
  function AcceptedStamps(os: seq<Observation>): seq<Time> {
    if os == [] then []
    else
      var o := os[|os| - 1];
      AcceptedStamps(os[..|os| - 1]) + if Accepts(Held(os[..|os| - 1]), o) then [o.observedAt] else []
  }

  /** Accepted stamps never go backwards, and the mark is the last of them. */
  lemma {:induction false} Watermark(k: ApplicabilityKey, os: seq<Observation>)
    requires forall o :: o in os ==> o.key == k
    ensures os != [] ==> EntryOk(k, Held(os).value)
    ensures var stamps := AcceptedStamps(os);
      && (forall i, j :: 0 <= i < j < |stamps| ==> stamps[i] <= stamps[j])
      && (os != [] ==> Held(os).value.mark == if stamps == [] then None else Some(stamps[|stamps| - 1]))
  {
    if os != [] {
      var init, o := os[..|os| - 1], os[|os| - 1];
      assert os == init + [o];
      Watermark(k, init);
      AdmitKeepsEntry(k, Held(init), o);
    }
  }

  /** Only a value strictly newer than every accepted one clears an outage. */
  lemma OutageClears(k: ApplicabilityKey, os: seq<Observation>, o: Observation)
    requires os != [] && (forall p :: p in os + [o] ==> p.key == k)
    requires Outage(Held(os).value) && !Outage(Held(os + [o]).value)
    ensures IsValue(o) && Held(os + [o]).value.list == [o]
    ensures forall s :: s in AcceptedStamps(os) ==> s < o.observedAt
  {
    assert (os + [o])[..|os|] == os;
    assert forall p :: p in os ==> p in os + [o];
    Watermark(k, os);
  }

  /** An outage replaces whatever value was held: there is no fallback. */
  lemma OutageReplaces(os: seq<Observation>, o: Observation)
    requires !IsValue(o)
    ensures Held(os + [o]).value.list == [o]
    ensures AcceptedStamps(os + [o]) == AcceptedStamps(os)
  {
    assert (os + [o])[..|os|] == os;
  }

  // ── the cache ─────────────────────────────────────────────────────────────

  type Table = map<ApplicabilityKey, Entry>

  function EntryAt(t: Table, k: ApplicabilityKey): Option<Entry> {
    if k in t then Some(t[k]) else None
  }

  ghost predicate TableOk(t: Table) {
    forall k :: k in t ==> EntryOk(k, t[k])
  }

  ghost function AllHeld(t: Table): set<Observation> {
    set k, o | k in t && o in t[k].list :: o
  }

  lemma HeldNonEmpty(t: Table, k: ApplicabilityKey)
    requires TableOk(t) && k in t
    ensures t[k].list != []
  {
  }

  lemma NewEntry(o: Observation)
    ensures EntryOk(o.key, AdmitTo(None, o)) && AdmitTo(None, o) == Entry([o], if IsValue(o) then Some(o.observedAt) else None)
  {
  }

  class EvidenceCache {
    const capacity: int
    var held: map<ApplicabilityKey, seq<Observation>>
    var marks: map<ApplicabilityKey, Time>

    ghost function Contents(): (t: Table)
      reads this
    {
      map k | k in held :: Entry(held[k], if k in marks then Some(marks[k]) else None)
    }

    /** Watermarks live and die with their keys; every entry is well formed. */
    ghost predicate Valid()
      reads this
    {
      marks.Keys <= held.Keys && TableOk(Contents())
    }

    constructor (capacity: int)
      ensures Valid() && Contents() == map[] && this.capacity == capacity
    {
      this.capacity := capacity;
      held, marks := map[], map[];
    }

    /** `admit`: a new key beyond the capacity is refused and nothing is evicted. */
    method Admit(o: Observation) returns (ok: bool)
      requires Valid()
      modifies this
      ensures Valid()
      ensures ok <==> o.key in old(held) || |old(held)| < capacity
      ensures Contents() == if ok then old(Contents())[o.key := AdmitTo(EntryAt(old(Contents()), o.key), o)] else old(Contents())
    {
      hide AdmitTo, EntryOk;
      if o.key in held {
        AdmitHeld(o);
        return true;
      }
      if |held| >= capacity {
        return false;
      }
      ghost var before := Contents();
      NewEntry(o);
      held := held[o.key := [o]];
      if IsValue(o) {
        marks := marks[o.key := o.observedAt];
      }
      assert Contents() == before[o.key := AdmitTo(None, o)];
      ok := true;
    }

    /** A statement for a key that is held. */
    method AdmitHeld(o: Observation)
      requires Valid() && o.key in held
      modifies this
      ensures Valid() && Contents() == old(Contents())[o.key := AdmitTo(Some(old(Contents())[o.key]), o)]
    {
      ghost var before := Contents();
      ghost var was := before[o.key];
      AdmitKeepsEntry(o.key, Some(was), o);
      hide EntryOk;
      var list := held[o.key];
      assert list != [] by { HeldNonEmpty(before, o.key); }
      if !IsValue(o) {
        held := held[o.key := [o]];
      } else if o.key !in marks || o.observedAt > marks[o.key] {
        held := held[o.key := [o]];
        marks := marks[o.key := o.observedAt];
      } else if o.observedAt == marks[o.key] && IsValue(list[0]) && list[0].observedAt == marks[o.key] {
        var known := KnownValue(list, o.value);
        if !known && |list| < MAX_SIMULTANEOUS {
          held := held[o.key := list + [o]];
        }
      }
      var now := Entry(held[o.key], if o.key in marks then Some(marks[o.key]) else None);
      assert now == AdmitTo(Some(was), o);
      assert Contents() == before[o.key := now];
    }

    static method KnownValue(list: seq<Observation>, v: Value) returns (known: bool)
      ensures known <==> exists h :: h in list && h.value == v
    {
      for i := 0 to |list|
        invariant forall j :: 0 <= j < i ==> list[j].value != v
      {
        if list[i].value == v {
          return true;
        }
      }
      known := false;
    }

    /** The part of `purge` about evidence: exactly the authorized keys stay, watermarks with them. */
    method Purge(authorized: set<ApplicabilityKey>)
      requires Valid()
      modifies this
      ensures Valid() && Contents() == map k | k in old(Contents()) && k in authorized :: old(Contents())[k]
    {
      ghost var before := Contents();
      held := map k | k in held && k in authorized :: held[k];
      marks := map k | k in marks && k in authorized :: marks[k];
      assert Contents() == map k | k in before && k in authorized :: before[k];
    }

    /** All held evidence, as the evaluator gets it. */
    method Observations() returns (os: seq<Observation>)
      requires Valid()
      ensures Members(os) == AllHeld(Contents())
    {
      os := [];
      var left := held.Keys;
      while left != {}
        invariant left <= held.Keys
        invariant forall o :: o in os <==> exists k :: k in held && k !in left && o in held[k]
      {
        var k :| k in left;
        os := os + held[k];
        left := left - {k};
      }
      forall o ensures o in Members(os) <==> o in AllHeld(Contents()) {
        if o in os {
          var k :| k in held && o in held[k];
          assert k in Contents() && o in Contents()[k].list;
        }
        if o in AllHeld(Contents()) {
          var k :| k in Contents() && o in Contents()[k].list;
          assert k in held && o in held[k];
        }
      }
    }
  }

  // ── simultaneous values conflict ──────────────────────────────────────────

  /** Two or more values held for one key never evaluate to current evidence. */
  lemma SimultaneousNeverCurrent(t: Table, f: Facts, target: Target, slot: AssertionSlot)
    requires TableOk(t) && Members(f.observations) == AllHeld(t)
    requires AssertionBindingOf(target, slot.name).Some?
    requires var want := Wanted(target, slot.name, AssertionBindingOf(target, slot.name).value.provider);
      want in t && |t[want].list| >= 2
    ensures !EvidenceOf(f, target, slot).Current?
  {
    hide EvidenceOf, IsValue, AllHeld, Latest;
    var want := Wanted(target, slot.name, AssertionBindingOf(target, slot.name).value.provider);
    var a, b := t[want].list[0], t[want].list[1];
    assert EntryOk(want, t[want]) && a in t[want].list && b in t[want].list && a.value != b.value;
    if EvidenceOf(f, target, slot).Current? {
      var v := EvidenceOf(f, target, slot).value;
      CurrentMeaning(f, target, slot, v);
      HeldAreApplicable(t, f, want);
      LatestOfHeld(t, f, want);
    }
  }

  lemma HeldAreApplicable(t: Table, f: Facts, want: ApplicabilityKey)
    requires TableOk(t) && Members(f.observations) == AllHeld(t) && want in t
    ensures Applicable(f, want) == set o | o in t[want].list && o.observedAt <= f.at
  {
    forall o ensures o in Applicable(f, want) <==> o in t[want].list && o.observedAt <= f.at {
      assert o in f.observations <==> o in Members(f.observations);
      if o in Applicable(f, want) {
        var k :| k in t && o in t[k].list;
        assert k == want;
      }
      if o in t[want].list {
        assert o in AllHeld(t);
      }
    }
  }

  lemma LatestOfHeld(t: Table, f: Facts, want: ApplicabilityKey)
    requires TableOk(t) && want in t && |t[want].list| >= 2
    requires Applicable(f, want) == (set o | o in t[want].list && o.observedAt <= f.at) && Latest(Applicable(f, want)) != {}
    ensures forall o :: o in t[want].list ==> o in Latest(Applicable(f, want))
  {
    hide Applicable;
    assert EntryOk(want, t[want]);
    var m :| m in Latest(Applicable(f, want));
    forall o | o in t[want].list ensures o in Latest(Applicable(f, want)) {
      assert o.observedAt == m.observedAt;
    }
  }
}
