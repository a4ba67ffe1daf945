/** What the evidence for one slot of one target is: the latest applicable
    statements decide, with no fallback (`resolveEvidence`). */
module EvidenceRules {
  import opened Wrappers
  import opened OpsTypes
  import opened Predicates

  function AssertionBindingOf(t: Target, slot: string): Option<AssertionBinding> {
    First(t.assertionBindings, (b: AssertionBinding) => b.slot == slot)
  }

  function Wanted(t: Target, slot: string, provider: ProviderIdentity): ApplicabilityKey {
    ApplicabilityKey(t.identity, t.resolvedUid, t.contractRef, slot, provider)
  }

  /** The observation is filed under this target name and slot. */
  predicate Filed(o: Observation, t: Target, slot: string) {
    o.key.target.namespace == t.identity.namespace && o.key.target.name == t.identity.name && o.key.slot == slot
  }

  /** `mismatch`: the first element of the key that differs. */
  function MismatchOf(got: ApplicabilityKey, want: ApplicabilityKey): Mismatch {
    if got.target != want.target || got.resolvedUid != want.resolvedUid then TargetReplaced
    else if got.contract != want.contract then ContractChanged
    else ProviderChanged
  }

  function Rank(m: Option<Mismatch>): nat {
    match m
    case None => 0
    case Some(ProviderChanged) => 1
    case Some(ContractChanged) => 2
    case Some(TargetReplaced) => 3
  }

  function WorseMismatch(a: Option<Mismatch>, b: Option<Mismatch>): Option<Mismatch> {
    if Rank(b) > Rank(a) then b else a
  }

  predicate CurrentAt(at: Time, o: Observation, slot: AssertionSlot) {
    at - o.observedAt <= slot.maxAge && (o.validUntil == 0 || at < o.validUntil)
  }

  predicate Malformed(o: Observation, slot: AssertionSlot) {
    o.outcome != ProviderUnavailableOutcome && (o.outcome != ValueOutcome || !Admits(slot, o.value))
  }

  predicate Differs(o: Observation, p: Observation) {
    o.outcome != p.outcome || (o.outcome == ValueOutcome && !Equal(p.value, o.value))
  }

  // ── the meaning, on sets of observations ──────────────────────────────────

  ghost function Applicable(f: Facts, want: ApplicabilityKey): set<Observation> {
    set o | o in f.observations && o.observedAt <= f.at && o.key == want
  }

  ghost function Mismatches(f: Facts, t: Target, slot: string, want: ApplicabilityKey): set<Mismatch> {
    set o | o in f.observations && o.observedAt <= f.at && Filed(o, t, slot) && o.key != want :: MismatchOf(o.key, want)
  }

  ghost function Worst(ms: set<Mismatch>): Option<Mismatch> {
    if TargetReplaced in ms then Some(TargetReplaced)
    else if ContractChanged in ms then Some(ContractChanged)
    else if ProviderChanged in ms then Some(ProviderChanged)
    else None
  }

  ghost function Latest(os: set<Observation>): set<Observation> {
    set o | o in os && forall p :: p in os ==> p.observedAt <= o.observedAt
  }

  /** What a nonempty group of simultaneous latest statements says. */
  ghost function Judge(at: Time, slot: AssertionSlot, group: set<Observation>): Evidence
    requires group != {}
  {
    if exists o :: o in group && !CurrentAt(at, o, slot) then Stale
    else if exists o :: o in group && Malformed(o, slot) then TypeMismatch
    else if exists o, p :: o in group && p in group && Differs(o, p) then Conflicting
    else
      var o :| o in group;
      if o.outcome == ProviderUnavailableOutcome then ProviderUnavailable else Current(o.value)
  }

  lemma LatestExists(os: set<Observation>)
    requires os != {}
    ensures Latest(os) != {}
  {
    var o :| o in os;
    var rest := os - {o};
    assert os == rest + {o};
    if rest == {} {
      assert o in Latest(os);
    } else {
      LatestExists(rest);
      var p :| p in Latest(rest);
      var m := if p.observedAt <= o.observedAt then o else p;
      assert m in Latest(os);
    }
  }

  ghost function EvidenceOf(f: Facts, t: Target, slot: AssertionSlot): Evidence {
    match AssertionBindingOf(t, slot.name)
    case None => Unbound
    case Some(b) =>
      var want := Wanted(t, slot.name, b.provider);
      var applicable := Applicable(f, want);
      if applicable == {} then
        match Worst(Mismatches(f, t, slot.name, want))
        case Some(m) => Inapplicable(m)
        case None => Missing
      else
        LatestExists(applicable);
        Judge(f.at, slot, Latest(applicable))
  }

  // ── the computation ───────────────────────────────────────────────────────

  ghost function Members(os: seq<Observation>): set<Observation> {
    set o | o in os
  }

  /** One pass over the filed observations. */
  method Collect(f: Facts, t: Target, slot: string, want: ApplicabilityKey)
    returns (applicable: seq<Observation>, inapplicable: Option<Mismatch>)
    requires want.target == t.identity && want.slot == slot
    ensures Members(applicable) == Applicable(f, want)
    ensures inapplicable == Worst(Mismatches(f, t, slot, want))
  {
    applicable, inapplicable := [], None;
    ghost var seen: set<Mismatch> := {};
    for i := 0 to |f.observations|
      invariant forall o :: o in applicable <==> o in f.observations[..i] && o.observedAt <= f.at && o.key == want
      invariant seen == Mismatches(f.(observations := f.observations[..i]), t, slot, want)
      invariant inapplicable == Worst(seen)
    {
      var o := f.observations[i];
      assert f.observations[..i + 1] == f.observations[..i] + [o];
      if Filed(o, t, slot) && o.observedAt <= f.at {
        if o.key == want {
          applicable := applicable + [o];
        } else {
          inapplicable := WorseMismatch(inapplicable, Some(MismatchOf(o.key, want)));
          seen := seen + {MismatchOf(o.key, want)};
        }
      }
    }
    assert f.observations[..|f.observations|] == f.observations;
    assert f.(observations := f.observations[..|f.observations|]) == f;
  }

  method LatestGroup(applicable: seq<Observation>) returns (group: seq<Observation>)
    requires applicable != []
    ensures Members(group) == Latest(Members(applicable)) && group != []
  {
    var latest := applicable[0].observedAt;
    for i := 1 to |applicable|
      invariant exists o :: o in applicable && o.observedAt == latest
      invariant forall o :: o in applicable[..i] ==> o.observedAt <= latest
    {
      assert applicable[..i + 1] == applicable[..i] + [applicable[i]];
      if applicable[i].observedAt > latest {
        latest := applicable[i].observedAt;
      }
    }
    assert applicable[..|applicable|] == applicable;
    group := [];
    for i := 0 to |applicable|
      invariant forall o :: o in group <==> o in applicable[..i] && o.observedAt == latest
    {
      assert applicable[..i + 1] == applicable[..i] + [applicable[i]];
      if applicable[i].observedAt == latest {
        group := group + [applicable[i]];
      }
    }
    var w :| w in applicable && w.observedAt == latest;
    assert w in group;
    forall o ensures o in Members(group) <==> o in Latest(Members(applicable)) {
      if o in Latest(Members(applicable)) {
        assert w.observedAt <= o.observedAt;
      }
    }
  }

  /** Currentness of the whole group, then form, then agreement with the first statement. */
  method JudgeGroup(at: Time, slot: AssertionSlot, group: seq<Observation>) returns (ev: Evidence)
    requires group != [] && Members(group) != {}
    ensures ev == Judge(at, slot, Members(group))
  {
    var o := group[0];
    assert o in Members(group);
    for i := 0 to |group|
      invariant forall k :: 0 <= k < i ==> CurrentAt(at, group[k], slot)
    {
      if !CurrentAt(at, group[i], slot) {
        assert group[i] in Members(group);
        return Stale;
      }
    }
    for i := 0 to |group|
      invariant forall k :: 0 <= k < i ==> !Malformed(group[k], slot)
    {
      if Malformed(group[i], slot) {
        assert group[i] in Members(group);
        return TypeMismatch;
      }
    }
    for i := 1 to |group|
      invariant forall k :: 0 <= k < i ==> !Differs(o, group[k])
    {
      if Differs(o, group[i]) {
        assert group[i] in Members(group);
        return Conflicting;
      }
    }
    AgreeingGroup(slot, Members(group), o);
    ev := if o.outcome == ProviderUnavailableOutcome then ProviderUnavailable else Current(o.value);
  }

  /** Well-formed statements that agree with one of them are all the same statement. */
  lemma AgreeingGroup(slot: AssertionSlot, group: set<Observation>, o: Observation)
    requires o in group
    requires forall p :: p in group ==> !Malformed(p, slot) && !Differs(o, p)
    ensures forall p, q :: p in group && q in group ==> !Differs(p, q)
    ensures forall p :: p in group ==> p.outcome == o.outcome && (o.outcome == ValueOutcome ==> p.value == o.value)
  {
    forall p | p in group
      ensures p.outcome == o.outcome && (o.outcome == ValueOutcome ==> p.value == o.value)
    {
      if o.outcome == ValueOutcome {
        CanonicalEquality(p.value, o.value);
      }
    }
  }

  /** `resolveEvidence`. */
  method ResolveEvidence(f: Facts, t: Target, slot: AssertionSlot) returns (ev: Evidence)
    ensures ev == EvidenceOf(f, t, slot)
  {
    var b := AssertionBindingOf(t, slot.name);
    if b.None? {
      return Unbound;
    }
    var want := Wanted(t, slot.name, b.value.provider);
    var applicable, inapplicable := Collect(f, t, slot.name, want);
    if applicable == [] {
      ev := if inapplicable.Some? then Inapplicable(inapplicable.value) else Missing;
      return;
    }
    assert applicable[0] in Members(applicable);
    var group := LatestGroup(applicable);
    LatestExists(Members(applicable));
    ev := JudgeGroup(f.at, slot, group);
  }

  // ── what the evidence means ───────────────────────────────────────────────

  /** The statements that decide the slot now. */
  ghost function Deciding(f: Facts, t: Target, slot: string): set<Observation> {
    match AssertionBindingOf(t, slot)
    case None => {}
    case Some(b) => Latest(Applicable(f, Wanted(t, slot, b.provider)))
  }

  /** The first binding of the slot names this provider. */
  ghost predicate BoundTo(t: Target, slot: string, provider: ProviderIdentity) {
    exists i :: && 0 <= i < |t.assertionBindings|
                && t.assertionBindings[i].slot == slot && t.assertionBindings[i].provider == provider
                && forall j :: 0 <= j < i ==> t.assertionBindings[j].slot != slot
  }

  lemma BindingMeaning(t: Target, slot: string)
    ensures forall p :: BoundTo(t, slot, p) <==> AssertionBindingOf(t, slot) == Some(AssertionBinding(slot, p))
    ensures AssertionBindingOf(t, slot).None? <==> forall b :: b in t.assertionBindings ==> b.slot != slot
  {
    hide BoundTo;
    forall p ensures BoundTo(t, slot, p) <==> AssertionBindingOf(t, slot) == Some(AssertionBinding(slot, p)) {
      BoundThis(t, slot, p);
    }
  }

  lemma BoundThis(t: Target, slot: string, provider: ProviderIdentity)
    ensures BoundTo(t, slot, provider) <==> AssertionBindingOf(t, slot) == Some(AssertionBinding(slot, provider))
  {
    hide First;
    var bs, p := t.assertionBindings, (x: AssertionBinding) => x.slot == slot;
    assert AssertionBindingOf(t, slot) == First(bs, p);
    FirstMeaning(bs, p, AssertionBinding(slot, provider));
    if i :| FirstAt(bs, p, i) && bs[i] == AssertionBinding(slot, provider) {
      assert forall j :: 0 <= j < i ==> !p(bs[j]);
    }
    if BoundTo(t, slot, provider) {
      var i :| && 0 <= i < |bs| && bs[i].slot == slot && bs[i].provider == provider
               && forall j :: 0 <= j < i ==> bs[j].slot != slot;
      assert bs[i] == AssertionBinding(slot, provider);
      assert FirstAt(bs, p, i);
    }
  }

  /** o is a statement by the provider bound to the slot, made by now, about
      exactly this target, identity by identity, under its contract. */
  ghost predicate Speaks(f: Facts, t: Target, slot: string, o: Observation) {
    && o in f.observations && o.observedAt <= f.at && BoundTo(t, slot, o.key.provider)
    && o.key.target == t.identity && o.key.resolvedUid == t.resolvedUid && o.key.contract == t.contractRef && o.key.slot == slot
  }

  /** The deciding statements are those that speak for the slot with none later. */
  lemma DecidingMeaning(f: Facts, t: Target, slot: string, o: Observation)
    ensures o in Deciding(f, t, slot) <==>
      Speaks(f, t, slot, o) && forall p :: Speaks(f, t, slot, p) ==> p.observedAt <= o.observedAt
    ensures Deciding(f, t, slot) == {} <==> forall p :: !Speaks(f, t, slot, p)
  {
    BindingMeaning(t, slot);
    var b := AssertionBindingOf(t, slot);
    if b.Some? {
      var applicable := Applicable(f, Wanted(t, slot, b.value.provider));
      forall p ensures Speaks(f, t, slot, p) <==> p in applicable {
        assert BoundTo(t, slot, p.key.provider) <==> b.value == AssertionBinding(slot, p.key.provider);
      }
      if applicable != {} {
        LatestExists(applicable);
      }
    }
  }

  /** The statement has outlived the slot's bound or its provider's own. */
  predicate Expired(at: Time, o: Observation, slot: AssertionSlot) {
    at > o.observedAt + slot.maxAge || (o.validUntil != 0 && at >= o.validUntil)
  }

  lemma EvidenceIsJudged(f: Facts, t: Target, slot: AssertionSlot)
    ensures Deciding(f, t, slot.name) != {} ==> EvidenceOf(f, t, slot) == Judge(f.at, slot, Deciding(f, t, slot.name))
    ensures Deciding(f, t, slot.name) == {} ==> EvidenceOf(f, t, slot) in {Unbound, Missing} || EvidenceOf(f, t, slot).Inapplicable?
  {
    var b := AssertionBindingOf(t, slot.name);
    if b.Some? && Applicable(f, Wanted(t, slot.name, b.value.provider)) != {} {
      LatestExists(Applicable(f, Wanted(t, slot.name, b.value.provider)));
    }
  }

  /** Evidence is current exactly when the latest applicable statements exist,
      are all no older than the slot allows and before the end their provider
      set, and all report the same admitted value. */
  lemma CurrentMeaning(f: Facts, t: Target, slot: AssertionSlot, v: Value)
    ensures EvidenceOf(f, t, slot) == Current(v) <==>
      && Deciding(f, t, slot.name) != {}
      && forall o :: o in Deciding(f, t, slot.name) ==>
           && f.at <= o.observedAt + slot.maxAge && (o.validUntil == 0 || f.at < o.validUntil)
           && o.outcome == ValueOutcome && o.value == v && Admits(slot, v)
  {
    EvidenceIsJudged(f, t, slot);
    if Deciding(f, t, slot.name) != {} {
      JudgeMeaning(f.at, slot, Deciding(f, t, slot.name), v);
    }
  }

  lemma JudgeMeaning(at: Time, slot: AssertionSlot, group: set<Observation>, v: Value)
    requires group != {}
    ensures Judge(at, slot, group) == Current(v) <==>
      forall o :: o in group ==>
        && at <= o.observedAt + slot.maxAge && (o.validUntil == 0 || at < o.validUntil)
        && o.outcome == ValueOutcome && o.value == v && Admits(slot, v)
  {
    if forall o :: o in group ==> CurrentAt(at, o, slot) && o.outcome == ValueOutcome && o.value == v && Admits(slot, v) {
      CanonicalEquality(v, v);
    } else if Judge(at, slot, group) == Current(v) {
      var o :| o in group && v == o.value && o.outcome != ProviderUnavailableOutcome;
      AgreeingGroup(slot, group, o);
    }
  }

  /** Why evidence is not current: one expired deciding statement makes it
      stale; else one that is neither an outage nor an admitted value a
      mismatch; else an outage beside a value, or two values, a conflict; and
      outages alone an unavailable provider. */
  lemma NotCurrentMeaning(f: Facts, t: Target, slot: AssertionSlot)
    ensures var ev, group := EvidenceOf(f, t, slot), Deciding(f, t, slot.name);
      var fresh_ := forall o :: o in group ==> !Expired(f.at, o, slot);
      var outage := (o: Observation) => o.outcome == ProviderUnavailableOutcome;
      var formed := forall o :: o in group ==> outage(o) || (o.outcome == ValueOutcome && Admits(slot, o.value));
      && (ev == Stale <==> exists o :: o in group && Expired(f.at, o, slot))
      && (ev == TypeMismatch <==> fresh_ && !formed)
      && (ev == Conflicting <==> fresh_ && formed && exists o, p :: o in group && p in group && !outage(o) && (outage(p) || p.value != o.value))
      && (ev == ProviderUnavailable <==> group != {} && fresh_ && forall o :: o in group ==> outage(o))
  {
    EvidenceIsJudged(f, t, slot);
    var group := Deciding(f, t, slot.name);
    if group != {} {
      forall o, p | o in group && p in group && !Malformed(o, slot) && !Malformed(p, slot)
        ensures Differs(o, p) <==> o.outcome != p.outcome || (o.outcome == ValueOutcome && p.value != o.value)
      {
        if o.outcome == ValueOutcome && p.outcome == ValueOutcome {
          CanonicalEquality(p.value, o.value);
        }
      }
    }
  }

  /** o is filed under the slot of the target's name by now, whatever it is about. */
  ghost predicate FiledBy(f: Facts, t: Target, slot: string, o: Observation) {
    && o in f.observations && o.observedAt <= f.at && o.key.slot == slot
    && o.key.target.namespace == t.identity.namespace && o.key.target.name == t.identity.name
  }

  predicate SameTarget(t: Target, o: Observation) {
    o.key.target == t.identity && o.key.resolvedUid == t.resolvedUid
  }

  lemma WorstMeaning(f: Facts, t: Target, slot: string, want: ApplicabilityKey)
    requires want == Wanted(t, slot, want.provider) && Applicable(f, want) == {}
    ensures var ms := Mismatches(f, t, slot, want);
      && (TargetReplaced in ms <==> exists o :: FiledBy(f, t, slot, o) && !SameTarget(t, o))
      && (ContractChanged in ms <==> exists o :: FiledBy(f, t, slot, o) && SameTarget(t, o) && o.key.contract != t.contractRef)
      && (ProviderChanged in ms <==> exists o :: FiledBy(f, t, slot, o) && SameTarget(t, o) && o.key.contract == t.contractRef)
  {
    var ms := Mismatches(f, t, slot, want);
    forall o ensures FiledBy(f, t, slot, o) <==> o in f.observations && o.observedAt <= f.at && Filed(o, t, slot) && o.key != want {
      assert o !in Applicable(f, want);
    }
    forall o | FiledBy(f, t, slot, o) ensures MismatchOf(o.key, want) in ms { }
  }

  /** Without a deciding statement: unbound, or what differs in the statements
      filed under the slot for something else, a replaced target first, then a
      changed contract, or nothing at all. */
  lemma NothingAppliesMeaning(f: Facts, t: Target, slot: AssertionSlot)
    requires Deciding(f, t, slot.name) == {}
    ensures var ev := EvidenceOf(f, t, slot);
      && (ev == Unbound <==> forall b :: b in t.assertionBindings ==> b.slot != slot.name)
      && (ev != Unbound ==>
            && (ev == Missing <==> forall o :: !FiledBy(f, t, slot.name, o))
            && (ev == Inapplicable(TargetReplaced) <==> exists o :: FiledBy(f, t, slot.name, o) && !SameTarget(t, o))
            && (ev == Inapplicable(ContractChanged) <==>
                  && (forall o :: FiledBy(f, t, slot.name, o) ==> SameTarget(t, o))
                  && exists o :: FiledBy(f, t, slot.name, o) && o.key.contract != t.contractRef)
            && (ev == Inapplicable(ProviderChanged) <==>
                  && (forall o :: FiledBy(f, t, slot.name, o) ==> SameTarget(t, o) && o.key.contract == t.contractRef)
                  && exists o :: FiledBy(f, t, slot.name, o)))
  {
    hide FiledBy, SameTarget, Mismatches, BoundTo;
    BindingMeaning(t, slot.name);
    var b := AssertionBindingOf(t, slot.name);
    if b.Some? {
      var want := Wanted(t, slot.name, b.value.provider);
      NoneApplies(f, want);
      WorstMeaning(f, t, slot.name, want);
    }
  }

  lemma NoneApplies(f: Facts, want: ApplicabilityKey)
    requires Latest(Applicable(f, want)) == {}
    ensures Applicable(f, want) == {}
  {
    hide Applicable, Latest;
    if Applicable(f, want) != {} {
      LatestExists(Applicable(f, want));
    }
  }

  // ── what time makes of it ─────────────────────────────────────────────────

  /** Nothing new was said between two instants: current evidence stays as it
      is through the last instant within both bounds of every deciding
      statement, and is stale from the first one past either. */
  lemma CurrentUntil(os: seq<Observation>, at: Time, later: Time, t: Target, slot: AssertionSlot, v: Value)
    requires EvidenceOf(Facts(at, os), t, slot) == Current(v) && at <= later
    requires forall o :: o in os && Speaks(Facts(later, os), t, slot.name, o) ==> o.observedAt <= at
    ensures EvidenceOf(Facts(later, os), t, slot) ==
      if exists o :: o in Deciding(Facts(at, os), t, slot.name) && Expired(later, o, slot) then Stale else Current(v)
  {
    var f, g := Facts(at, os), Facts(later, os);
    SameDeciding(os, at, later, t, slot.name);
    CurrentMeaning(f, t, slot, v);
    CurrentMeaning(g, t, slot, v);
    NotCurrentMeaning(g, t, slot);
  }

  lemma SameDeciding(os: seq<Observation>, at: Time, later: Time, t: Target, slot: string)
    requires at <= later && forall o :: o in os && Speaks(Facts(later, os), t, slot, o) ==> o.observedAt <= at
    ensures Deciding(Facts(later, os), t, slot) == Deciding(Facts(at, os), t, slot)
  {
    var f, g := Facts(at, os), Facts(later, os);
    hide BoundTo;
    assert forall o :: Speaks(f, t, slot, o) <==> Speaks(g, t, slot, o);
    forall o ensures o in Deciding(f, t, slot) <==> o in Deciding(g, t, slot) {
      DecidingMeaning(f, t, slot, o);
      DecidingMeaning(g, t, slot, o);
    }
  }

  /** Whatever the evidence was: once a deciding statement is past a bound and
      nobody has said anything since, the slot is stale, and stays so. */
  lemma ExpiredIsStale(os: seq<Observation>, at: Time, later: Time, t: Target, slot: AssertionSlot, o: Observation)
    requires o in Deciding(Facts(at, os), t, slot.name) && at <= later
    requires forall p :: p in os && Speaks(Facts(later, os), t, slot.name, p) ==> p.observedAt <= at
    requires later > o.observedAt + slot.maxAge || (o.validUntil != 0 && later >= o.validUntil)
    ensures EvidenceOf(Facts(later, os), t, slot) == Stale
  {
    SameDeciding(os, at, later, t, slot.name);
    NotCurrentMeaning(Facts(later, os), t, slot);
  }
}
