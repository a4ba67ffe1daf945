/** What the investigator reads from an evaluation of the held evidence, and
    what an episode that ends Resolved or Refreshed has established
    (`evaluate`, `contractOf` and the end of the episode loop in
    pkg/investigate/investigator.go). */
module Conclusions {
  import opened Wrappers
  import opened OpsTypes
  import opened Contracts
  import opened Resolution
  import opened EvidenceRules
  import opened Semantics
  import opened Candidates
  import Evaluator
  import Proposals
  import R = Recovery
  import A = ActionTypes

  /** ta is the assessment of target uid on exactly the held statements. */
  ghost predicate Assesses(base: Snapshot, held: set<Observation>, at: Time, uid: string, ta: TargetAssessment) {
    exists os, t :: AssessesOn(base, held, at, uid, ta, os, t)
  }

  ghost predicate AssessesOn(base: Snapshot, held: set<Observation>, at: Time, uid: string, ta: TargetAssessment, os: seq<Observation>, t: Target) {
    Members(os) == held && Proposals.TargetWithUid(base.targets, uid) == Some(t) && Evaluator.Correct(base.(facts := Facts(at, os)), t, ta)
  }

  /** `evaluate`, for one target. */
  method Assess(base: Snapshot, os: seq<Observation>, uid: string, at: Time) returns (ta: Option<TargetAssessment>)
    ensures ta.Some? ==> Assesses(base, Members(os), at, uid, ta.value)
    ensures ta.None? <==> at == 0 || Proposals.TargetWithUid(base.targets, uid).None?
  {
    hide Evaluator.Correct;
    var t := Proposals.TargetWithUid(base.targets, uid);
    if t.None? {
      return None;
    }
    var i := R.IndexOf(base.targets, t.value);
    var s := base.(facts := Facts(at, os));
    var out := Evaluator.Evaluate(s, [i]);
    if out.NoEvaluationInstant? {
      return None;
    }
    assert Evaluator.Correct(s, s.targets[[i][0]], out.targets[0]);
    assert AssessesOn(base, Members(os), at, uid, out.targets[0], os, t.value);
    ta := Some(out.targets[0]);
  }

  /** The first contract of an identity. */
  function ContractWith(cs: seq<Contract>, id: ContractIdentity): Option<Contract> {
    First(cs, (c: Contract) => c.identity == id)
  }

  lemma OnlyContract(cs: seq<Contract>, t: Target)
    requires ContractOf(cs, t).Some?
    ensures ContractWith(cs, t.contractRef) == ContractOf(cs, t)
  {
    var only := WithIdentity(cs, t.contractRef);
    forall c | c in cs && c.identity == t.contractRef ensures c == only[0] {
      assert c in only;
    }
    FirstUnique(cs, (c: Contract) => c.identity == t.contractRef, ContractOf(cs, t).value);
  }

  /** c is the contract the target names. */
  ghost predicate IsContract(base: Snapshot, uid: string, c: Contract) {
    var t := Proposals.TargetWithUid(base.targets, uid);
    t.Some? && ContractWith(base.contracts, t.value.contractRef) == Some(c)
  }

  /** Every assessment of the target is under the same contract. */
  lemma SameContract(base: Snapshot, held: set<Observation>, at: Time, uid: string, ta: TargetAssessment)
    requires Assesses(base, held, at, uid, ta)
    ensures forall c :: ContractWith(base.contracts, ta.contract) == Some(c) <==> IsContract(base, uid, c)
  {
    hide Evaluator.FinalWorld, ContractWith;
    var os, t :| AssessesOn(base, held, at, uid, ta, os, t);
  }

  /** A valid target always has its contract. */
  lemma ValidHasContract(base: Snapshot, held: set<Observation>, at: Time, uid: string, ta: TargetAssessment)
    requires Assesses(base, held, at, uid, ta) && ta.valid
    ensures ContractWith(base.contracts, ta.contract).Some?
  {
    hide Evaluator.FinalWorld, Evaluator.Assessed, Sane, Resolution.ContractOf, ContractWith;
    var os, t :| AssessesOn(base, held, at, uid, ta, os, t);
    Evaluator.WorldsOk(base.targets, base.contracts);
    OnlyContract(base.contracts, t);
  }

  /** The target is valid; no evidence bears on that. */
  ghost predicate ValidUid(base: Snapshot, uid: string) {
    var t := Proposals.TargetWithUid(base.targets, uid);
    t.Some? && t.value.identity.uid in Evaluator.FinalWorld(base.targets, base.contracts).ok
  }

  lemma AssessedValid(base: Snapshot, held: set<Observation>, at: Time, uid: string, ta: TargetAssessment)
    requires Assesses(base, held, at, uid, ta)
    ensures ta.valid <==> ValidUid(base, uid)
  {
    hide Evaluator.FinalWorld, Evaluator.Assessed;
    var os, t :| AssessesOn(base, held, at, uid, ta, os, t);
  }

  /** A valid target has one assessment on the same statements at one instant,
      in whatever order they are listed. */
  lemma AssessedOnce(base: Snapshot, held: set<Observation>, at: Time, uid: string, ta: TargetAssessment, ta': TargetAssessment)
    requires Assesses(base, held, at, uid, ta) && Assesses(base, held, at, uid, ta') && ta.valid
    ensures ta' == ta
  {
    hide Evaluator.FinalWorld, Evaluator.Assessed, Evaluator.Correct, R.Assessable, R.AssessmentOn;
    var os, t :| AssessesOn(base, held, at, uid, ta, os, t);
    var os', t' :| AssessesOn(base, held, at, uid, ta', os', t');
    AssessedValid(base, held, at, uid, ta);
    AssessedValid(base, held, at, uid, ta');
    var r := R.Ended(uid, A.BindingOf(t), 0, 0, []);
    R.CorrectAssessment(r, base, Facts(at, os), t, ta);
    R.CorrectAssessment(r, base, Facts(at, os'), t, ta');
    forall o: Observation ensures o in os <==> o in os' {
      assert o in Members(os) <==> o in Members(os');
    }
    R.SameAssessment(base, base, r, Facts(at, os), Facts(at, os'));
  }

  /** On the held statements at that instant nothing about the target is left open. */
  ghost predicate Concluded(base: Snapshot, held: set<Observation>, at: Time, uid: string) {
    exists ta, c :: Assesses(base, held, at, uid, ta) && ta.valid && ContractWith(base.contracts, ta.contract) == Some(c) && NothingOpen(ta, c)
  }

  /** Every capability is decided, and the selected envelope as well. */
  ghost predicate AllDecided(ta: TargetAssessment) {
    && (forall ty :: ty in ta.capabilities ==> Decided(ty, ta.capabilities[ty]))
    && (ta.envelopeSelection != "" && ta.envelopeSelection in ta.envelopes ==> ta.envelopes[ta.envelopeSelection].state != EnvUnknown)
  }

  /** Resolved means decided: the evaluation on which an episode ended Resolved
      or Refreshed leaves no capability of its target UNKNOWN, except by
      conflicting impact alone, and its selected envelope decided. */
  lemma ConcludedIsDecided(base: Snapshot, held: set<Observation>, at: Time, uid: string)
    requires Concluded(base, held, at, uid)
    ensures exists ta :: Assesses(base, held, at, uid, ta) && ta.valid && AllDecided(ta)
  {
    hide Evaluator.FinalWorld, Evaluator.Assessed, NothingOpen, Sane, Resolution.ContractOf, ContractWith, Decided;
    var ta, c :| Assesses(base, held, at, uid, ta) && ta.valid && ContractWith(base.contracts, ta.contract) == Some(c) && NothingOpen(ta, c);
    var os, t :| AssessesOn(base, held, at, uid, ta, os, t);
    var w := Evaluator.FinalWorld(base.targets, base.contracts);
    Evaluator.WorldsOk(base.targets, base.contracts);
    var c' :| Evaluator.ValidTarget(w, t, c') && ta == Evaluator.Assessed(w, Facts(at, os), t, c');
    OnlyContract(base.contracts, t);
    NothingOpenIsDecided(w, Facts(at, os), t, c');
  }
}
