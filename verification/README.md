# A verified model of bori's operational core

bori watches operational targets, decides from evidence which of their
capabilities work, hands approved responses to external action providers, and
shows an operator what needs a decision. This project models that core in Dafny
and proves what the design relies on:

- **Capability evaluation** (`pkg/operations`). Targets are resolved, Tarjan's
  algorithm rejects every target that owns a capability on a cross-target
  dependency cycle, and a memoised recursion computes each capability from the
  latest evidence. `Semantics.dfy` defines what a capability *is* without memo
  tables or visiting order; the evaluator is proved to compute exactly that,
  and the guarantees (containment, decay only to UNKNOWN, what AVAILABLE
  means) are proved of the definition. `States.dfy` says of every state and
  reason when it arises, in terms of evidence, bindings and dependencies.
- **Action engine** (`pkg/action`). Any number of engines share a fenced
  compare-and-swap journal and send to deduplicating providers over a network
  that loses, delays, repeats and reorders. `Protocol.dfy` is the transition
  system; `Safety.dfy` its invariant; `ActionTheorems.dfy` what holds in every
  reachable state. `Engine.dfy` is the engine itself, as a class over a real
  journal and real providers, and every one of its methods is proved to be a
  run of that transition system.
- **Bounded investigator** (`pkg/investigate`). The evidence cache with its
  watermarks, the hypotheses, and the scheduler with budgets, cooldowns and the
  rotation through the targets.
- **Operator display** (`pkg/interaction`). The response boundary that the
  action engine computes a second time, the proof that both agree, and the
  bounded history.
- **Release order** (`pkg/release`). Kahn's algorithm on any list of names and
  the reverse closure. Nothing prevents a release from listing a component
  twice; then the algorithm refuses some releases without a cycle, accepts some
  with one, and places some dependencies too late. `ReleaseOrder.dfy` and
  `RepeatedNames.dfy` prove when it does which.

Instants and durations are integers (nanoseconds); 0 is the zero time. Digests
and the strings the source builds from structured parts (proposal IDs,
idempotency keys, subjects of reasons, candidate IDs) are injective
constructors. Sorted lists whose order carries nothing are sets or multisets.

## Files

| file | content |
|---|---|
| Wrappers, Graphs, Counting | optional values, finite graphs and reachability, counting |
| OpsTypes, Predicates, Contracts, DepthFirst, Validation | evaluator types, predicates, contract lookups, `localCycle`, `Validate` |
| Tarjan, Resolution | component search; target resolution, the capability graph, cycle rejection |
| EvidenceRules, Semantics, Guarantees, States, Evaluator | evidence, the memo-free meaning, its guarantees, what each state and reason says, the memoising evaluator |
| Profiles, ActionTypes, Journal, Actors, EngineRules | declared responses, records, journal, reference provider, gates and approvals |
| Protocol, JournalSafety, Safety, ActionTheorems, Outcomes | transition system, journal invariants, system invariant, theorems, what records say about their executions |
| Proposals, Recovery, Engine | `derive`, `assessRecovery`, the engine class |
| Interaction, Agreement, History | display, its agreement with dispatch, recurrence history |
| Cache, Candidates, Conclusions, Ledger, Rotation, Scheduling, Worth, Investigator | evidence cache, hypotheses, what an episode concludes, budgets and rate, whose turn it is, what a turn must do, what is worth asking, the scheduler |
| Release, ReleaseOrder, RepeatedNames, Affected | Kahn's algorithm, its theorems, what repeated names do to them, the reverse closure |

`dafny verify dfyconfig.toml` checks everything.

## Model

| member | source | states |
|---|---|---|
| `DepthFirst.CycleSearch.Run` | pkg/operations/contract.go:233-279 | a cycle is answered exactly when one can be reached from the roots, and what is answered is one |
| `Contracts.LocalCycle` | pkg/operations/contract.go:233-279 | a contract's local capability references have a reported cycle if and only if they have one |
| `Validation.Validate` | pkg/operations/contract.go:107-227 | no defect is reported if and only if the contract is well formed in every section |
| `Resolution.ResolveTarget` | pkg/operations/evaluator.go:133-198 | no structural reason is found if and only if the target resolves |
| `Contracts.WellFormedMeaning` | pkg/operations/contract.go:107-227 | what well formed means, in terms of the contract's own entries |
| `Resolution.ResolvesMeaning` | pkg/operations/evaluator.go:133-198 | what resolving means: the only target with its UID, the only contract of that identity, in its namespace and well formed, each binding a declared slot, once and complete |
| `Resolution.DependencyMeaning` | pkg/operations/evaluator.go:545-575 | a dependency is followed to m if and only if its slot is bound, exactly one target has the bound UID and is valid, refers to exactly the bound contract, and that declares the required type under m's name |
| `Resolution.BrokenMeaning` | pkg/operations/evaluator.go:545-571 | exactly when each of the five reasons holds for which a dependency is not followed |
| `Resolution.EdgesMeaning` | pkg/operations/evaluator.go:243-271 | the edges of the capability graph are the local capabilities that requirements name and the capabilities that dependencies are followed to |
| `Tarjan.Search.StrongConnect` | pkg/operations/evaluator.go:286-336 | one recursive call keeps the search invariant, the low link bounds every edge back and is witnessed by a reachable stack node |
| `Tarjan.Search.Complete` | pkg/operations/evaluator.go:315-334 | what is popped is exactly one strongly connected component, reported if and only if its nodes lie on a cycle |
| `Tarjan.Search.Run` | pkg/operations/evaluator.go:278-344 | over any order of the nodes, every component listed is a whole component and a node is listed exactly when it reaches itself by one or more edges |
| `Resolution.RejectCycles` | pkg/operations/evaluator.go:278-356 | whatever the traversal order, the targets that stay valid are exactly those that were valid and own no capability on a cycle |
| `Resolution.RejectedIsSane` | pkg/operations/evaluator.go:278-356 | after rejection the capability graph of the remaining targets has no cycle at all, so the recursion over it is well founded |
| `EvidenceRules.ResolveEvidence` | pkg/operations/evaluator.go:369-456 | the loops compute the set-level meaning: latest applicable statements decide, no fallback, worst mismatch otherwise; independent of statement order |
| `EvidenceRules.CurrentMeaning` | pkg/operations/evaluator.go:369-463 | evidence is current with value v if and only if there are deciding statements and each is no older than the slot's age bound, before its provider's own end if it set one, and reports the admitted value v |
| `EvidenceRules.NotCurrentMeaning` | pkg/operations/evaluator.go:424-463 | stale if and only if a deciding statement is past either bound; else what makes it a type mismatch, a conflict or an unavailable provider |
| `EvidenceRules.DecidingMeaning` | pkg/operations/evaluator.go:369-422 | the deciding statements are those by the bound provider about exactly this target, instance, contract and slot, made by now, with none later |
| `EvidenceRules.NothingAppliesMeaning` | pkg/operations/evaluator.go:388-402 | without a deciding statement: unbound, missing, or inapplicable for a replaced target first, then a changed contract, then a changed provider |
| `EvidenceRules.CurrentUntil` | pkg/operations/evaluator.go:458-463 | when nothing new is said, current evidence stays what it is through the last instant within both bounds of every deciding statement and is stale from the next on |
| `EvidenceRules.ExpiredIsStale` | pkg/operations/evaluator.go:458-463 | a deciding statement past a bound leaves the slot stale, whatever it was, until something new is said |
| `Semantics.RequirementDescends` | pkg/operations/evaluator.go:243-276 | every edge of a valid capability leads to one with strictly less below it: the rank on which evaluation terminates |
| `Evaluator.Evaluator.Capability` | pkg/operations/evaluator.go:577-643 | with all three memo tables, in whatever state earlier calls left them, the result equals the memo-free definition |
| `Evaluator.Evaluator.JudgeEnvelope` | pkg/operations/evaluator.go:515-543 | a cached or fresh envelope result is its definition: one proven failure makes it unsatisfied, else one unproven input unknown |
| `Evaluator.TallyComposes` | pkg/operations/evaluator.go:583-642 | the running tally of impacts ends in the state that the whole list of verdicts defines, conflicts of impact included |
| `Evaluator.Evaluate` | pkg/operations/evaluator.go:31-44 | assessing targets in any order gives each the result its definition gives, valid exactly when neither unresolved nor an owner of a cycle |
| `Guarantees.AvailableIsExact` | pkg/operations/evaluator.go:502-643 | AVAILABLE if and only if everywhere in the dependency closure each dependency is followed to a capability of the one valid target bound, under exactly the bound contract identity, and each predicate, envelopes included, is true on current evidence |
| `States.EvalMeaning` | pkg/operations/predicate.go:98-149 | on an admitted value a fitting predicate is the comparison its operator names |
| `States.EnvelopeMeaning` | pkg/operations/evaluator.go:515-543 | unsatisfied if and only if one predicate is false on current evidence, satisfied if and only if all are true on it |
| `States.StateIsExact` | pkg/operations/evaluator.go:577-643 | AVAILABLE if and only if every requirement is met; DEGRADED or UNAVAILABLE if and only if all are decided, some are proven unmet and all of those declare exactly that impact |
| `States.ReasonsAreExact` | pkg/operations/evaluator.go:502-643 | the reasons are exactly why each requirement is not met, and a conflict exactly when decided failures declare different impacts |
| `Guarantees.DecayOnlyToUnknown` | pkg/operations/evaluator.go:385-463 | with fixed statements, a capability that is not UNKNOWN at an instant had the same result at every earlier instant at which all of them had been made |
| `Guarantees.EnvelopeDecayOnlyToUnknown` | pkg/operations/evaluator.go:385-543 | the same of an envelope |
| `Guarantees.CapabilityCarries` | pkg/operations/evaluator.go:545-643 | facts that confirm everything current keep every decided capability as it is, reasons included |
| `Guarantees.SupportContains` | pkg/operations/evaluator.go:369-643 | statements about slots outside the transitive support, on any target, change neither state nor reasons |
| `Guarantees.EvidenceIsLocal` | pkg/operations/evaluator.go:369-404 | only statements filed under the target's name and slot bear on that slot |
| `Journal.MemJournal.Put` | pkg/action/journal.go:84-98 | a write is refused from an epoch older than the newest and on any stale version, and otherwise stores exactly that record |
| `Journal.MemJournal.Epoch` | pkg/action/journal.go:64-70 | each claim is newer than all issued before and changes no record |
| `Actors.Actor.Submit` | pkg/action/actiontest/actiontest.go:78-117 | a stale fence is not heard; a silent provider only raises its fence and answers nothing; otherwise a key is executed at most once however often it is sent, and a refusal is remembered |
| `Actors.ReceiveMeaning` | pkg/action/actiontest/actiontest.go:78-117 | a handoff adds at most the one job of its key; a repetition changes nothing of a job but its fence |
| `Actors.AnswerMeaning` | pkg/action/actiontest/actiontest.go:119-144 | a poll answers with the job's own fence, digest and state, and a key never heard of is unknown |
| `EngineRules.Gates` | pkg/action/engine.go:412-448 | each execution condition that fails is named, and nothing else, so that the list is empty if and only if all hold; a resend is not stopped by its own target being busy |
| `EngineRules.FindApproval` | pkg/action/engine.go:452-482 | an approval is found exactly when policy suffices or some decision counts as approving and none as rejecting |
| `EngineRules.StillApproved` | pkg/action/engine.go:510-529 | true if and only if the recorded approval itself still authorises; no other decision stands in for it |
| `EngineRules.FindAttempt` | pkg/action/engine.go:533-545 | the next attempt is found exactly when there is one: the first, or the one after a retryable failure within budget |
| `JournalSafety.UpdateKeepsJournal` | pkg/action/engine.go:265-393 | any lawful change of one record keeps attempts contiguous, occupancy exclusive and episodes contiguous |
| `JournalSafety.RecoveredAreInitial` | pkg/action/engine.go:174-182 | the recovered episodes of a subject are exactly 1..k |
| `Safety.WriterIsNewest` | pkg/action/journal.go:84-98 | an engine whose write is accepted holds the newest epoch and its local copy is the whole journal |
| `Safety.StepInv` | pkg/action/engine.go:237-393 | every transition of every engine, provider and network event keeps the system invariant |
| `Safety.ReachableInv` | pkg/action/engine.go:79-161 | the invariant holds in every state reachable through crashes, takeovers, lost receipts and late submits |
| `ActionTheorems.ExclusiveActuation` | pkg/action/engine.go:216-393 | in every reachable state at most one record per target occupies, every live job has its occupying record, and at most one execution per target is live, at whichever provider |
| `ActionTheorems.ReleasedOnlyByProvider` | pkg/action/types.go:36-46 | a target is released only by a job its provider ended or refused: no timeout, withdrawal or expiry releases it |
| `ActionTheorems.StepGrows` | pkg/action/engine.go:237-393 | across any transition records stay, intents are fixed, send counts only grow, and definitive phases and final recovery verdicts stay what they are |
| `ActionTheorems.ApprovalNeverChanges` | pkg/action/engine.go:498-587 | over any run the approval and decision an attempt was persisted with never change |
| `ActionTheorems.EverySendIsApproved` | pkg/action/engine.go:297-310 | every first send and resend hands off what the record was persisted with, under the current digest, an owner, registration and authority, proven preconditions and a durable journal, on a first send also with the target free; and under the record's own approval: a verified, fresh decision of a declared approver about exactly this proposal, with no such rejection |
| `ActionTheorems.SendsDecidedOnJournal` | pkg/action/engine.go:533-587 | the copy of the journal on which a send is decided, target-busy gate included, is the whole journal at that instant |
| `ActionTheorems.SendBudget` | pkg/action/engine.go:283-310 | submits of a key never exceed its journalled sends, which never exceed the declared bound, 3 if none is declared, over all engines |
| `ActionTheorems.AttemptsAreInitial` | pkg/action/engine.go:533-545 | a proposal's attempts are exactly 1..m with m within the declared budget, 1 if none is declared, all but the last failed definitively |
| `ActionTheorems.ProposalBudget` | pkg/interaction/profile.go:119-132 | all submits of a proposal are at most the product of its two budgets |
| `ActionTheorems.EpisodesAreContiguous` | pkg/action/engine.go:174-182 | recovered proposals of a subject are exactly episodes 1..k and no record lies beyond k+1 |
| `ActionTheorems.RecoveredNeverDerivedAgain` | pkg/action/proposal.go:271-286 | no step derives a proposal that has recovered before |
| `ActionTheorems.OvertakenEngineCannotPersist` | pkg/action/journal.go:84-98 | once a newer epoch is issued no write of an older engine is accepted |
| `Outcomes.PhaseIsProviders` | pkg/action/engine.go:325-363 | in every reachable state a record has succeeded, failed or been refused only if its provider's job did, and the end is stamped exactly for the first two |
| `Outcomes.RetryIsEarned` | pkg/action/engine.go:533-545 | a further attempt exists only when each one before was failed or refused at its provider and declared retryable |
| `Outcomes.GivenUpInTime` | pkg/action/engine.go:265-321 | a target timed out only once the acknowledgement, or after it the completion, was overdue; it was withdrawn only unacknowledged and before that |
| `Outcomes.SendsAreSpaced` | pkg/action/engine.go:286-310 | sends of a key keep an even share of the acknowledgement time apart and end with it |
| `Outcomes.TermsAreDeclared` | pkg/action/engine.go:565-587 | a record carries the deadlines, window, provider, owner, action and expected impact of the very declaration its proposal is about |
| `Proposals.Survey` | pkg/action/proposal.go:190-222 | the maps built in one pass are the sets of viable responses, of execution contracts and of owners |
| `Proposals.DeriveTarget` | pkg/action/proposal.go:186-243 | exactly one proposal per triggered declaration of the target, each with the human boundary and owner conflict the sets define |
| `Proposals.ProposalMeaning` | pkg/action/proposal.go:186-313 | a proposal's declaration fires on exactly this target; a person is needed exactly for a declared approval, risk or interruption or a rival response; owners conflict exactly when declared differently; each precondition is proven, unproven or unmet as its capability stands |
| `Proposals.DigestCovers` | pkg/action/proposal.go:271-313 | proposals with one digest agree in everything an approver or provider may rely on |
| `Proposals.Derive` | pkg/action/proposal.go:176-251 | every proposal belongs to a valid target and every triggered declaration of one is proposed, at one more than its recovered episodes |
| `Recovery.AssessRecovery` | pkg/action/recovery.go:16-64 | the verdict is the meaning of recovery on the post-execution statements |
| `Recovery.VerdictIsExact` | pkg/action/recovery.go:34-63 | by the states of the expected capabilities on what was observed after the end: all AVAILABLE is Recovered at any time; else Pending until the window is over, then Partial with some AVAILABLE, NotRecovered with none and some affected, Unconfirmed with all UNKNOWN |
| `Recovery.FinalInsideWindow` | pkg/action/recovery.go:52-63 | inside the window nothing is final but Recovered and no longer applicable |
| `Recovery.AssessableMeaning` | pkg/action/recovery.go:16-37 | a record can be judged if and only if the one target of its UID is valid and every part of its binding is unchanged |
| `Recovery.RecoveredIsJustified` | pkg/action/recovery.go:16-64 | Recovered: each expected capability is AVAILABLE with its whole closure grounded on statements made strictly after the end, and AVAILABLE on all statements too |
| `Recovery.EarlierStatementsDoNotMatter` | pkg/action/recovery.go:21-28 | adding or removing statements made up to the end never changes the verdict |
| `Recovery.LaterConfirms` | pkg/operations/evaluator.go:405-456 | what is current among later statements is current with the same value among all of them |
| `Engine.Engine.Put` | pkg/action/engine.go:237-249 | accepted if and only if no newer epoch exists and the version is current; then journal and local copy take the protocol's write, else nothing changes |
| `Engine.Engine.Send` | pkg/action/engine.go:365-393 | one submit; the record becomes exactly what the receipt says when one came back and the journal takes the write, and else stays |
| `Engine.Engine.Advance` | pkg/action/engine.go:265-363 | a record of a newer engine is left alone; otherwise a matching answer gives the phase of that very result, with its stamps, and without one the record is timed out, withdrawn, resent or kept exactly as its deadlines, budget and approval say |
| `Engine.Engine.Recover` | pkg/action/engine.go:395-408 | exactly a final verdict is persisted, and it is the meaning of recovery on this snapshot |
| `Engine.JudgedMeaning` | pkg/action/engine.go:395-408 | judging changes a record only to a final verdict on its own end, window, binding and expected impact, and inside the window only to Recovered or no longer applicable |
| `Engine.Engine.Choose` | pkg/action/engine.go:533-565 | an attempt is chosen if and only if there is a next one, every gate passes and an approval counts |
| `Engine.Engine.Decide` | pkg/action/engine.go:533-587 | a new record appears only as a chosen attempt persisted before its send, and does appear when the journal accepts it; nothing else changes |
| `Engine.TurnIsLocal` | pkg/action/engine.go:265-321 | where a record's turn leads depends on that record alone, and nothing else changes |
| `Engine.Engine.AdvanceAll` | pkg/action/engine.go:109-113 | with the newest epoch every occupying record has its turn and no other changes; an overtaken engine changes none |
| `Engine.Engine.RecoverAll` | pkg/action/engine.go:114-118 | every ended record without a final verdict is judged, exactly the final verdicts are persisted |
| `Engine.Engine.DecideAll` | pkg/action/engine.go:130-133 | each proposal is decided: what attempt could be made then exists now, and every new record was one that could be made |
| `Engine.Engine.Step` | pkg/action/engine.go:79-161 | from any reachable state, whatever the network does, a step is a run to a reachable state; an overtaken engine changes no record, the newest advances, judges and decides everything in that order |
| `Interaction.Declared` | pkg/interaction/project.go:371-444 | for every capability exactly the triggered declarations are displayed, with their status, each once |
| `Interaction.StatusMeaning` | pkg/interaction/project.go:391-430 | exactly when a displayed response has each of the six statuses, in terms of its declaration and the capabilities it presumes |
| `Interaction.BoundaryMeaning` | pkg/interaction/project.go:295-347 | intervention exactly for an UNAVAILABLE capability whose declared responses are all inapplicable; awareness exactly for one ready and sole viable response or an undeclared known impact; nothing when nothing is wrong or declared; else a decision |
| `Interaction.Decision.DecideCapability` | pkg/interaction/project.go:295-347 | the level rises exactly to the boundary's, and reasons and needs for a person grow by exactly those of the capability |
| `Interaction.ReasonsMeaning` | pkg/interaction/project.go:295-347 | which reasons those are: no declared response to a known impact, or one only from a dependency; no safe path, no viable response, no priority; why each viable response is not ready, and that a sole one is |
| `Interaction.HumanIffDecision` | pkg/interaction/project.go:290-347 | a person is needed if and only if the boundary is a decision or an intervention |
| `Interaction.HumanMeaning` | pkg/interaction/project.go:295-347 | what for: the missing path, the missing priority, or a viable response that is not ready, by its action and the reason of its status |
| `Agreement.SameDisplay` | pkg/action/proposal.go:82-99 | two declarations are displayed alike if and only if they have the same response key |
| `Agreement.SameCount` | pkg/action/proposal.go:190-222 | display and engine count the same number of viable responses per capability |
| `Agreement.AutomaticIffReady` | pkg/action/proposal.go:176-262 | a proposal needs no person and passes its own gates if and only if its response applies, is the only viable one displayed and is Ready, with one execution contract that interrupts nothing |
| `Agreement.AutomaticIsShownReady` | pkg/action/engine.go:412-455 | when a proposal may go out without a person the display shows one viable Ready response, raises no more than AWARENESS and asks nobody |
| `Agreement.AutomaticIsUnique` | pkg/action/engine.go:412-455 | at most one proposal per capability of a target may go out without a person |
| `History.Finish` | pkg/interaction/project.go:611-639 | the loop computes the next summary of the identity |
| `History.HistoryRefines` | pkg/interaction/project.go:611-639 | over any run of one identity the recent fingerprints are the first four of the unbounded most-recently-seen list, and recurrences count the returns to it, up to their cap |
| `History.RecurringMeaning` | pkg/interaction/project.go:622-637 | recurring exactly when a changed meaning was among the four latest |
| `History.ProjectionIsIdempotent` | pkg/interaction/project.go:611-639 | for the history part of a summary, at a given fingerprint: finishing again from one's own output changes nothing |
| `Cache.EvidenceCache.Admit` | pkg/investigate/investigator.go:689-722 | a statement is refused only as a new key beyond capacity; otherwise its key's entry, and no other, becomes what the rules make of it |
| `Cache.AdmitKeepsEntry` | pkg/investigate/investigator.go:689-722 | an entry is an outage alone, or one to four distinct values all stamped with the mark |
| `Cache.AdmitMeaning` | pkg/investigate/investigator.go:689-722 | an outage and a strictly newer value replace what is held, a value of the same instant joins up to three others unless an outage came between, anything else is ignored |
| `Cache.Watermark` | pkg/investigate/investigator.go:689-722 | while a key is held, accepted stamps never go backwards and the mark is the last of them |
| `Cache.OutageClears` | pkg/investigate/investigator.go:704-720 | only a value strictly newer than every accepted one clears an outage |
| `Cache.SimultaneousNeverCurrent` | pkg/operations/evaluator.go:405-455 | two or more values held for a key never evaluate to current evidence |
| `Candidates.FindStatus` | pkg/investigate/candidates.go:160-175 | whatever the order of the reasons, a hypothesis is open as soon as one leaves its input unproven |
| `Worth.HypothesisMeaning` | pkg/investigate/candidates.go:57-175 | a hypothesis is open while a requirement on its input is neither met nor proven unmet, else maintained while one is proven unmet, refuted when all are met |
| `Candidates.DeriveCandidates` | pkg/investigate/candidates.go:57-105 | exactly the hypotheses the assessment and contract define |
| `Candidates.BoundCandidates` | pkg/investigate/candidates.go:112-136 | of too many hypotheses exactly the bound is kept; queryable open ones never give way to others, and among themselves only to less recently asked ones |
| `Candidates.NothingOpenIsDecided` | pkg/investigate/candidates.go:57-175 | with no open hypothesis no capability is UNKNOWN except by conflicting impact, and the selected envelope is decided |
| `Conclusions.ConcludedIsDecided` | pkg/investigate/investigator.go:447-460 | the evaluation on which an episode ends Resolved or Refreshed leaves the target decided |
| `Ledger.EpisodeBegins` | pkg/investigate/investigator.go:395-424 | an admitted start keeps all starts of a target a cooldown apart |
| `Ledger.CallSpent` | pkg/investigate/investigator.go:458-471 | a charged call keeps budget, deadline and one call per slot and episode |
| `Ledger.RecordForgotten` | pkg/investigate/investigator.go:337-353 | forgetting a record after its cooldown grants no allowance |
| `Ledger.CallRate` | pkg/investigate/investigator.go:390-470 | in any window of length w a target gets at most maxCalls times (w + deadline) / cooldown + 1 calls |
| `Investigator.Investigator.Purge` | pkg/investigate/investigator.go:326-354 | exactly the authorized evidence stays, and of unqueryable targets only ended records that still cool down |
| `Investigator.Investigator.Prune` | pkg/investigate/investigator.go:785-792 | exactly the terminal records whose cooldown is over go |
| `Investigator.Investigator.SelectQuery` | pkg/investigate/investigator.go:571-624 | a slot is chosen if and only if one is useful or due for refresh: the useful one that decides most, the least recently asked among equals, the first by name among those; only without any, the one due for refresh by the same order |
| `Worth.UsefulIsExact` | pkg/investigate/investigator.go:571-609 | a slot is useful to ask if and only if it is queryable, not yet asked, without current evidence, and read by a capability that is not AVAILABLE or the selected envelope that is not satisfied |
| `Worth.RefreshIsExact` | pkg/investigate/investigator.go:611-669 | a slot is due for refresh if and only if it is queryable, not yet asked, current, read by something, and the value held is within the margin of either bound |
| `Scheduling.StatementMeaning` | pkg/investigate/investigator.go:500-520 | a finished call leaves the provider's value exactly when it is there, in time by every bound and not from the future, and an outage otherwise |
| `Scheduling.KeyMeaning` | pkg/investigate/investigator.go:801-810 | two turns see one identity if and only if target instance, contract and every slot's provider and resolved instance agree |
| `Investigator.Investigator.Decide` | pkg/investigate/investigator.go:428-460 | an episode ends in exactly the state that the first of shutdown, deadline, steps, validity, calls and open hypotheses gives it, Resolved or Refreshed only when nothing is open on what is held; a query is chosen only within calls, steps, deadline and once per slot, and is chosen, the first there is to ask, whenever these and the slice allow one |
| `Investigator.Investigator.Ask` | pkg/investigate/investigator.go:473-526 | what the call said is admitted, a late, failed or future-stamped answer as an outage; shutdown cancels the episode, the end of the slice before an answer leaves it running, a statement without room ends it, and each of these admits nothing |
| `Investigator.Investigator.ReceivedMeaning` | pkg/investigate/investigator.go:473-520 | the provider's value counts exactly when it is there, within the time of one call and before the deadline of its episode, and not from the future |
| `Investigator.Investigator.Start` | pkg/investigate/investigator.go:390-424 | an episode starts if and only if something is worth asking, the last start of the target is a cooldown back, whatever its identity or outcome, and there is room; it investigates exactly when some slot is useful |
| `Investigator.Investigator.Investigate` | pkg/investigate/investigator.go:368-528 | an episode starts, at the first reading, exactly when one must; when started or resumed and the slice, deadline, steps and calls allow, a call is made at the second reading on the slot to be asked first; an episode newly finished has concluded at the last reading on the evidence held; one is left running only when the slice is over |
| `Rotation.Sort` | pkg/investigate/investigator.go:159-163 | each target of the set once, strictly ascending |
| `Rotation.BelowMeaning` | pkg/investigate/investigator.go:159-163 | the order is that of the first differing character, a proper prefix first |
| `Rotation.Search` | pkg/investigate/investigator.go:172-175 | binary search finds the least place not below the cursor |
| `Rotation.TurnsRotate` | pkg/investigate/investigator.go:168-190 | over any number of runs on the same targets the completed turns go round and round from the first cursor without gap or repetition |
| `Rotation.EveryTargetGetsATurn` | pkg/investigate/investigator.go:168-190 | any stretch of as many completed turns as there are targets contains every target |
| `Rotation.NoTargetStarves` | pkg/investigate/investigator.go:168-190 | every target gets a turn within as many runs as there are targets, when each run completes at least one |
| `Investigator.Investigator.Run` | pkg/investigate/investigator.go:147-191 | whatever clock, slice and providers do: the targets are the valid queryable ones, ascending; the turns completed are consecutive from the old cursor, each target at most once, each starts and calls exactly as it must, and left no running episode; the cursor is the first target after them; turns are missing only when the slice is over |
| `Investigator.Investigator.CallRateHolds` | pkg/investigate/investigator.go:368-528 | the call rate bound holds between any two runs |
| `Release.Order` | pkg/release/order.go:12-64 | the loops compute the functional form of the algorithm, and the result holds references of the release |
| `Release.RefForIsLast` | pkg/release/order.go:14-17 | of references that share a name the last one stands for it |
| `ReleaseOrder.StepStands` | pkg/release/order.go:47-57 | on any list of names: finished and queued are always all roots as often as listed, then exactly the components whose dependencies have all been counted down, each once |
| `ReleaseOrder.OrderIsExact` | pkg/release/order.go:12-64 | for distinct names an order exists if and only if the dependencies within the release have no cycle, and then it is a permutation with dependencies first |
| `ReleaseOrder.AcceptedExactly` | pkg/release/order.go:12-64 | on any list of names an order is given if and only if every component with a dependency in the release is listed once and no set of components waits for itself beyond what the surplus copies of repeated roots count down |
| `ReleaseOrder.AcyclicAccepted` | pkg/release/order.go:12-64 | without a cycle an order is given if and only if no component with a dependency in the release is listed twice |
| `ReleaseOrder.VerdictExactly` | pkg/release/order.go:12-64 | exactly when the verdict on cycles is right, for any list of names |
| `ReleaseOrder.AcceptedIsPermutation` | pkg/release/order.go:12-64 | an order given lists every component as often as the release does |
| `ReleaseOrder.FirstWithoutSurplus` | pkg/release/order.go:12-64 | on any list of names dependencies come first wherever the surplus of the repeated roots that a component needs stays below the times it needs any component that is no root |
| `ReleaseOrder.OrderWithoutSurplus` | pkg/release/order.go:12-64 | where nobody needs a repeated root an order is given if and only if there is no cycle and no component with a dependency is listed twice, and dependencies come first |
| `RepeatedNames.PromiseExactly` | pkg/release/order.go:12-64 | a list of names keeps the whole promise (order if and only if no cycle, dependencies first) for all declarations if and only if its names are distinct or all the same |
| `RepeatedNames.NeedIsSafeExactly` | pkg/release/order.go:12-64 | a component comes after one that it needs, whatever the others declare, if and only if the surplus copies of all it needs are fewer than the times it needs that one |
| `RepeatedNames.CycleIsNeverFirst` | pkg/release/order.go:12-64 | a release with a cycle that is given an order is given one that puts some dependency too late |
| `RepeatedNames.RepeatedNameIsRefused` | pkg/release/order.go:20-61 | [b, a, a], a needs b: refused as cyclic without any cycle |
| `RepeatedNames.RepeatedRootHidesCycle` | pkg/release/order.go:20-61 | [r, r, n, s], n needs r and s, s needs n: accepted with its cycle |
| `RepeatedNames.ListingDecides` | pkg/release/order.go:20-61 | n needs r and s, s needs t: [r, r, t, s, n] is ordered with n before s, the same components listed [t, r, r, s, n] with s before n |
| `Affected.AffectedComponents` | pkg/release/diff.go:15-58 | of the ordered components exactly those that rest, directly or not, on a changed one, in that order |
| `Affected.KeepMeaning` | pkg/release/diff.go:52-58 | what is kept of a list is every occurrence of a member, in the list's order |

## Left out

- Kubernetes controllers, clients and generated types, subprocess adapters, files, HTTP readers, text rendering and statistics: input, output and plumbing.
- `Detail` texts, evidence references and the display sort orders of results: they carry no decision; results are keyed by name or kept as sets.
- SHA-256, JSON and HMAC: digests are injective constructors, and which decisions verify is an input of each step.
- Validation.Validate: which defects are listed is not stated, only that none is listed exactly for a well-formed contract.
- Resolution.ResolveTarget: which structural reasons are listed is not stated, only when there is none.
- Evaluator.Evaluate: reasons are sets, as normalization leaves them; the reason attached to an inapplicable slot is its worst mismatch, without its text.
- Actors.Actor.Submit: forged or contradictory providers are not modelled, and a job moves only from pending to succeeded or failed; losing a handoff or a receipt belongs to the network.
- Journal.MemJournal.Put: a failed write is assumed to have stored nothing; a write that stores and then reports failure is not modelled.
- Engine.Engine.Step: views, wake times and counters are not computed, keys are visited in any order instead of sorted, the registry is fixed for the engine's life, and other engines act between steps, not inside one (inside one they do in the transition system).
- Engine.Engine.Advance: a provider error counts as no answer.
- Proposals.Derive: proposals are keyed by ID instead of listed in order; of exact duplicates the first declaration, not the one with the least digest, is the canonical one (they differ only in trigger states and in the order of lists).
- Profile parsing and validation beyond the bounds that budgets, durations and approvers have (`Profiles.ResponseOk`).
- Interaction.Declared: the order of the displayed responses, and the cut of the displayed list after the boundary is decided; names of actions are structured references.
- History.Finish: only the part of a summary that the history depends on; the fingerprint itself is an input.
- History.ProjectionIsIdempotent: about that part only; that the whole display is recomputed alike from its own output is not stated.
- `actionsOf`, `confirmed`, `missing` and the cause-candidate display of the projection: one-pass filters that would add only easy members.
- Candidates.DeriveCandidates: the list is a set; what an episode stores and traces of it (`updateCandidates`) is display and steers nothing.
- Candidates.FindStatus: subjects of reasons are structured, so the prefix test `subject + "->"` becomes equality of the structured subject; names that themselves contain `->` are not modelled.
- Candidates.BoundCandidates: ties that the source breaks by candidate ID are left open.
- Investigator.Investigator.Run: no target starves as long as the valid queryable targets stay the same; how long a turn takes to come round while targets come and go is not stated.
- `NextWake`, `Current` and the trace: they read only.
- ReleaseOrder.FirstWithoutSurplus: for one given release with repeated names only this direction is stated. `RepeatedNames.ListingDecides` shows two listings of the same components of which one puts dependencies first, so no condition on what is listed how often and needed by whom is exact for a single release; over all declarations `RepeatedNames.PromiseExactly` and `RepeatedNames.NeedIsSafeExactly` are.
- Version compatibility checks of a release and its planning.
