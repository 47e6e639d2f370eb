# Verified models of the task board, the Codex delegation records and the Router's trust state

This project models five parts of the system and proves what they keep over every input and every run:

- **Task board** (`BoardCascade*`, `RankOrder`, `BoardRank`, `BoardPlacement`, `BoardStructure`): the cascade that
  pushes finished state down and settles or reopens parents under a step ceiling; fractional base-62 ranks with
  their rebalance; subtree listing and subtree pruning on trees that may contain parent cycles.
- **Codex agent records** (`Agent*`): the persisted record, its schema rules, and every transition of begin, accept,
  refuse, reject, interrupt, event and reconcile, over one owner's catalog. `AgentInvariant` to `AgentRuns` prove what
  any sequence of steps keeps; `AgentSchema*` and `AgentParses` prove exactly when the schema turns a transition down;
  `AgentDecisions` and `AgentAnswers` give every decision and answer case by case, with what it leaves on record;
  `AgentOutcomes` traces recorded outcomes and commentary to the events that carried them;
  `AgentFences` and `AgentReceipts` prove that events and receipts take effect once; `AgentDurability` keeps the
  installed catalog beside the last confirmed one and proves what an answer to the daemon rests on; `AgentWitnesses`
  holds concrete records at which the exceptions occur.
- **Codex relay** (`RelayBook`, `CodexRelay`): per-stream acknowledgement, held events, deferred frames and the
  re-entrant drain, for any behaviour of the service and the transport. A ghost book records what really happened, and
  the relay's fields are proved against it. `RelayedCatalog` puts the catalog in the service's place and proves what an
  acknowledged event has done to the records.
- **Link edges and rendezvous** (`LinkEdges`, `RendezvousTable`, `TrustRendezvous`): the compacted add/revoke log
  against its full history, and the commit-reveal table with its index by target.
- **Secret store** (`SecretStore`): read, decide, conditional write, with arbitrary outside writers in between.

Parts whose source updates fields in place are classes (`TaskBoard`, `Pruner`, `Relay`, `Coordinator`, `SharedFile`,
`FileSecretStore`, `CodexAgentService`); each method is proved against a pure function or a ghost history, and the
laws are lemmas about that function or invariants over that history. Time, randomness, storage outcomes, transport
outcomes, signature checks and the service's verdicts are parameters or nondeterministic answers.

Where code and expectation part, the code is modelled as it is, with a concrete input and the exact condition:

- The cascade's step ceiling (documented as a guard against cycles) also stops acyclic cascades: with three live seeds
  on a long chain (`ThreeLiveSeedsCanHitCeiling`), or when ids no longer on the board use up the steps
  (`CeilingCanStarveAWrite`). It is enough for every acyclic cascade from k seeds exactly when k is at most two
  (`CeilingSufficesIff`).
- A minted rank lies below its upper neighbour exactly when that neighbour is not the lower one padded with "0"s; in
  such a gap no rank exists at all (`MidLiesBetween`, `NothingInAPaddedGap`).
- A rebalance succeeds exactly up to 62^64 - 1 siblings, and placing one more exactly below that.
- A steer accepted into a running turn is refused by the schema unless the turn was last updated at the very timestamp
  of the acceptance: such receipts stay unresolved (`AcceptanceOk`; `SomeSteersMissTheirTurn`).
- A turn's end cannot be recorded while an acceptance is unverified (`EventFailsIffUnverified`; `SomeTurnEndsFail`).
- A restored message whose acceptance is unverified and that recorded no fence when sent makes every later
  reconciliation fail to parse; its agent never leaves recovery (`StuckForGood`, `SomeRecordsAreStuck`).
- An event takes effect once unless its agent is reconciled back into the event's stream behind it
  (`EventTakesEffectOnce`); then it can take effect twice (`RewoundEventTakesEffectTwice`).
- An answer to the daemon can outrun the disk: an event or refusal whose write was installed but not confirmed is
  retired on its second delivery (`UnconfirmedEventIsRetired`, `UnconfirmedRefusalIsRetired`). Its effect is in the
  confirmed catalog exactly when that write or a later write or probe was confirmed (`EffectIsDurableIff`).
- A held event can lose its deferred frame, to a queued frame of another stream with the same number or to a full
  queue (`LostIff`). A drain reduces a held event again exactly when it still has a deferred frame (`DrainDeferred`), so
  a lost event is acknowledged although nothing decided it or reduced it again: `LostEventIsAcknowledged` is such a
  run, with every request asked and answered and no send failing. Every other acknowledged event was decided or
  reduced again (`AcksAreAnswered`).
- A committed secret mutation was computed from what it replaced, under every interference, exactly when no version was
  cached on entry, or a missing file looks to the mutation like the cached one or is left missing
  (`CommitsAreExactIff`). Otherwise a file deleted and restored around the read is replaced by an update of an empty
  one (`DeletedThenRestored`, `RestoredDomainsAreLost`).
- With reused nonces the compacted link log and the full history part exactly when a statement taken for a repeat would
  have decided (`AnswersPartIff`).
- A per-target rendezvous limit of 0 admits one rendezvous (`LimitOfZeroAdmitsOne`): every run keeps every target
  within its limit exactly when the limit is positive or nothing can be armed at all (`LimitIsKeptIff`).

## Model

| member | source | states |
|---|---|---|
| BoardCascade.Kids | src/shared/board-cascade.ts:106-115 | the live entries naming a parent, each once, and no others |
| BoardCascade.Downward | src/shared/board-cascade.ts:61-76 | a finished entry finishes exactly its unfinished live children, each once; an unfinished one finishes none |
| BoardCascadeEngine.TaskBoard.LiveChildren | src/shared/board-cascade.ts:106-115 | the grouping maps exactly the ids that have live children, each to those children in table order |
| BoardCascadeEngine.TaskBoard.PushDown | src/shared/board-cascade.ts:61-76 | in-place push: new states, stack and change log are those of finishing the unfinished children in order |
| BoardCascadeEngine.TaskBoard.TakeStep | src/shared/board-cascade.ts:40-78 | one iteration of the in-place loop equals one step of the abstract worklist |
| BoardCascadeEngine.TaskBoard.ApplyCascade | src/shared/board-cascade.ts:25-80 | the whole in-place loop, with its ceiling, leaves the states and returns the change log of `Cascade` |
| BoardCascadeClosure.RunCovers | src/shared/board-cascade.ts:40-80 | worklist invariant: every finished entry over an unfinished live child, and every parent left behind by its children, still has a step pending |
| BoardCascadeClosure.DrainedCascadeCloses | src/shared/board-cascade.ts:40-104 | when the worklist drains, on any board even with parent cycles, no live finished entry has a live unfinished child, provided each such pair beforehand involved a written id or an orphaned parent; and an unfinished parent over finished children was so before and untouched by any seed |
| BoardCascadeBounds.StepsArePaidFor | src/shared/board-cascade.ts:37-80 | steps taken plus pending weight never exceed the starting weight plus two per change |
| BoardCascadeBounds.OneSeedOnce | src/shared/board-cascade.ts:25-80 | on an acyclic board a one-seed cascade changes no entry twice |
| BoardCascadeBounds.OneSeedDrains | src/shared/board-cascade.ts:25-80 | on an acyclic board a one-seed cascade drains within 2n + 2 steps |
| BoardCascadeSequence.RunOver | src/shared/board-cascade.ts:40-44 | last-in-first-out: older pending steps are untouched until everything above them is done |
| BoardCascadeSequence.SeedsRunInTurn | src/shared/board-cascade.ts:25-80 | on an acyclic board a drained seed list equals one-seed cascades run in turn, last popped first, and 2n + 2 steps per seed suffice |
| BoardCascadeSequence.TwoSeedsNeverHitCeiling | src/shared/board-cascade.ts:37-40 | with at most two seeds the ceiling 4n + 16 never stops an acyclic cascade |
| BoardCascadeSequence.AbsentIdsStarveWrites | src/shared/board-cascade.ts:37-44 | ids not on the board that are popped first can use up the whole ceiling and leave every state as it was |
| BoardCascadeSequence.CeilingCanStarveAWrite | src/shared/board-cascade.ts:37-44 | a concrete acyclic two-entry board where 24 absent ids leave a finished parent over an unfinished written child |
| BoardCascadeOrder.OrphansGoFirst | src/shared/board-cascade.ts:25-80 | on an acyclic board a drained cascade has the states and log of one cascade per orphaned parent, each deriving it, from the last to the first, and then one per written entry, from the last to the first |
| BoardCascadeOrder.OneOfEach | src/shared/board-cascade.ts:33-41 | one written and one orphaned id, on every acyclic board: the orphaned parent's one-seed cascade, then the written entry's, states and log |
| BoardCascadeOrder.OrphanedParentReopensFirst | src/shared/board-cascade.ts:33-60 | on any board and whatever else is written or orphaned: a finished live entry over an unfinished live child, orphaned last, is reopened before anything else happens |
| BoardCascadeOrder.OrphanOnlyReopens | src/shared/board-cascade.ts:46-60 | the cascade of an orphaned parent over an unfinished live child only reopens entries; no unfinished entry changes |
| BoardCascadeOrder.TrashingReopensTheParent | src/shared/board-cascade.ts:33-60 | a root marked done in the write that trashes one child, while another is unfinished, ends up open, with one change logged and the other child as it was |
| BoardCascadeOrder.PushedInTableOrder | src/shared/board-cascade.ts:61-78 | children are finished in table order: so run the new log lines and so lie the new work items, all below the one for the parent |
| BoardCascadeCeiling.BranchTurns | src/shared/board-cascade.ts:46-60 | a branch of n entries that is about to reopen, or to finish, turns as a whole in exactly 2n steps |
| BoardCascadeCeiling.CutShort | src/shared/board-cascade.ts:40-60 | a reopening branch stopped before its root leaves an unfinished entry under a finished one |
| BoardCascadeCeiling.ThreeLiveSeedsCanHitCeiling | src/shared/board-cascade.ts:37-80 | for every chain length of at least 14 an acyclic board and three live written entries whose cascade is cut by the ceiling with a broken pair left |
| BoardCascadeCeiling.CeilingSufficesIff | src/shared/board-cascade.ts:37-40 | for every k: the ceiling is enough for all acyclic boards, states and seed lists of k seeds iff k is at most 2 |
| BoardCascadeLog.DeriveIsJustified | src/shared/board-cascade.ts:82-104 | a derived state follows the settling rules: Done iff some child is done, Cancelled iff all are, Open iff a finished parent has an unfinished child |
| BoardCascadeLog.CascadeIsAccounted | src/shared/board-cascade.ts:46-76 | on every board, drained or not, replaying the returned changes over the old states gives the new ones, each change is justified by the rule it names against the states right before it, and trashed entries never change |
| BoardStructure.PrunableUnfolds | src/shared/board-structure.ts:70-98 | an entry is prunable iff live, eligible and all its live children are prunable |
| BoardStructure.PrunableIsLeast | src/shared/board-structure.ts:70-98 | the prunable set is inside every set closed under that rule, so cycles are not prunable |
| BoardStructure.Pruner.CanPrune | src/shared/board-structure.ts:82-92 | the memoised depth-first walk with its visiting set answers correctly at the top level despite cutting cycles short, and its memo stays right |
| BoardStructure.Pruner.PrunableSubtrees | src/shared/board-structure.ts:70-98 | the returned set is exactly the least prunable set, parent cycles included |
| BoardStructure.SurvivorsKeepTheirParents | src/shared/board-structure.ts:39-47 | no surviving live entry has a pruned parent |
| BoardStructure.SubtreeIds | src/shared/board-structure.ts:49-68 | the walk terminates on cycles and lists exactly the reachable ids, each once and after its parent, breadth first: entries stand in the order of their parents, children of one parent in table order |
| RankOrder.NumeralOrder | src/shared/board-rank.ts:54-60 | fixed-width base-62 numerals are ordered as strings as their values are |
| RankOrder.StripKeepsOrder | src/shared/board-rank.ts:60-60 | stripping trailing zeros keeps the strict order of equal-length numerals |
| BoardRank.MidLiesBetween | src/shared/board-rank.ts:90-103 | the midpoint is above its lower end, in the alphabet, without trailing "0", at most one longer than the longer end, and below its upper end iff that is not the lower end padded with "0"s |
| BoardRank.NothingInAPaddedGap | src/shared/board-rank.ts:18-36 | between a string and its zero-padded extension there is no rank without trailing "0" |
| BoardRank.MidIsShortest | src/shared/board-rank.ts:90-103 | no rank without trailing "0" strictly between the two ends is shorter than the midpoint |
| BoardRank.MidIsCentral | src/shared/board-rank.ts:93-99 | where the ends first differ by more than one digit, the midpoint shares the prefix and ends in the digit halfway between theirs, the higher of two |
| BoardRank.Midpoint | src/shared/board-rank.ts:90-103 | the prefix scan and recursion terminate and compute the digit-by-digit midpoint |
| BoardRank.RankBetween | src/shared/board-rank.ts:32-36 | throws iff the ends are not in order; otherwise strictly above the lower end, and strictly below every upper end without trailing "0", at most one character longer than the longer end |
| BoardRank.SlotsAreSpread | src/shared/board-rank.ts:52-54 | slots are at least one apart, the first is not zero and the last fits the slot space |
| BoardRank.SlotsAreEven | src/shared/board-rank.ts:52-54 | each slot is the last at or below its even share, so gaps between neighbouring slots differ by at most one |
| BoardRank.FreshRanksIncrease | src/shared/board-rank.ts:52-60 | consecutive fresh ranks strictly increase as strings |
| BoardRank.FreshRankFits | src/shared/board-rank.ts:42-60 | fresh ranks stay within the length bound as long as count + 1 is at most 62^bound, also in the boundary case that needs one digit more before stripping |
| BoardRank.TooManySiblings | src/shared/board-rank.ts:42-65 | beyond that the very first fresh rank is too long |
| BoardPlacement.RebalanceRanks | src/shared/board-rank.ts:40-68 | returns exactly `count` valid strictly increasing ranks, and throws iff count + 1 exceeds 62^64 |
| BoardPlacement.MintSlot | src/shared/board-rank.ts:54-60 | the digit loop writes the fixed-width numeral of the slot |
| BoardPlacement.PlaceAtEnd | src/shared/board-rank.ts:73-86 | the new rank is valid and above every sibling; a rebalance happens iff the minted rank is too long, rewrites every sibling in its old order with valid increasing ranks below the new one, and succeeds iff one more sibling than there are stays below 62^64 |
| BoardPlacement.RebalanceKeepsOrder | src/shared/board-rank.ts:81-85 | two siblings compare by their new ranks exactly as they sorted before, ties in list order |
| BoardPlacement.AppendedRank | src/shared/board-rank.ts:73-103 | the k-th append to an empty group is k/5 times "z" followed by one of five digits |
| BoardPlacement.AppendsFitUntil320 | src/shared/board-rank.ts:73-103 | the k-th append has length k/5 rounded up: 320 appends need no rebalance and the 321st does |
| AgentRecord.TurnHistoryIssues | src/shared/agent-record.ts:318-344 | reports exactly the issues whose rule is broken, so none iff turn ids are unique, a turn is in progress iff it is the active one, working means active, idle means none, and all timestamps are within the lifetime |
| AgentRecord.ActiveTurnRulesMeaning | src/shared/agent-record.ts:322-333 | counting matching turns, as the check does, means that the active turn is exactly the one in progress |
| AgentRecord.AppendKeepsActivitiesOk | src/shared/agent-record.ts:203-251 | appending keeps the activity window well formed, and refuses an item iff it is already held |
| AgentRecord.AppendCounts | src/shared/agent-record.ts:230-251 | the retained opening never changes, and each item taken in is retained or counted as omitted |
| AgentAcceptance.AcceptMeans | src/gateway/codexAgentReducers.ts:76-160 | an accept verdict comes in three cases only: a new turn with none running, a settled turn of an idle agent, or the running turn |
| AgentAcceptance.AcceptanceOk | src/gateway/codexAgentService.ts:340-380 | an accepted receipt builds a record that keeps the whole invariant and undoes nothing, except a steer into a running turn last updated earlier, which the history rules refuse |
| AgentDecisions.RequestedReceipts | src/gateway/codexAgentReducers.ts:76-160 | the fate of a receipt for a requested prompt, each case iff: accepted into the ended turn it was meant for; accepted otherwise; unresolved because it came the expected way but not ahead of the fence; refused in all other cases |
| AgentDecisions.SettledReceipts | src/gateway/codexAgentReducers.ts:84-108 | the fate of a receipt for a settled delivery, each case iff: unplaceable while unverified, replayed when it says what is on record, a conflict when it does not, refused when the delivery was given up |
| AgentDecisions.StartIsRecorded | src/gateway/codexAgentService.ts:114-162 | a committed start adds one agent with the prompt, fingerprint, target and time of the intent; every other agent is as it was |
| AgentDecisions.MessageIsRecorded | src/gateway/codexAgentService.ts:164-222 | a committed message adds one requested prompt with the words and fingerprint of the intent, sent from where the agent stands; nothing else moves |
| AgentDecisions.StopIsRecorded | src/gateway/codexAgentService.ts:224-279 | a committed stop adds one operation: an accepted no-op for an idle agent, else a pending interrupt of the active turn; nothing else moves |
| AgentDecisions.RecordedIsRecognised | src/shared/agent-record.ts:277-314 | a call under an id on record changes nothing and throws iff the fingerprint differs, is replayed iff accepted, verified and durable, and is indeterminate otherwise |
| AgentDecisions.CommittedCallIsRecognised | src/shared/agent-record.ts:292-314 | in any run, after a committed call the same request under its id is recognised and a different one is turned down, and neither changes anything |
| AgentTransitions.WithMessageOk | src/gateway/codexAgentService.ts:164-222 | a message keeps the record invariant and drops or rewrites nothing |
| AgentTransitions.WithStopOk | src/gateway/codexAgentService.ts:224-279 | a stop keeps the record invariant; its interrupt is for the active turn |
| AgentTransitions.WithRefusalOk | src/gateway/codexAgentService.ts:386-426 | a refusal settles operation and exchange together and keeps the invariant |
| AgentTransitions.WithRejectionOk | src/gateway/codexAgentApply.ts:86-131 | a rejection settles a prompt with its exchange, or a stop alone, and keeps the invariant |
| AgentTransitions.WithInterruptOutcomeOk | src/gateway/codexAgentApply.ts:133-172 | an interrupt outcome changes a stop only and keeps the invariant |
| AgentTransitions.WithActivityOk | src/gateway/codexAgentReducers.ts:162-179 | an activity keeps the invariant, windows included |
| AgentTransitions.WithTerminalOk | src/gateway/codexAgentReducers.ts:181-221 | a turn's end keeps the invariant: no active turn, no interrupt, waiting stops accepted; what it records is `TerminalIsRecorded` |
| AgentTransitions.WithReconciliationOk | src/gateway/codexAgentApply.ts:174-205 | a reconciliation keeps the invariant |
| AgentOutcomes.TerminalIsRecorded | src/gateway/codexAgentReducers.ts:181-221 | a terminal event that changes the catalog gives its turn exactly the outcome it carries, keeps the turn's commentary, idles the agent, settles the stops waiting for that turn, and leaves every other turn, exchange, prompt and agent as it was |
| AgentOutcomes.ActivityIsRecorded | src/gateway/codexAgentReducers.ts:162-179 | an activity that changes the catalog is appended word for word while fewer than 32 items are held, else counted as omitted; the turn stays in progress and nothing else but the fence and times moves |
| AgentOutcomes.OutcomeIsTheEvents | src/gateway/codexAgentApply.ts:50-84 | in any run, the outcome of a turn settled during the run is the one carried by a terminal event of the run for that agent and turn |
| AgentOutcomes.CommentaryIsTheEvents | src/gateway/codexAgentApply.ts:50-84 | in any run, each commentary item of a turn was there at the start or was brought word for word by an activity event for that agent and turn |
| AgentOutcomes.ChangesAreStamped | src/gateway/codexAgentService.ts:114-445 | whatever a step changes or adds carries the later of its clock and the record's own time |
| AgentAnswers.EventAnswers | src/gateway/codexAgentApply.ts:50-84 | the answer to every event, case by case: ignored, left with the daemon, failed or applied |
| AgentAnswers.RejectionAnswers | src/gateway/codexAgentApply.ts:86-131 | a rejection of a requested operation gives it up, prompt and exchange together, and takes a prompt's agent out of service; any other is ignored |
| AgentAnswers.InterruptAnswers | src/gateway/codexAgentApply.ts:133-172 | an outcome of the pending interrupt is recorded iff its fence is ahead, left with the daemon if of another stream, ignored otherwise; it moves the stop, the interrupt and the fence only |
| AgentAnswers.ReconciliationAnswers | src/gateway/codexAgentApply.ts:174-205 | a reconciliation is ignored iff its agent, thread or target is unknown or its fence is already reached; otherwise it sets the fence, verifies the unverified acceptances, and leaves the agent idle, working or recovering as the daemon reports |
| AgentAnswers.ReceiptAnswers | src/gateway/codexAgentService.ts:301-426 | the answer to every delivery receipt and what it records: where the prompt went, at which fence, and the turn it opened or joined; or the delivery given up; or nothing |
| AgentAnswers.AbandonAnswers | src/gateway/codexAgentService.ts:430-445 | abandoning changes the catalog iff the delivery is on record and requested and the write is installed, and then gives it up |
| AgentAnswers.LocatesTheOnly | src/gateway/codexAgentPersistence.ts:16-20 | on any catalog an agent is found iff its id is there exactly once |
| AgentRuns.EveryRunIsSound | src/gateway/codexAgentService.ts:114-428 | from any sound catalog every sequence of steps, whatever storage answers, reaches a sound one: no turn history issues, one pending prompt at most, a pending interrupt excludes prompts and is for the active turn, exchange status equals operation state, ids unique across the catalog; nothing recorded is dropped and no settled prompt, exchange or turn changes |
| AgentRuns.AtMostOneClaimant | src/shared/agent-record.ts:292-314 | an operation id has at most one claimant, so the two-claimants branch is unreachable |
| AgentRuns.CommittedAtMostOnce | src/gateway/codexAgentPersistence.ts:31-99 | in any run an operation id is answered `committed`, hence first dispatched, at most once |
| AgentRuns.PromptSettlesOnce | src/gateway/codexAgentApply.ts:63-131 | a prompt that has left the requested state keeps its state for the rest of the run, and its exchange says the same |
| AgentRuns.LaterEvolves | src/gateway/codexAgentService.ts:301-428 | whatever is on record at some point of a run has only evolved by its end; a settled turn keeps outcome and activities |
| AgentRuns.AnswersFollowTheWrite | src/gateway/codexAgentPersistence.ts:61-78 | one call: applied means its own confirmed write holds the effect or the delivery was on record as settled; ignored and failed leave the catalog alone |
| AgentService.ApplyAgent | src/gateway/codexAgentPersistence.ts:61-78 | applied only for one confirmed write; ignored and failed records write nothing; a reconcile answer means the write was not confirmed or nothing changed |
| AgentServiceHost.CodexAgentService.Begin | src/gateway/codexAgentService.ts:114-279 | the stored catalog moves by exactly that step, stays sound, and a committed answer claims an id nobody held |
| AgentServiceHost.CodexAgentService.Apply | src/gateway/codexAgentApply.ts:50-240 | the stored catalog moves by exactly that receipt or event and stays sound; ignored and failed leave it alone |
| AgentServiceHost.CodexAgentService.Abandon | src/gateway/codexAgentService.ts:430-445 | giving up a delivery moves the catalog by exactly that step and keeps it sound |
| AgentSchemaKept.WithMessageMeetsSchema | src/shared/codexAgentRecord.ts:109-206 | a message to an operational agent always meets the schema's cross-field rules |
| AgentSchemaKept.WithStopMeetsSchema | src/shared/codexAgentRecord.ts:198-207 | so does a stop, aimed at the active turn or an accepted no-op |
| AgentSchemaKept.WithRefusalMeetsSchema | src/shared/codexAgentRecord.ts:109-206 | so does a refusal |
| AgentSchemaKept.WithInterruptOutcomeMeetsSchema | src/shared/codexAgentRecord.ts:438-512 | so does an interrupt outcome whose fence advances |
| AgentSchemaKept.WithActivityMeetsSchema | src/shared/codexAgentRecord.ts:438-512 | so does an activity whose fence advances |
| AgentSchemaKept.WithTerminalMeetsSchema | src/shared/codexAgentRecord.ts:329-377 | a turn's end meets the schema iff no acceptance is unverified |
| AgentSchemaKept.WithReconciliationMeetsSchema | src/shared/codexAgentRecord.ts:170-178 | a reconciliation meets the schema iff its fence is of the agent's target, behind no recorded fence of the same daemon and generation, and every unverified message recorded the fence it was sent at |
| AgentSchemaAcceptance.AcceptAgrees | src/gateway/codexAgentReducers.ts:105-160 | an accepted receipt agrees with the agent's place and went where its operation expected |
| AgentSchemaAcceptance.AcceptanceMeetsSchema | src/shared/codexAgentRecord.ts:315-437 | an accepted receipt meets the schema's cross-field rules iff the agent was fenced before or the receipt is fenced by the target it names |
| AgentParses.EveryRunIsGood | src/shared/codexAgentRecord.ts:288-512 | every record of every reachable catalog meets the invariant and the schema's cross-field rules |
| AgentParses.BeginCommitsIffAllowed | src/gateway/codexAgentService.ts:114-279 | with a confirmed write, a begin under a new id commits iff its guards allow it: the schema never turns it down and a working agent always has a turn to stop |
| AgentParses.EventFailsIffUnverified | src/gateway/codexAgentApply.ts:50-84 | an event fails to parse iff it lands, ends its turn, and an acceptance is unverified |
| AgentParses.RejectionNeverFails | src/gateway/codexAgentApply.ts:86-131 | a rejection never fails to parse |
| AgentParses.InterruptNeverFails | src/gateway/codexAgentApply.ts:133-172 | an interrupt outcome never fails to parse |
| AgentParses.ReconciliationFailsIff | src/gateway/codexAgentApply.ts:174-205 | a reconciliation fails to parse iff it reaches its agent, is new, and does not bring what the record needs |
| AgentParses.ReconciledState | src/gateway/codexAgentApply.ts:174-205 | after a stored reconciliation nothing is unverified; idle iff no turn is active, working iff the daemon reports the active turn running; calls are possible again iff not recovering and nothing pends |
| AgentParses.InterruptSettles | src/gateway/codexAgentApply.ts:133-172 | a delivered interrupt is accepted and blocks calls until its turn ends; a failed one is indeterminate and a working agent can be called again |
| AgentParses.ReplayedMeansAccepted | src/shared/agent-record.ts:277-314 | a call is answered as replayed only for the same request, accepted, fenced if a prompt, and durable |
| AgentFences.AcceptanceAdvances | src/shared/agent-fence.ts:46-65 | an accepted receipt always advances the fence of its record |
| AgentFences.FenceStep | src/shared/agent-fence.ts:46-74 | each step keeps or advances an agent's fence within its stream; only a reconciliation of that very agent moves it to another |
| AgentFences.PastEventIsInert | src/gateway/codexAgentApply.ts:50-84 | an event the agent has passed, or of a stream it has left, changes nothing and is not applied |
| AgentFences.EventTakesEffectOnce | src/gateway/codexAgentApply.ts:50-84 | in any run, once an event has changed the catalog it and every earlier event of its stream never change it again, unless this agent is reconciled back into that stream behind the event |
| AgentWitnesses.RewoundEventTakesEffectTwice | src/gateway/codexAgentApply.ts:174-205 | a concrete run with such a reconciliation in which the same event is applied twice |
| AgentWitnesses.SomeTurnEndsFail | src/shared/codexAgentRecord.ts:373-375 | a concrete stored record whose running turn ends and whose next record the schema turns down |
| AgentWitnesses.SomeSteersMissTheirTurn | src/shared/codexAgentRecord.ts:264-271 | a concrete stored record and receipt: accepted, steered into the running turn, refused by the history rules and left unresolved |
| AgentDurability.RetiredIsDurableIff | src/shared/session-store.ts:113-144 | after an applied or ignored answer the catalog is confirmed iff it was before or this call's write or probe confirmed it; otherwise the call wrote nothing and answered from an unconfirmed record |
| AgentDurability.ProbeSettles | src/gateway/codexAgentPersistence.ts:22-29 | a call that asks whether the catalog is durable changes nothing, leaves it durable iff it was or the checkpoint confirms it, and is answered as a replay iff so |
| AgentDurability.EffectIsDurableIff | src/shared/session-store.ts:113-163 | in any run, what a call wrote is in the confirmed catalog iff that write or a later write or probe was confirmed; it then is the installed catalog of a later point, otherwise still the one from before the call |
| AgentDurability.RunIsDurableIff | src/shared/session-store.ts:113-163 | at the end of any run the whole installed catalog is on disk iff every write was confirmed, by itself or by a later write or probe |
| AgentDurability.ConfirmedEventSurvivesRestart | src/gateway/codexAgentPersistence.ts:22-29 | a restart from the confirmed catalog is past every event confirmed so: delivered again it changes nothing |
| AgentDurability.UnconfirmedEventIsRetired | src/gateway/codexAgentApply.ts:59-61 | for every recordable event: installed unconfirmed it is left with the daemon, delivered again it is ignored, and the confirmed catalog would still apply it |
| AgentDurability.UnconfirmedRefusalIsRetired | src/gateway/codexAgentService.ts:386-426 | a refusal has the same gap: its second delivery is answered as applied with nothing confirmed |
| AgentWitnesses.SomeEventsAreLost | src/shared/session-store.ts:127-129 | a concrete catalog and event with that gap |
| AgentReceipts.ReceiptStoredIff | src/gateway/codexAgentService.ts:301-384 | an accepted receipt is committed iff it is not a steer that misses its turn's timestamp and not a first receipt fenced by another target |
| AgentReceipts.ReceiptTakesEffectOnce | src/gateway/codexAgentReducers.ts:84-101 | in any run, a committed receipt delivered again changes nothing and is answered as a replay, or unresolved while not durable |
| AgentReceipts.StuckForGood | src/gateway/codexAgentReducers.ts:65-74 | an unverified message without a recorded send fence stays unverified in every run, and its agent accepts no message or stop |
| AgentReceipts.SomeRecordsAreStuck | src/shared/codexAgentCatalog.ts:146-225 | a concrete record that passes every modelled schema rule and is stuck in that way |
| RelayBook.EvictionIndex | src/gateway/codexRelay.ts:241-245 | the first activity, or the head when there is none |
| RelayBook.Deferred | src/gateway/codexRelay.ts:233-245 | the in-place queue update equals its specification |
| RelayBook.AfterDeferOk | src/gateway/codexRelay.ts:233-245 | a deferral queue stays at most 128 long, free of repeated identities, and holds only its agent's frames |
| RelayBook.DeferredFrameIsQueuedIff | src/gateway/codexRelay.ts:233-245 | a frame set aside is in the queue afterwards iff it was before, or no frame of its type and number was and the queue held fewer than 128 or shed another |
| RelayBook.LostIff | src/gateway/codexRelay.ts:233-245 | an event loses its last frame iff it arrives while a frame of its identity but of another stream is queued, or its frame is the one a full queue sheds and no other carries it |
| RelayBook.DeduplicationIgnoresTheStream | src/gateway/codexRelay.ts:237-237 | in any queue, a frame of another stream with the number of a queued one is dropped and its event lost |
| RelayBook.InEventOrder | src/gateway/codexRelay.ts:259-263 | exactly the same frames, ordered by event id |
| RelayBook.OrderIsStable | src/gateway/codexRelay.ts:259-263 | frames with equal ids keep their queue order |
| RelayBook.Through | src/gateway/codexRelay.ts:219-221 | min(highest decided, lowest held - 1) |
| RelayBook.AllAccounted | src/gateway/codexRelay.ts:215-231 | every received event at or below that point is decided or released |
| RelayBook.AckBalances | src/gateway/codexRelay.ts:215-231 | an acknowledgement covers only decided or released events, strictly exceeds every delivered one of its stream, reaches no further than the highest decided event, and leaves the stream caught up if it was sent |
| RelayBook.AcksAreAnswered | src/gateway/codexRelay.ts:215-264 | every event an acknowledgement covers was decided, or was reduced again after its release, or had lost its deferred frame |
| RelayBook.TracedAck | src/gateway/codexRelay.ts:219-231 | an acknowledgement covers exactly the events its log had received up to its mark, at or past which one had been decided |
| RelayedCatalog.UnplacedIsAskable | src/gateway/codexRelay.ts:52-54 | an event the catalog cannot place always belongs to an agent that can be asked to reconcile, so it is held and never given up on |
| RelayedCatalog.AcknowledgedEvents | src/gateway/codexRelay.ts:165-231 | with the catalog as the service: every acknowledged event of an owner was applied, is then on disk at once and inert ever after in memory and after a restart, unless its agent is taken back behind it; or was ignored; or was reduced again after its release and left for another repair; or had lost its frame |
| RelayedCatalog.DrainedTogetherAreApplied | src/gateway/codexRelay.ts:247-264 | deferred events, any number, that would each land when a drain begins are all applied by it, given confirmed writes, a turn's end numbered last and no item twice: none is taken for a repeat |
| RelayedCatalog.OutOfOrderIsLost | src/gateway/codexRelay.ts:259-263 | delivered the other way round the higher is applied and the lower changes nothing any more: the order of the replay is what keeps it |
| CodexRelay.Relay.HandleFrame | src/gateway/codexRelay.ts:142-152 | every host message keeps all relay invariants: each received event is decided, released by an applied reconciliation, or held; every held event has its frame queued or lost; every acknowledged event was decided, reduced again after its release, or lost; acknowledgements increase per stream; with successful sends no stream lags |
| CodexRelay.Relay.ReduceReceiptAs | src/gateway/codexRelay.ts:154-163 | an applied answer to an outstanding reconciliation releases what is held for its agent and reduces again exactly the events with a deferred frame, each lower number before any higher one; any other receipt is one step that releases nothing; any answer clears the guard |
| CodexRelay.Relay.Settle | src/gateway/codexRelay.ts:169-186 | a frame the service failed on, or could not place for an agent that can be asked, is deferred and its event held; any other decides its event; the events that lose their frame are exactly those of the deferral |
| CodexRelay.Relay.Advance | src/gateway/codexRelay.ts:188-213 | holding or deciding one event keeps the books balanced and the log in agreement |
| CodexRelay.Relay.Acknowledge | src/gateway/codexRelay.ts:215-231 | brings a stream up to date and moves the watermark only when the send succeeded, so every watermark is that of a delivered acknowledgement |
| CodexRelay.Relay.DrainDeferred | src/gateway/codexRelay.ts:247-264 | the re-entrant drain terminates for any service, releases everything held for the agent, reduces every deferred frame again and nothing else, lower numbers first (of two queued frames the first log entry of the lower comes before the first of the higher, nested drains included), so an event held on entry is reduced again iff it had a deferred frame; what is held afterwards came in since; it touches no other agent's queue and keeps every invariant |
| CodexRelay.Relay.ReleaseAll | src/gateway/codexRelay.ts:251-257 | afterwards nothing is held for the agent in any stream |
| CodexRelay.Relay.RequestReconciliation | src/gateway/codexRelay.ts:272-289 | asks iff askable and no request was made within the last 300000 ms; an unsent request leaves no guard |
| CodexRelay.Relay.OnHello | src/gateway/codexRelay.ts:125-140 | outstanding guards are dropped, and exactly the askable agents that are stale or have held frames are asked |
| CodexRelay.LostEventIsAcknowledged | src/gateway/codexRelay.ts:154-264 | a run of the relay, for every agent and any two streams, with the reconciliation asked for and answered and every send arriving, in which a delivered acknowledgement covers an event never decided nor reduced again |
| LinkEdges.ReplayRepresents | src/federation-server/enrollmentCoordinator.ts:130-177 | the log holds exactly the admissible revocations, and exactly the admissible edges no such revocation covers |
| LinkEdges.RevocationTakesEffect | src/federation-server/enrollmentCoordinator.ts:154-177 | on any log, repeated nonces included, an admissible revocation drops exactly the edges of its pair issued no later than it |
| LinkEdges.CompactionAgrees | src/federation-server/enrollmentCoordinator.ts:130-206 | after any submissions the compacted log answers as the full history: linked iff some admissible edge is newer than every admissible revocation of the pair |
| LinkEdges.SubmissionsConverge | src/federation-server/enrollmentCoordinator.ts:130-206 | order and resubmission do not matter |
| LinkEdges.ReusedNonceDiverges | src/federation-server/enrollmentCoordinator.ts:135-138 | with one nonce on two edges the second is lost, so the uniqueness condition is needed |
| LinkEdges.AnswersPartIff | src/federation-server/enrollmentCoordinator.ts:130-206 | for any history, reused nonces included: the answers differ iff, the log saying linked, a dropped revocation is no older than any admissible edge of the pair, or, the log saying not linked, a dropped edge is newer than every admissible revocation of it |
| LinkEdges.Coordinator.AddLinkEdge | src/federation-server/enrollmentCoordinator.ts:130-152 | refuses iff unrooted, unsigned or foreign; otherwise the state is the replay of the extended history |
| LinkEdges.Coordinator.RemoveLinkEdge | src/federation-server/enrollmentCoordinator.ts:154-177 | the same for revocations |
| LinkEdges.Coordinator.HasLinkEdge | src/federation-server/enrollmentCoordinator.ts:191-206 | the loops answer as the compacted state, and as the full history when nonces are unique |
| SecretStore.SharedFile.WriteIf | src/federation-server/fileSecretStore.ts:44-50 | writes iff the content still has the named version; the file is the fold of our writes and outside ones |
| SecretStore.FileSecretStore.TryOnce | src/federation-server/fileSecretStore.ts:175-208 | one attempt on what it really met: kept, written over the version it named, or lost with nothing changed |
| SecretStore.CommitsAreExactIff | src/federation-server/fileSecretStore.ts:172-213 | over every interference at every attempt, each write that goes through was computed from the content it replaced iff no version was cached on entry, or the cached file shows the mutation the same as no file, or a missing file is left missing |
| SecretStore.WritesReplaceWhatWasReadIff | src/federation-server/fileSecretStore.ts:175-204 | the content replaced is always the content read iff no version was cached or a missing file is left missing |
| SecretStore.DeletedThenRestored | src/federation-server/fileSecretStore.ts:175-178 | for every cached version and mutation that commits on an empty file: deleted before the read and restored before the write, the file is replaced by an update of an empty one |
| SecretStore.RestoredDomainsAreLost | src/federation-server/fileSecretStore.ts:228-241 | in that run a mutation of one domain loses every other domain of the restored file |
| SecretStore.FileSecretStore.Init | src/federation-server/fileSecretStore.ts:69-87 | the cache becomes the file, or a new file is created under the new identity; if someone creates it in between, the call fails, the file is left alone and the new identity stays cached |
| SecretStore.FileSecretStore.RunCas | src/federation-server/fileSecretStore.ts:172-213 | the outcome is that of the first attempt not lost, over what the call really met in the file: at most one write takes effect and the cache equals the file; no write wanted means the cache becomes what was read; every earlier attempt was lost; a conflict takes five lost attempts, changes nothing and, with no version cached, took an outside write in each; undisturbed it conflicts iff the file is missing while a version is cached and the mutation commits |
| SecretStore.DomainMutationIsLocal | src/federation-server/fileSecretStore.ts:228-241 | mutating one domain leaves every other domain, the nonces and the identity alone; what it does to its own is `MutateDomain` |
| SecretStore.DomainCall | src/federation-server/fileSecretStore.ts:228-241 | over every interference, a domain mutation was shown exactly the slice of a content read, or None, and what its call writes has that domain set to the next slice or absent as decided, everything else as read; nothing is written when it keeps |
| SecretStore.FileSecretStore.MutateDomain | src/federation-server/fileSecretStore.ts:228-241 | after a domain mutation the file, read back, is the content read with that domain set, deleted or kept as the mutation decided on its slice; on a conflict nothing changed |
| RendezvousTable.CommitKeepsLife | src/federation-server/trustRendezvousCoordinator.ts:118-131 | a first commitment is stored as sent, a stored one never changes, the peer's slot is untouched, no reveal is shown; granted iff the side then holds this commitment, and answered with the peer's; dropped iff a new try exceeds the attempts |
| RendezvousTable.RevealKeepsLife | src/federation-server/trustRendezvousCoordinator.ts:133-140 | the first reveal of a committed side is stored as sent and a later one is not; the peer's slot is untouched; granted iff the side had committed, and then the reply carries exactly the peer's stored reveal |
| RendezvousTable.StoredRevealWasSent | src/federation-server/trustRendezvousCoordinator.ts:133-140 | in every run from the empty table, a stored reveal is the secret of one earlier reveal call for that id and side: the first after that side committed in the present life |
| RendezvousTable.HandedRevealWasSent | src/federation-server/trustRendezvousCoordinator.ts:133-140 | in every run, a reveal handed out is the one the peer's side sent, in that sense |
| RendezvousTable.StoredCommitmentWasSent | src/federation-server/trustRendezvousCoordinator.ts:78-131 | in every run, a stored commitment is the first one that side's owner sent in the present life |
| RendezvousTable.HandedCommitmentWasSent | src/federation-server/trustRendezvousCoordinator.ts:118-131 | in every run, a commitment handed out is the one the peer's owner sent |
| RendezvousTable.ArmedAsAsked | src/federation-server/trustRendezvousCoordinator.ts:78-107 | a newly armed rendezvous has the owners, commitment and clock of its call, and nothing else in the table moves |
| RendezvousTable.ArmsIff | src/federation-server/trustRendezvousCoordinator.ts:84-107 | an unknown id is armed iff the table and its target have room and an attempt is allowed |
| RendezvousTable.StepElsewhere | src/federation-server/trustRendezvousCoordinator.ts:45-58 | any other id is there afterwards, unchanged, iff it was and is younger than the time to live |
| RendezvousTable.StepDropsIff | src/federation-server/trustRendezvousCoordinator.ts:118-131 | a young entry goes iff it is cancelled or an attempt exceeds the limit; only attempts that are not repeats by the right owner count |
| RendezvousTable.StepOkIff | src/federation-server/trustRendezvousCoordinator.ts:45-140 | a call is granted iff it cancels or the table then holds what it brought |
| RendezvousTable.StepBounded | src/federation-server/trustRendezvousCoordinator.ts:45-131 | every frame keeps the global and attempt bounds, and each target's count at most its limit, or 1 when that is 0 |
| RendezvousTable.LimitOfZeroAdmitsOne | src/federation-server/trustRendezvousCoordinator.ts:86-92 | a concrete call that arms a rendezvous under a per-target limit of 0 |
| RendezvousTable.LimitIsKeptIff | src/federation-server/trustRendezvousCoordinator.ts:78-107 | every run from the empty table keeps every target within its limit iff the limit is positive, or no rendezvous or no attempt is allowed |
| RendezvousTable.StepAges | src/federation-server/trustRendezvousCoordinator.ts:173-178 | after a frame every entry survived the sweep with its age unchanged, younger than the time to live, or was armed by this very frame at its clock |
| RendezvousTable.StepYoungIff | src/federation-server/trustRendezvousCoordinator.ts:78-107 | after a frame everything is younger than the time to live iff the frame armed nothing at a time already too old |
| RendezvousTable.StepEarnsReveal | src/federation-server/trustRendezvousCoordinator.ts:133-140 | a reply carries the peer's reveal only when the caller's side had committed and its own reveal is stored |
| RendezvousTable.RunBounded | src/federation-server/trustRendezvousCoordinator.ts:45-131 | the bounds hold in every run |
| RendezvousTable.LifeIsImmutable | src/federation-server/trustRendezvousCoordinator.ts:109-140 | over the life of a rendezvous, in any run, no stored commitment or reveal changes |
| TrustRendezvous.Coordinator.Handle | src/federation-server/trustRendezvousCoordinator.ts:45-58 | one frame on the indexed table does exactly what the plain table would; the index holds exactly the live ids of each target, with no empty sets |
| TrustRendezvous.Coordinator.CommitSide | src/federation-server/trustRendezvousCoordinator.ts:118-131 | the in-place commit equals its specification and keeps the index exact, also when it drops the entry |
| TrustRendezvous.Coordinator.Sweep | src/federation-server/trustRendezvousCoordinator.ts:173-178 | deleting while iterating drops exactly the expired entries and keeps the index exact |
| TrustRendezvous.Coordinator.Pending | src/federation-server/trustRendezvousCoordinator.ts:60-72 | reading the index finds exactly what a scan of the table finds |

## Left out

- Field formats (id alphabets, byte limits, non-empty strings), fingerprint recomputation, `exchangeId`, `expectedTurnId` (equal to the pre-dispatch turn by another rule), models and service tiers: one answer per call, `formatsOk`, stands for what the schema says about them.
- `restoreAgentCatalog` and the migration of old records: a restored catalog is any one that satisfies the invariant and the modelled schema rules.
- Catalog storage (`session-store`): a write or checkpoint is confirmed, installed but unconfirmed, failed, or finds no owner; which one happens is arbitrary. A restart is represented by the last confirmed catalog; what an unconfirmed file holds after a crash is not modelled.
- The `refusals` map, listeners, timers, promises and the per-agent serialisation of the relay: each host message is one atomic step.
- The relay's string-encoded stream and agent keys: they are records here, so ids containing the separator are not covered.
- The service's verdict on a frame is arbitrary in the relay model; `RelayedCatalog` ties it to the catalog for event frames, and leaves receipts' verdicts arbitrary.
- BoardPlacement.PlaceAtEnd: requires sibling ranks over the 62-digit alphabet, which the wire schema guarantees; the sort is modelled as the stable sort the language specifies.
- BoardPlacement.RebalanceRanks: slot arithmetic is over unbounded integers; the source uses floating point, exact only up to 2^53.
- BoardRank.RankBetween: requires both ends over the 62-digit alphabet, as every stored rank is.
- `promoteOrphans`, `orphanedParents`, board ids and size limits: easy folds beside the cascade.
- Hashes are injective (a file version is its content) and signature checks are arbitrary predicates.
- `dropLinkEdge`, `redeemEnrollOwner`, `linkEdgeId`, `saveDomain`: unsigned or overwriting paths outside the stated laws.
- SecretStore.FileSecretStore.RunCas: read errors other than a missing file, and the queue of pending writes, are not modelled.
- The rendezvous is found by id where the source searches by object reference when dropping; the two agree because an object is stored under one id.
- The error text of a failed turn is sanitised before it is stored; an event's outcome here carries the sanitised text.
- The Copilot relay and record are smaller variants of the same machines.
