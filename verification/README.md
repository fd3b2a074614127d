# Newsroom authority, projection and campaign verification

A Dafny model of the parts of the newsroom where order, concurrency and crashes matter, with proofs
about every input, every run or every reachable state. `dafny verify dfyconfig.toml` checks all of it.

| part | files | what is modelled |
|---|---|---|
| Check authority store | `CheckModel`, `CheckHistory`, `CheckEvidence`, `CheckCommit`, `CheckIntegrity`, `CheckRuns`, `CheckFrame`, `CheckLookup`, `CheckStateMachine`, `CheckMeaning`, `CheckValidators`, `CheckAuthority`, `CheckExample` | append-only tables ordered by a ledger; commit guards, read-back, open-time validators and the admission lookup |
| Complete projection | `ProjectionLifecycle`, `ProjectionRecords`, `ProjectionModel`, `ProjectionContent`, `ProjectionMeaning`, `ProjectionSafety`, `ProjectionProgress`, `ProjectionOperations`, `ProjectionRebuild` | a graph of documents and relations derived from the ledger through deliver, rebuild, validate and promote; every batch is built from the ledger as it stands at that moment, and a crash may fall between the graph write and the delivery row |
| Development Candidate store | `Candidate`, `CandidateOpening` | admit once, deduplicate for ever, three row validators |
| Programme executor | `Executor`, `StandingGrant` | a file-based at-most-once protocol under concurrency and crashes, its consumption reader, and the owner-comment resolver |
| Bounded campaign | `Campaign`, `CampaignEvidence` | ramp, pacing and wall cap over a real-valued clock; admission caps, receipt accounting, completion evidence |
| First-seen backfill | `FirstSeen` | an incremental, watermarked backfill next to direct retention |

## How to read it

Identities, digests and instants are natural numbers; digests are injective, so a digest stands for what
it digests. Tables are sequences, a transaction is one step, and a ledger position is a row's index among
ledger events. Code that only reads is a function. Code that changes tables or dictionaries is a class or
a method whose contract ties the new state to such a function. The clock, the write lock, the graph
service, provider calls, comment listing and the fences are the environment: parameters or
nondeterministic steps; a campaign takes its environment as a record of what the clock, the fences and the
consumer will answer, so that when it stops is an if-and-only-if. Where a member needs no `requires` beyond the reachable-state invariant, that
invariant (`Inv`) is proved to hold from the empty store on.

Properties that turned out to hold only under a condition are stated with that condition in both
directions, next to an input that violates it:

* a retained Observable Transition survives re-validation exactly until a backdated append disturbs it
  (`CheckFrame.HistoryFrame`, `CheckFrame.StepAccepted`); `CheckExample` gives an admitted command for each of
  the three ways;
* the incremental backfill equals the simple one exactly when everything the watermark skips is stored
  (`FirstSeen.BackfillIsSimple`), and over any run from any covered store, migrated ones included, that holds
  exactly while every step meets its condition (`FirstSeen.RunCovered`); a first pull retained behind a
  watermark can break it (`FirstSeen.RetainIntoEmptyLedger`);
* a revision is never dated later than its pulls exactly while every step meets its condition
  (`FirstSeen.RunRevisionsFirst`), which whole observations in time order always do
  (`FirstSeen.WholeInTimeOrder`); an observation backfilled after a later one was retained does not
  (`FirstSeen.RetainBeforeBackfill`);
* an incrementally delivered generation with every source event applied holds exactly the current records
  (`ProjectionSafety.ServedIsCurrent`), but it can be validated exactly
  when every batch it was delivered is still the batch that would be built now
  (`ProjectionContent.ReconcilesIffFresh`); a revocation after the binding makes it wait for a rebuild
  (`ProjectionContent.RevocationNeedsRebuild`);
* a generation without gaps whose source events are all applied can be validated exactly when it has no
  dead letter, its checkpoint has not run past the source watermark, and its batches are fresh
  (`ProjectionProgress.ValidatesExactly`); a dead letter is for ever
  (`ProjectionProgress.DeadLetterNeverActive`), and resolving the last gap runs the checkpoint past the
  watermark (`ProjectionProgress.ResolutionOvershoots`);
* the Candidate validators accept exactly the stores whose times are in order (`Candidate.ValidIsTimely`);
  a clock that steps back produces one they refuse (`Candidate.ClockStepsBack`);
* a token-bearing owner comment refuses every list that can contain it, exactly unless it decodes to a
  release that can be exact (`StandingGrant.TokenRefuses`, `StandingGrant.TokenInReleasePasses`).

The deletion table admits a `FAILED` state, but no code writes it: a failed physical removal is recorded as
a further `TOMBSTONED` version of the deletion, so its event becomes the latest lifecycle event of the
object. `ProjectionLifecycle.Update` follows the code.

## Model

| member | source | states |
|---|---|---|
| `CheckHistory.PriorOutcomeObserved` | newsroom/authority/_check_store_support.py:466-482 | the prior-Outcome query returns a retained Outcome other than the current one that observed the item and precedes the boundary |
| `CheckHistory.PriorOutcomeLatest` | newsroom/authority/_check_store_support.py:466-482 | every earlier observer of the item is the one returned or older than it in (completion time, ledger position) |
| `CheckHistory.PriorOutcomeAppend` | newsroom/authority/_check_store_support.py:466-482 | what appending any one Outcome does to the query, including a backdated one |
| `CheckHistory.LatestIsLatest` | newsroom/authority/_check_store_support.py:515-533 | an ORDER BY … DESC LIMIT 1 returns a row no other candidate is newer than |
| `CheckEvidence.ConfirmationsMean` | newsroom/authority/_check_store_support.py:626-716 | the confirmation scan passes if and only if every confirmation stands by itself and no Request confirms twice |
| `CheckEvidence.UnorderedStable` | newsroom/authority/_check_store_support.py:595-744 | every guard, occurrence and completeness check of a transition, once passed, is passed after any appends, without exception |
| `CheckEvidence.BaselineEvidenceStable` | newsroom/authority/_check_store_support.py:353-449 | a Baseline Decision's evidence, once accepted, is accepted after any appends |
| `CheckEvidence.LineageStable` | newsroom/authority/_check_store_support.py:213-350 | a Finding's lineage, once accepted, is accepted after any appends |
| `CheckRuns.ResolveIdempotent` | newsroom/authority/_check_store_support.py:93-130 | recomputing the observed-item index of an Outcome from its own keys gives that index again |
| `CheckRuns.RecordsStable` | newsroom/authority/_check_store_integrity.py:42-240 | every row that passes record validation passes it after any appends, history verdicts apart |
| `CheckRuns.CoveragePreserved` | newsroom/authority/_check_store_integrity.py:403-422 | each commit keeps every table in exact row-by-row correspondence with its ledger events |
| `CheckRuns.ChainsPreserved` | newsroom/authority/_check_store_commit_core.py:234-274 | each commit keeps all attempt chains numbered, linked and chronological |
| `CheckRuns.HeadsPreserved` | newsroom/authority/_check_store_commit_decisions.py:53-226 | each commit keeps every baseline lineage linear with its last decision as the head |
| `CheckRuns.CommitKeeps` | newsroom/authority/_check_store_commit_core.py:62-484 | an admitted command only appends and keeps the whole invariant: keys, sources, records, chains, heads, coverage |
| `CheckRuns.RunKeeps` | newsroom/authority/_check_store_integrity.py:30-40 | the invariant holds after every run of commits |
| `CheckFrame.HistoryFrame` | newsroom/authority/_check_store_support.py:451-562 | exact frame: a passing history verdict survives an append if and only if the append is not an earlier observer newer than the prior one, not a second Occurrence on the prior Outcome, and not an unlicensed newer earlier transition |
| `CheckFrame.EvidenceIsHistory` | newsroom/authority/_check_store_support.py:565-611 | for a retained transition the whole evidence verdict is the history verdict |
| `CheckFrame.ReadBackNeverFires` | newsroom/authority/_check_store_read_decisions.py:226-229 | a commit succeeds exactly when its guard admits it: reading the new record back never refuses what the guard accepted |
| `CheckFrame.AcceptedIsHistory` | newsroom/authority/_check_store_integrity.py:42-240 | in a store built by commits the open-time check accepts if and only if every transition's history verdict passes |
| `CheckFrame.StepAccepted` | newsroom/authority/_check_store_integrity.py:30-422 | one commit turns an accepted store into an accepted store if and only if it is not backdated for a retained transition |
| `CheckFrame.RunAccepted` | newsroom/authority/_check_store_integrity.py:30-422 | runs without a backdated append keep every reopening accepting |
| `CheckFrame.ReopenAfterRun` | newsroom/authority/_check_store_integrity.py:30-422 | the same from the empty store |
| `CheckExample.BlockAndReactivation` | newsroom/authority/_check_store_support.py:537-561 | a run of 38 admitted commands from the empty store ends in one that opens, with an Agenda creation, its rescheduling, an ending and a reactivation of one item |
| `CheckExample.BackdatedOutcomeBreaksReopening` | newsroom/authority/_check_store_support.py:466-505 | after that run an admitted Outcome, completed before all others, leaves a store that no longer opens |
| `CheckExample.SecondOccurrenceBreaksReopening` | newsroom/authority/_check_store_support.py:483-499 | so does an admitted second Occurrence on the Outcome before the reactivation |
| `CheckExample.LateTransitionBreaksReopening` | newsroom/authority/_check_store_support.py:515-544 | so does an admitted transition that comes between the ending and the reactivation |
| `CheckMeaning.UnorderedMeans` | newsroom/authority/_check_store_support.py:595-744 | the order-independent evidence check passes if and only if the observation time is the completion time, a current Revision has its Occurrence, and a guard cites the transition's own Outcome among standing confirmations of distinct Requests, with the completeness or the planned window it claims |
| `CheckMeaning.TransitionsStand` | newsroom/authority/_check_store_support.py:595-744 | in every store a run of commits reaches, the evidence of every transition stands in that sense |
| `CheckMeaning.PriorMeans` | newsroom/authority/_check_store_support.py:466-513 | the prior-observation half of the history verdict passes if and only if a first observation has no earlier observer, and any other transition names the Revision of the only Occurrence on the latest one |
| `CheckMeaning.KindMeans` | newsroom/authority/_check_store_support.py:515-562 | the kind half passes if and only if the kind is free or the transition of the item directly before licenses it |
| `CheckMeaning.OpensMeans` | newsroom/authority/_check_store_integrity.py:30-240 | a store that commits built opens if and only if the prior observation and the kind of every transition stand |
| `CheckMeaning.BaselineMeans` | newsroom/authority/_check_store_support.py:353-449 | a Baseline Decision's evidence is accepted if and only if it repeats one check of its Version, complete unless held by hand, and retains every Revision its manifest claims |
| `CheckMeaning.LineageMeans` | newsroom/authority/_check_store_support.py:213-350 | a Finding's lineage is accepted if and only if what it cites is one Request, one of its attempts and that attempt's Outcome, exactly those it names, at a time and of a scope they allow |
| `CheckMeaning.TransitionRecordMeans` | newsroom/authority/_check_store_integrity.py:163-202 | in any store with distinct Version identities a retained transition validates, history apart, if and only if its shape and evidence stand and it matches the rows it names under the Version that was current at its position |
| `CheckMeaning.OccurrenceRecordMeans` | newsroom/authority/_check_store_integrity.py:341-401 | a retained Occurrence validates if and only if it repeats its Outcome's columns and names one item and representation that Outcome observed |
| `CheckMeaning.RequestRecordMeans` | newsroom/authority/_check_store_integrity.py:43-89 | a retained Request validates if and only if it repeats the terms of the Version that was current at its position |
| `CheckMeaning.RequestAdmitted` | newsroom/authority/_check_store_commit_core.py:62-206 | a Request is admitted if and only if its identity is new and it repeats the terms of the Version with the greatest number |
| `CheckMeaning.AttemptAdmitted` | newsroom/authority/_check_store_commit_core.py:208-328 | an attempt is admitted if and only if its identity is new and the chain of its Request with it at the end is one the open-time scan accepts |
| `CheckMeaning.OutcomeAdmitted` | newsroom/authority/_check_store_commit_core.py:330-484 | an Outcome is admitted if and only if it validates as a record and its identity, attempt and proposal are unused |
| `CheckMeaning.OccurrenceAdmitted` | newsroom/authority/_check_store_commit.py:22-92 | an Occurrence is admitted if and only if it repeats its Outcome's times and receipt and names an item and representation that Outcome observed, under the current Version, once |
| `CheckMeaning.BaselineAdmitted` | newsroom/authority/_check_store_commit_decisions.py:27-226 | a Baseline Decision is admitted if and only if its evidence stands under the current Version and it extends its definition's lineage by one |
| `CheckMeaning.TransitionAdmitted` | newsroom/authority/_check_store_commit_decisions.py:228-445 | a transition is admitted if and only if its shape, the rows it names, its evidence, its prior observation and its kind all stand, and its slot is free |
| `CheckMeaning.ShapeMeans` | newsroom/checks/transition_models.py:123-258 | which Revisions, guards, observation models and related items a transition of each kind carries |
| `CheckMeaning.FindingAdmitted` | newsroom/authority/_check_store_commit_findings.py:60-282 | a Finding, or an occurrence of one, is admitted if and only if it cites one chain under a new identity |
| `CheckMeaning.ResolveMeans` | newsroom/authority/_check_store_support.py:93-130 | the observed-item index exists if and only if every delivered key names a retained item of the definition, and then names those items key by key |
| `CheckMeaning.RunDistinct` | newsroom/authority/_check_store_support.py:93-130 | in every store a run reaches, items, identity digests, Revisions and Representations are each retained once, so a delivered key names at most one item |
| `CheckLookup.LookupDecidesGuard` | newsroom/authority/_check_admission_lookup.py:30-108 | whenever the lookup returns, None means exactly the first-observation kinds pass the guard's prior check and R means exactly the other kinds with prior Revision R do |
| `CheckLookup.LookupBeforeIsAfter` | newsroom/authority/_check_admission_lookup.py:110-142 | the lookup gives the same answer immediately before and after its Outcome is retained, for every item that Outcome observed |
| `CheckLookup.LookupExact` | newsroom/authority/_check_admission_lookup.py:30-108 | in reachable stores the closing consistency refusals are unreachable: a well-formed query fails exactly when an earlier observer retained no Occurrence or the latest retained several |
| `CheckMeaning.LookupMeans` | newsroom/authority/_check_admission_lookup.py:30-108 | in reachable stores a well-formed lookup answers None if and only if no earlier Outcome observed the item, and R if and only if every earlier observer retained an Occurrence of it and the latest retained a single one, of R |
| `CheckMeaning.QueryMeans` | newsroom/authority/_check_admission_lookup.py:30-80 | a query is well formed if and only if item and Request share a Version, the time is not before the request, and a retained Outcome agrees with it |
| `CheckLookup.OccurrenceObserved` | newsroom/authority/_check_store_commit.py:22-92 | a retained Occurrence is of an item its Outcome observed |
| `CheckStateMachine.AcceptedSettles` | newsroom/authority/_check_store_integrity.py:42-240 | in a store that commits built and that opens, every transition re-validates, which is what the results below start from |
| `CheckStateMachine.FirstObservationIsFirst` | newsroom/authority/_check_store_support.py:500-505 | in a store whose transitions re-validate, a first observation precedes every other transition of its item, so an item has at most one |
| `CheckStateMachine.ReactivationFollowsEnding` | newsroom/authority/_check_store_support.py:537-544 | every reactivation directly follows an ending of the same item |
| `CheckStateMachine.PredecessorAdjacent` | newsroom/authority/_check_store_support.py:515-533 | no transition of the item lies between a transition and the predecessor it is judged against |
| `CheckStateMachine.AgendaTracesBack` | newsroom/authority/_check_store_support.py:545-561 | every rescheduled, cancelled, missed or late Agenda transition traces back through an unbroken block to an Agenda creation |
| `CheckStateMachine.AgendaBlockIsWholeHistory` | newsroom/authority/_check_store_support.py:500-561 | that block is the item's entire history up to the transition |
| `CheckValidators.IntervalsOrdered` | newsroom/authority/_check_store_commit_core.py:234-274 | any two attempts of a Request are numbered by place, and the earlier one's start-to-completion interval ends before the later one starts |
| `CheckValidators.ChainIsGapFree` | newsroom/authority/_check_store_commit_core.py:208-328 | the attempts of a Request are exactly 1..n and only the last may lack an Outcome |
| `CheckValidators.LineageIsOneChain` | newsroom/authority/_check_store_support.py:213-350 | whatever an accepted Finding cites is one Request, one of its attempts and that attempt's Outcome, at consistent times |
| `CheckValidators.ValidateAttemptChains` | newsroom/authority/_check_store_integrity.py:243-285 | the scan with its per-Request dictionary accepts if and only if every chain in the scanned rows is numbered, linked and chronological |
| `CheckValidators.OrderedScanAccepts` | newsroom/authority/_check_store_integrity.py:243-285 | over rows ordered by number, whatever their order in the table, the scan accepts every store that commits built |
| `CheckValidators.ValidateLineage` | newsroom/authority/_check_store_integrity.py:303-319 | the inner loop accepts exactly the lineages that begin with an establishment and extend exact predecessors |
| `CheckValidators.ValidateBaselineHeads` | newsroom/authority/_check_store_integrity.py:288-339 | the validator accepts exactly the stores with valid lineages, heads at the last decisions and no orphan head |
| `CheckValidators.HeadsAccepted` | newsroom/authority/_check_store_integrity.py:288-339 | it accepts every store that commits built |
| `CheckValidators.ValidateCoverage` | newsroom/authority/_check_store_integrity.py:403-422 | the comparison accepts exactly when a table's event positions are the ledger's events of its kind |
| `CheckValidators.CheckConfirmations` | newsroom/authority/_check_store_support.py:626-716 | the loop over confirmations, growing its set of Requests, returns the first error of the specification and learns whether the current Outcome is complete |
| `CheckValidators.CheckTransitionEvidence` | newsroom/authority/_check_store_support.py:595-744 | the method over a transition's evidence, with the loop's set of Requests and its completeness answer, passes exactly when the evidence stands and otherwise returns the specified error |
| `CheckAuthority.Authority.CommitRequest` | newsroom/authority/_check_store_commit_core.py:62-206 | the method performs exactly the specified step on the tables and keeps the invariant |
| `CheckAuthority.Authority.CommitAttempt` | newsroom/authority/_check_store_commit_core.py:208-328 | the same for starting an attempt |
| `CheckAuthority.Authority.CommitOutcome` | newsroom/authority/_check_store_commit_core.py:330-484 | the same for an Outcome and its observed-item index |
| `CheckAuthority.Authority.CommitOccurrence` | newsroom/authority/_check_store_commit.py:22-92 | the same for an Occurrence and its link row |
| `CheckAuthority.Authority.CommitBaseline` | newsroom/authority/_check_store_commit_decisions.py:27-226 | the same for a Baseline Decision, its head row and the read-back in the transaction |
| `CheckAuthority.Authority.CommitTransition` | newsroom/authority/_check_store_commit_decisions.py:228-445 | the same for an Observable Transition and its read-back |
| `CheckAuthority.Authority.CommitFinding` | newsroom/authority/_check_store_commit_findings.py:60-175 | the same for an Operational Finding |
| `CheckAuthority.Authority.CommitFindingOccurrence` | newsroom/authority/_check_store_commit_findings.py:177-282 | the same for a Finding occurrence |
| `ProjectionModel.ApplyTwice` | newsroom/projection/neo4j/_complete_adapter.py:636-660 | applying a batch again is a duplicate that changes nothing |
| `ProjectionModel.FoldMarkers` | newsroom/projection/neo4j/_complete_adapter.py:768-790 | a fold of batches 1..n leaves delivery markers for exactly 1..n |
| `ProjectionLifecycle.UpdateIsLatest` | newsroom/authority/_relation_store.py:250-333 | an accepted lifecycle event becomes the object's invalidating event, whatever rows it touches |
| `ProjectionLifecycle.InvalidSince` | newsroom/authority/_relation_store.py:293-333 | from its event on, an object names that event for as long as it is the latest |
| `ProjectionLifecycle.InvalidMeans` | newsroom/authority/_relation_store.py:293-333 | an object is invalid after n events if and only if one of them revokes its admission, requests the deletion of its blob or reclaims it |
| `ProjectionLifecycle.InvalidIsLatest` | newsroom/authority/_relation_store.py:250-333 | the event an object's invalidity is attributed to is the last of those that begin or continue it: the first revocation, request or reclamation, the first tombstone after the request, and every removal attempt up to the one that succeeds |
| `ProjectionLifecycle.StatusMeans` | newsroom/authority/_relation_store.py:1088-1125 | a relation stands admitted by its first admission and withdrawn by the first withdrawal after it |
| `ProjectionLifecycle.StatusStays` | newsroom/authority/_relation_store.py:1088-1125 | a relation is admitted once and withdrawn once for good: a later moment determines its standing at every earlier one |
| `ProjectionRecords.CurrentMeans` | newsroom/authority/_relation_store.py:1641-1690 | a record is current exactly when it has been put, is not withdrawn, and its manifest and own objects are all current |
| `ProjectionRecords.EndingEvent` | newsroom/authority/_relation_store.py:1820-1870 | a record that stops being current is ended by one later event, and from then on its removal stays attributed to that event |
| `ProjectionRecords.ContributionsEndCurrent` | newsroom/authority/_complete_projection_store.py:305-615 | batches of all events that matter, applied once each, in any order and at any non-decreasing moments, end in exactly the current documents and relations |
| `ProjectionRecords.IncrementalIsRebuild` | newsroom/authority/_complete_projection_store.py:273-303 | incremental delivery ends in the same records as folding freshly built batches from empty |
| `ProjectionMeaning.PassageSays` | newsroom/authority/_complete_projection_store.py:305-418 | a passage's document is among the current records, with the fixture's content, if and only if the fixture has it, a source event binds the fixture, and none revokes, requests deletion of or reclaims the manifest or the passage |
| `ProjectionMeaning.RelationSays` | newsroom/authority/_complete_projection_store.py:447-531 | a relation is among them if and only if the fixture asserts it, its first admission was never followed by its withdrawal, and the manifest and all its evidence are in order |
| `ProjectionMeaning.PutsSay` | newsroom/authority/_complete_projection_store.py:305-531 | the batch of an event, built at some moment, puts exactly the records current at that moment that entered with that event |
| `ProjectionMeaning.RemovalsSay` | newsroom/authority/_complete_projection_store.py:532-615 | it removes exactly the records that had entered and whose end, a withdrawal or else the last invalidation of what they rest on, is that event |
| `ProjectionContent.ReplayHolds` | newsroom/projection/neo4j/_complete_adapter.py:348-390 | deliveries in any order and at any non-decreasing moments never conflict in the graph, which keeps each batch as it was built |
| `ProjectionContent.RebuildIsCurrent` | newsroom/authority/_complete_projection_store.py:273-303 | the fold of the batches built now, up to the source watermark, never conflicts and holds exactly the current records |
| `ProjectionContent.ReconcilesIffFresh` | newsroom/projection/neo4j/_complete_adapter.py:391-458 | a graph that grew by deliveries reconciles at the source watermark if and only if it carries exactly the batches 1..watermark as they would be built now |
| `ProjectionContent.RevocationNeedsRebuild` | newsroom/projection/neo4j/_complete_adapter.py:391-458 | a binding and a revocation, each delivered as it arrives, leave the current records and a graph that does not reconcile |
| `ProjectionSafety.WatermarkKept` | newsroom/authority/_complete_projection_store.py:111-128 | no operation of the projection moves the source watermark |
| `ProjectionSafety.ActivationIsProved` | newsroom/authority/_complete_projection_system.py:602-681 | a generation becomes ACTIVE only from VALIDATING, by a promotion at the exact watermark, without gaps or dead letters, with every delivery applied and the graph that was validated; that graph carries the batches the ledger calls for at that moment and holds exactly the current documents and relations |
| `ProjectionSafety.EveryActivationIsProved` | newsroom/authority/_complete_projection_system.py:294-309 | the same for every activation in any run of the facade |
| `ProjectionSafety.ServedIsCurrent` | newsroom/authority/_complete_projection_system.py:319-396 | over every run, with deliveries in any order, repeated, failed or cut off by a crash, an ACTIVE generation to which every source event has been applied holds exactly the current records |
| `ProjectionSafety.NeverConflicts` | newsroom/projection/neo4j/_complete_adapter.py:636-660 | over every run, a batch of a sequence the graph has not seen never conflicts with it |
| `ProjectionSafety.RunOneActive` | newsroom/authority/_projection_store.py:2169-2470 | over every run a family has at most one ACTIVE generation |
| `ProjectionSafety.RunGuarded` | newsroom/authority/_projection_store.py:3179-3197 | over every run a generation whose authority version stands still changed nothing but its graph |
| `ProjectionSafety.PromotesWhatWasValidated` | newsroom/authority/_complete_projection_system.py:602-681 | whatever happened in between, the promoted generation is, graph included, the one that was validated |
| `ProjectionProgress.AdvancedIsFurthest` | newsroom/authority/_projection_store.py:3029-3176 | the contiguous checkpoint is the largest sequence within the bound such that every sequence up to it may be passed |
| `ProjectionProgress.RecordMeans` | newsroom/authority/_projection_store.py:2572-2803 | when a delivery is recorded, and what it does to deliveries, gaps, dead letters and the checkpoint: an undelivered predecessor becomes a gap, a last failed attempt a gap and a dead letter |
| `ProjectionProgress.RunOrdered` | newsroom/authority/_projection_store.py:2572-3068 | over every run, whatever lies between the checkpoint and a delivery is applied or an open gap, and the checkpoint never stops before an applied sequence that is not a gap |
| `ProjectionProgress.ValidatesExactly` | newsroom/authority/_complete_projection_system.py:517-600 | a reachable generation without gaps whose source events are all applied validates if and only if it has no dead letter, its checkpoint is not past the source watermark and its batches are fresh |
| `ProjectionProgress.InOrderActivates` | newsroom/authority/_complete_projection_system.py:319-681 | deliveries 1..watermark in order to a new generation bring its checkpoint to the watermark, and validation followed by promotion makes it ACTIVE with exactly the current records |
| `ProjectionProgress.DeadLetterNeverActive` | newsroom/authority/_complete_projection_system.py:781-789 | over every run a generation with a dead letter is never activated, even after its delivery is recovered |
| `ProjectionProgress.ResolutionOvershoots` | newsroom/authority/_projection_store.py:2804-2879 | resolving the last gap of a complete generation moves its checkpoint past the source watermark, so that no validation succeeds before the next source event |
| `ProjectionProgress.TerminalStays` | newsroom/authority/_projection_store.py:2169-2470 | over every run a retired or failed generation never changes again, its graph apart |
| `ProjectionOperations.ValidateMeans` | newsroom/authority/_complete_projection_system.py:517-600 | a validation goes through exactly on an open generation at its authority version that is complete up to the source watermark and whose graph is what a rebuild gives; it retains that graph and changes nothing else |
| `ProjectionOperations.PromoteMeans` | newsroom/authority/_complete_projection_system.py:602-681 | a promotion goes through exactly on a complete generation whose latest validation is of it as it is, with the family's active generation named; it activates the one, retires the other and changes nothing else |
| `ProjectionOperations.DeliverMeans` | newsroom/authority/_complete_projection_system.py:319-396 | a delivery against another authority version, to a closed generation, outside the ledger or whose batch cannot be built changes nothing |
| `ProjectionOperations.TransitionMeans` | newsroom/authority/_projection_store.py:1855-1970 | a generation is failed exactly from an open phase and retired exactly from ACTIVE, with both versions counted up |
| `ProjectionOperations.ResolveGapMeans` | newsroom/authority/_projection_store.py:2804-2879 | a gap is resolved exactly when it is open and its delivery was applied |
| `ProjectionOperations.BeginRebuildMeans` | newsroom/authority/_projection_store.py:2513-2570 | a rebuild starts exactly from BUILDING at the source watermark, not behind the checkpoint, and moves the checkpoint no further than that |
| `ProjectionRebuild.Boundary.DeliverLocked` | newsroom/authority/_complete_projection_system.py:319-396 | graph apply then delivery row, as specified, with a failed apply recorded and an uncommitted row leaving only the graph written; which outcome it returns, and when it raises instead, is determined |
| `ProjectionRebuild.Boundary.Visit` | newsroom/authority/_complete_projection_system.py:458-498 | one sequence of the walk is a step of the facade and extends a rebuilt prefix by one unless it is blocked or raises; whether it reapplies, records, blocks or raises is determined by the delivery row, the write and the gap span |
| `ProjectionRebuild.Boundary.Rebuild` | newsroom/authority/_complete_projection_system.py:417-515 | from any graph and any delivery table: reapplied + recorded + blocked = through, where reapplied counts the deliveries that were already applied and blocked those that still are not; zero blocked leaves the graph equal to the fold of all batches as the ledger now implies them, though each was built at its own moment, every delivery applied, and exactly the current records; nothing is blocked unless a write fails or a delivery was out of attempts; where it can start and every batch is built, written and recorded within the gap span, nothing raises and nothing is blocked; the watermark does not move; the whole call is a run of facade steps without promotion |
| `ProjectionRebuild.Boundary.Reconcile` | newsroom/authority/_complete_projection_system.py:556-568 | the read-back passes exactly when the graph equals the fold of the expected batches |
| `ProjectionRebuild.Boundary.AllApplied` | newsroom/authority/_complete_projection_system.py:891-919 | the scan passes exactly when every delivery up to the checkpoint is final and applied |
| `ProjectionRebuild.Boundary.ValidateGeneration` | newsroom/authority/_complete_projection_system.py:517-600 | the method performs exactly the specified validation step, against batches it builds from the ledger, and validates only a graph of exactly the current records |
| `ProjectionRebuild.Boundary.PromoteGeneration` | newsroom/authority/_complete_projection_system.py:602-681 | the method performs exactly the specified promotion step, against batches it builds from the ledger; an activation it makes has its full evidence and exactly the current records |
| `Candidate.AdmitKeeps` | newsroom/authority/_development_candidate_store.py:269-432 | one admission keeps the store's structure, and the missing-version error is unreachable |
| `Candidate.RunAdmitsOnce` | newsroom/authority/_development_candidate_store.py:269-432 | over every run, on any clock, there is at most one Candidate with one version, admitted by the first decision under its own event and deduplicated to by every later one |
| `Candidate.AdmitMeans` | newsroom/authority/_development_candidate_store.py:269-432 | an admission succeeds if and only if its context is retained and its command is repeated as it was or its key, proposal and event are all new; a repeat changes nothing, and each refusal has exactly its reason |
| `Candidate.AdmissionAdds` | newsroom/authority/_development_candidate_store.py:269-432 | what a new admission adds: its event, its command and one decision, and at the first one only the Candidate and its version under that event |
| `Candidate.RunDecidesOnce` | newsroom/authority/_development_candidate_store.py:269-432 | over every run each proposal is decided at most once, by the decision of exactly one command |
| `Candidate.ReplayAfterRun` | newsroom/authority/_development_candidate_store.py:269-432 | after any later run a committed command replays to success without a change, and its key with another proposal or context is an idempotency conflict |
| `Candidate.ValidIsTimely` | newsroom/authority/_development_candidate_store.py:581-860 | the three row validators accept a store built by admissions if and only if no decision precedes its Candidate or its context |
| `CandidateOpening.OpensMeans` | newsroom/authority/_development_candidate_store.py:551-860 | a store with the schema's unique keys, however it came about, opens if and only if each Candidate began with one version and one admitting decision under its own event that every other decision of it follows, and every version and decision stands on rows no later than itself |
| `Candidate.AdmissionValid` | newsroom/authority/_development_candidate_store.py:718-724 | a new decision leaves a valid store valid exactly when the clock is at or past the Candidate's creation and the context's recording |
| `Candidate.OpensAfterRun` | newsroom/authority/_development_candidate_store.py:551-579 | on a non-decreasing clock every reachable store opens |
| `Candidate.ClockStepsBack` | newsroom/authority/_development_candidate_store.py:797-860 | a run from the empty store on a clock that steps back commits a decision that the next opening refuses |
| `Candidate.CandidateStore.CommitAdmission` | newsroom/authority/_development_candidate_store.py:269-432 | the method performs exactly the specified admission, replay included, and returns the decision of the command's event |
| `Executor.AtMostOnce` | scripts/issue_895_graphiti_executor.py:647-700 | for any interleaving of any number of invocations with a crash at any step: each digest is dispatched at most once, at most one dispatch is in flight, every dispatch already has its marker |
| `Executor.AloneDispatches` | scripts/issue_895_graphiti_executor.py:446-487 | left alone, an invocation dispatches its packet exactly when its digest is unspent, all other markers are readable, and it has neither a marker nor an output directory |
| `Executor.DispatchNeedsOwnMarker` | scripts/issue_895_graphiti_executor.py:668-687 | a dispatch happens only by the lock holder whose own marker is written, for a digest never dispatched before |
| `Executor.AbandonedNeverDispatched` | scripts/issue_895_graphiti_executor.py:482-487 | a marker left by a crash keeps its digest from ever being dispatched |
| `Executor.PriorConsumption` | scripts/issue_895_graphiti_executor.py:168-199 | the reader returns the classified amounts plus the sum over unspent markers, and stops exactly when one of them is torn or malformed |
| `Executor.TotalOfSet` | scripts/issue_895_graphiti_executor.py:168-199 | that sum does not depend on the order of the marker files |
| `Executor.DispatchesCountedOnce` | scripts/issue_895_graphiti_executor.py:168-199 | the reader's sum is the sum of the dispatched packets, each counted once with its own numbers, plus what other unspent markers record |
| `StandingGrant.ReleasedRestrictions` | scripts/issue_895_graphiti_executor.py:301-338 | the loop returns the targets of all releases, or stops exactly when some release is not exact |
| `StandingGrant.VerifyStandingGrant` | scripts/issue_895_graphiti_executor.py:341-401 | the three loops accept exactly the specified lists, for any list |
| `StandingGrant.AcceptsIsInForce` | scripts/issue_895_graphiti_executor.py:341-401 | on lists with distinct identities the verdict is a statement about the set of comments |
| `StandingGrant.OrderIrrelevant` | scripts/issue_895_graphiti_executor.py:341-401 | the verdict does not depend on the order of the comments |
| `StandingGrant.OthersIrrelevant` | scripts/issue_895_graphiti_executor.py:301-401 | a complete comment by anyone but the owner changes nothing |
| `StandingGrant.GrantMeans` | scripts/issue_895_graphiti_executor.py:341-380 | with nothing else from the owner, a list is accepted if and only if it holds the owner's comment 5522755269 with the granted text, never edited, on the issue, and that comment is not a release |
| `StandingGrant.AcceptedIsGranted` | scripts/issue_895_graphiti_executor.py:341-380 | every accepted list holds that comment |
| `StandingGrant.RefusingIsExact` | scripts/issue_895_graphiti_executor.py:301-401 | an owner comment of any kind refuses every list that can contain it if and only if it is incomplete, a stop, a revocation, unresolved, token-bearing without being a release, a restriction no release can name, or a release that cannot be exact |
| `StandingGrant.TokenRefuses` | scripts/issue_895_graphiti_executor.py:380-401 | a token-bearing owner comment refuses every list that can contain it if and only if it does not decode to a release that can be exact |
| `StandingGrant.RestrictionNeedsRelease` | scripts/issue_895_graphiti_executor.py:316-338 | a list with a plain restriction is accepted only with an exact later release of it |
| `StandingGrant.ReleaseUnblocks` | scripts/issue_895_graphiti_executor.py:316-338 | adding a restriction together with its exact release to an accepted list leaves it accepted |
| `StandingGrant.ReleaseMeans` | scripts/issue_895_graphiti_executor.py:301-338 | a release lifts a restriction if and only if the restriction is the owner's numbered, token-free comment on the issue and the release a later, unedited one that cites the grant and gives the restriction's number and digest and nothing else |
| `StandingGrant.TokenInReleasePasses` | scripts/issue_895_graphiti_executor.py:393-395 | a list with a token inside an exact release that is accepted |
| `Campaign.ValidateRamp` | scripts/hermes_graphiti_worker.py:1577-1618 | the ramp scan accepts exactly the strictly increasing positive limits that end at the cohort |
| `Campaign.RateHolds` | scripts/hermes_graphiti_worker.py:1801-1806 | any half-open minute holds at most `rate` dispatches of a paced run |
| `Campaign.CompletedTrace` | scripts/hermes_graphiti_worker.py:1714-1943 | a completed cohort has one checkpoint for each phase at exactly its limit and one fence for each phase at its start |
| `Campaign.SpendWithinReservations` | scripts/hermes_graphiti_worker.py:1858-1899 | over a whole campaign the spend never exceeds the reservations |
| `Campaign.Account` | scripts/hermes_graphiti_worker.py:1858-1899 | an event's receipt is added exactly when it reconciles and no cap is exceeded, and keeps the totals equal to the exact sums, without fallback or retry |
| `Campaign.Worker.Pace` | scripts/hermes_graphiti_worker.py:1801-1811 | a start time is given if and only if the wait for it and the start itself fit inside the wall cap; it is the time the clock then shows, at least the minimum interval after the last start |
| `Campaign.Worker.Iterate` | scripts/hermes_graphiti_worker.py:1714-1943 | one iteration fences where a phase begins, paces, dispatches and checkpoints where a phase ends, in that order; it stops if and only if a fence refuses, no start fits the wall cap, the consumer fails or overruns it, or the receipt does not reconcile within the caps |
| `Campaign.Worker.RunCampaign` | scripts/hermes_graphiti_worker.py:1705-1960 | the loop completes if and only if no event meets one of those reasons; a completed run has exactly the ideal trace, start times and totals, and a stopped one is the ideal trace cut inside one iteration |
| `CampaignEvidence.CapsDominate` | scripts/hermes_graphiti_worker.py:595-664 | if the check before the decisions passes, then for every assignment of decisions the check after them raises no cap and stops exactly on undecided rows |
| `CampaignEvidence.CapsMean` | scripts/hermes_graphiti_worker.py:595-664 | the check before the decisions passes if and only if, whole and in every group, the numbers of rows that could be admitted, by kind, stay within the caps |
| `CampaignEvidence.ReceiptEvidence` | scripts/hermes_graphiti_worker.py:359-536 | the accumulation succeeds exactly when every ingest reconciles and no identity repeats, and then reports one chat for each ingest, no fallback, no retry and the exact sums |
| `CampaignEvidence.ActualWithinReserved` | scripts/hermes_graphiti_worker.py:500-526 | an event's actual spend is within its reservations |
| `CampaignEvidence.CompletionIsWhole` | scripts/hermes_graphiti_worker.py:803-987 | when completion evidence is produced the reported arrivals are the whole remaining partition: fresh, above the watermark, not in the initial partition, within the lag bound, and no more than the cohort |
| `CampaignEvidence.CompletionMeans` | scripts/hermes_graphiti_worker.py:803-987 | completion evidence is produced if and only if the rows are the cohort's, terminal after one attempt inside the window, the initial partition was the cohort, and what is left is new, prompt and no more than the cohort |
| `CampaignEvidence.CohortIsTerminal` | scripts/hermes_graphiti_worker.py:803-987 | so when it is produced, every event of the cohort has its terminal row |
| `FirstSeen.EarliestIsMinimum` | newsroom/effective_revision.py:166-191 | the recorded time of a slot is attained by an observation after the watermark that carries it, and no such observation is earlier |
| `FirstSeen.LatestIsAttained` | newsroom/effective_revision.py:117-134 | the advanced watermark is the time of a succeeded observation that none is later than, and absent exactly when there is none |
| `FirstSeen.NothingNewMeans` | newsroom/effective_revision.py:124-142 | a backfill has nothing to read if and only if every succeeded observation is at or before the stored watermark and the pull ledger has rows |
| `FirstSeen.BackfillIsSimple` | newsroom/effective_revision.py:100-263 | the incremental backfill leaves what the simple minimum over all history leaves if and only if everything the watermark skips is stored |
| `FirstSeen.ObserveKeeps` | newsroom/effective_revision.py:117-165 | a new observation keeps coverage exactly when it is later than the watermark the next backfill starts from or carries nothing new |
| `FirstSeen.RetainKeeps` | newsroom/effective_revision.py:266-316 | retaining a row keeps coverage exactly when it is a revision, the pull ledger has rows, or everything up to the watermark is stored or this very row |
| `FirstSeen.RecordKeeps` | newsroom/effective_revision.py:319-357 | the same for a whole observation kept with all its rows |
| `FirstSeen.NextBackfillIsSimple` | newsroom/effective_revision.py:100-263 | from a covered store, a backfill right after a step is the simple one if and only if the step met its condition |
| `FirstSeen.RunCovered` | newsroom/effective_revision.py:100-357 | over every interleaving from any covered store, with the empty-pull-ledger reset, coverage holds throughout if and only if every step met its condition |
| `FirstSeen.RunIsSimple` | newsroom/effective_revision.py:100-357 | so each backfill of such an interleaving equals the simple computation |
| `FirstSeen.RunIsMinimal` | newsroom/effective_revision.py:100-357 | from the empty store, observations each later than every succeeded one before, with backfills anywhere: every stored time is the minimum of all history, and after each backfill every slot is stored |
| `FirstSeen.RunNeverRewrites` | newsroom/effective_revision.py:266-316 | over every interleaving no stored time changes |
| `FirstSeen.MigratedThenBackfilled` | newsroom/effective_revision.py:135-142 | a store with an empty pull ledger is covered, and its backfill leaves the simple computation with everything stored |
| `FirstSeen.RetainIntoEmptyLedger` | newsroom/effective_revision.py:135-142 | a covered store in which retaining one pull makes every next backfill date an older pull by its second appearance instead of its first |
| `FirstSeen.SecondBackfillWritesNothing` | newsroom/effective_revision.py:142-234 | from any state a second consecutive backfill writes nothing |
| `FirstSeen.BackfillKeepsRevisionsFirst` | newsroom/effective_revision.py:193-263 | a backfill keeps every revision no later than its pulls if and only if no unprocessed observation carries an earlier unrecorded pull of a stored revision |
| `FirstSeen.RetainKeepsRevisionsFirst` | newsroom/effective_revision.py:266-316 | retention keeps it exactly when a new pull finds its revision stored and no later |
| `FirstSeen.RecordKeepsRevisionsFirst` | newsroom/effective_revision.py:319-357 | a whole observation keeps it exactly when each new pull finds its revision no later, if stored at all |
| `FirstSeen.RunRevisionsFirst` | newsroom/effective_revision.py:100-357 | over every interleaving no revision is dated after its pulls if and only if every step met its condition |
| `FirstSeen.WholeInTimeOrder` | newsroom/effective_revision.py:319-357 | whole observations in time order, with backfills anywhere between them, never date a revision after a pull and leave those backfills nothing to write |
| `FirstSeen.RetainBeforeBackfill` | newsroom/effective_revision.py:193-263 | an observation from before a retained one, backfilled after it, dates its pull before its revision |
| `FirstSeen.FallbackIsConservative` | newsroom/effective_revision.py:57-89 | the fallback of an unrecorded pull is never later than what is recorded for it afterwards |
| `FirstSeen.ResolvesToFirst` | newsroom/effective_revision.py:57-89 | a recorded pull resolves to its own first observation and an unrecorded one to its revision's |
| `FirstSeen.Store.ParseRows` | newsroom/effective_revision.py:166-191 | the two dictionaries end with the earliest time of every slot in the ordered rows |
| `FirstSeen.Store.BackfillMissing` | newsroom/effective_revision.py:100-263 | the method performs exactly the specified backfill, advances the watermark to the latest observation unless there is nothing to do or nothing to write without the lock, and returns the number of rows it wrote |
| `FirstSeen.Store.RetainObservation` | newsroom/effective_revision.py:319-357 | the method keeps the observation as the specified whole step, storing its time for exactly its slots that had none |

## Left out

- Idempotent replay of Check commands, semantic-digest collisions and grants: a replay returns without changing a table, so the model accepts at least the runs the code accepts.
- Canonical bytes, column decoding, HMAC signing, authentication and SQL text: field comparisons and foreign primitives.
- Source registry commands: the model keeps what the Check store reads of Versions, Items, Revisions and Representations; a policy identity and its version are one number.
- Loss of unsynchronised file data on power failure: an invocation may die at any step, but what it wrote stays.
- Invalidity of a governed object by time or rights without a lifecycle event: building its batch raises, which is one of the reasons `builds` is false.
- Structural nodes and edges of a batch: they depend on their event alone, so every moment builds the same ones; relation validity intervals, which the projection does not read.
- A source event appended while a validation or promotion builds its batches: the committing transaction refuses a moved watermark, so such a call is a refused one.
- Replays of promotion and validation commands, vector and full-text qualification, index bootstrap: read-backs by an external service, here one boolean or nothing.
- Executor checks of code identity, packet validity and attempted events: any of them may stop an invocation, which is the crash step.
- Campaign preflight, provider identities and the admission drain after the loop: their comparisons are single booleans of an ingest or of the environment; floating-point rounding of the clock is not modelled.
- Token measurement, reports, command-line parsing and output.
