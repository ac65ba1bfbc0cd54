# Platform services: a verified model

Dafny proofs about the stateful services of the platform: durable scheduling and job
dispatch, the audit hash chain, document custody, agent plan execution, envelope
encryption, connections, backfill planning, and the identity lifecycle.

Each service is modelled twice where it changes state: as a state machine of functions,
about which the properties are proved over all runs, and as a class whose methods update
fields in place, one assignment at a time, end in the state the state machine gives, and
keep its invariant. Operations that only compute are functions or, where the service
loops, methods.

| file | models |
|---|---|
| Recurrence.dfy | schedules: once, interval, and daily local time with gaps and overlaps |
| Dispatcher.dfy | tenant-fair round-robin claim order |
| JobQueue.dfy, JobClaims.dfy, DurableJobService.dfy | claim gates, pauses, leases, retries, cancellation |
| AuditChain.dfy | digest, insert trigger, backfill, verifier |
| Custody.dfy, CustodyInvariant.dfy, CustodyCalls.dfy, CustodyGuarantees.dfy, CustodyDeletion.dfy, DocumentCustodyService.dfy | documents, object store, holds, deletion |
| AgentPlan.dfy, Orchestration.dfy | plan checks, delegation, budget, step execution |
| Envelope.dfy | envelope encryption and key rotation |
| Connections.dfy | connection lifecycle against trigger and CHECK |
| BackfillPlanner.dfy | order-independent backfill plan |
| IdentityLifecycle.dfy | sessions, tokens, account recovery |
| Arithmetic.dfy, Sorting.dfy, Wrappers.dfy | shared helpers |

## What is assumed

- Instants are integer microseconds. A time zone is a pair of functions, from instants to
  wall times and back with a fold flag. Fold 0 finds the first and fold 1 the last showing
  of a wall time (PEP 495), there is no third showing, and the local date never steps back.
  For a NEXT_VALID time later than 20:59, whose gap search can pass midnight, offsets are
  also whole minutes that change on whole minutes, and a clock set back repeats times it
  has already shown. `Recurrence.SpringForwardIsRegular` gives zones that meet all of it.
- SHA-256 of the audit chain is any function whose results are non-empty and free of the
  separator; the JSON text of the digested columns determines them. Nothing is assumed
  about collisions: where two chains may differ, two of the texts those very chains digest,
  at the same distance from their ends, are shown to collide.
- Content hashes, normalisation and identifiers of documents, connections and tokens are
  arbitrary functions.
- AES-GCM and the key service are symbolic: a sealed text opens under exactly its key,
  nonce and authenticated data, and the key service answers or refuses for each key as it
  likes at every call. Identities have a 36-character text form.
- Service calls are atomic steps; a refused call leaves the rows as they were.

## What the proofs found

- `verify_audit_chain` compares nullable columns with `<>`, so a NULL digest is never a
  reason to reject, and a NULL sequence is none in the last record; an inner record without
  its sequence is listed last and the next one is rejected. The function does not look at
  the chain head, so a shortened log is accepted; the causation reference is not digested.
  `AuditChain.EditAcceptedIff` and `AuditChain.RemovalAcceptedIffLast` say exactly which
  edits pass, for whatever the query may list.
- A completed document deletion does not always leave nothing: the storage port does not
  say whether promoting an object moves or copies it (the store of
  `tests/documents/test_h3_03_postgres.py:70-71` copies), and an ingest puts its object
  before its row can be refused. `CustodyDeletion.CompletedDeletionIsFinal` is the exact
  condition for each document: no version verified by then was promoted by copying or had
  its content ingested again, and none is ingested again later.
  `CustodyDeletion.DeletionNotAlwaysFinal` is a run that fails it.
- A job cancelled while it runs can be tried again: neither a reported failure nor the
  recovery of a lost lease looks at the request. `JobQueue.CancelHoldsIff` says exactly
  when, `JobQueue.CancelledJobRunsAgain` is such a run.
- A daily schedule whose next occurrence belongs to a local day 370 or more days ahead is
  reported as having none: `Recurrence.NotFoundIffAYearAhead`.
- `replace_data_key` is skipped when its request id was just used to rewrap, and only the
  last rotation's id is remembered: `Envelope.ReplacedIffNewRequest`,
  `Envelope.RewrappedIffNewRequest`.
- Catching up an interval schedule loses terms exactly when more than ten came due:
  `Recurrence.CatchUpIsCompleteIffAtMostTen`.

## Model

| member | source | states |
|---|---|---|
| Recurrence.ResolveLocal | app/jobs/contracts.py:247-267 | the two-fold lookup and the 180-minute search past a gap return the instant at which a local day comes due (first or last showing of its wall time, or of the first later minute shown), and nothing exactly when there is none |
| Recurrence.FoldsDecide | app/jobs/contracts.py:251-257 | the fold 0 and 1 conversions decide whether a wall time is shown at all and find its first and last showing |
| Recurrence.PastDayIsDue | app/jobs/contracts.py:326-329 | once the local date is past a day, that day has already come due, even when a skipped wall time was resolved past midnight |
| Recurrence.DaysInOrder | app/jobs/contracts.py:292-295 | later local days come due strictly later |
| Recurrence.NextOccurrence | app/jobs/contracts.py:309-330 | once, interval and daily alike: the answer is the least occurrence of the unbounded schedule strictly after the instant, none only if there is none; the daily search gives up if and only if no local day of the next 370 qualifies |
| Recurrence.NotFoundIffAYearAhead | app/jobs/contracts.py:323-330 | a daily schedule that does come due again is reported as having no occurrence if and only if its next one belongs to a local day 370 or more days ahead |
| Recurrence.FarFirstIsNotFound | app/jobs/contracts.py:323-330 | a first due time more than 370 local days ahead is not found, although it is the next occurrence |
| Recurrence.IterationEnumerates | app/jobs/contracts.py:309-330 | asking for the next occurrence again and again lists every occurrence up to the last answer, each once and in order, whatever the kind |
| Recurrence.IterationGivesTheTerms | app/jobs/contracts.py:315-322 | for an interval schedule the answers are its consecutive terms, from the first one when asked before it |
| Recurrence.NextTerm | app/jobs/contracts.py:315-322 | whole-second truncation never moves the next interval term |
| Recurrence.TermAtOrBefore | app/jobs/contracts.py:277-285 | whole-second truncation never moves the last interval term that is due |
| Recurrence.AllDue | app/jobs/contracts.py:270-296 | the result is ascending, at most ten long, made of missed occurrences of the window (trailing eleven local days for daily schedules), complete unless ten, and newer than every missed occurrence it leaves out |
| Recurrence.DueOccurrences | app/jobs/contracts.py:299-306 | SKIP gives nothing, FIRE_ONCE the evaluation instant exactly when something in the window is due, CATCH_UP the missed occurrences |
| Recurrence.NothingInBetween | app/jobs/contracts.py:299-330 | no occurrence lies between the last caught-up one and the next one, and appending the next keeps the order |
| Recurrence.DueAreLastTerms | app/jobs/contracts.py:277-285 | interval catch-up is exactly the last min(10, n) terms of the progression, and the last plus one interval is the next occurrence |
| Recurrence.WindowIsElevenDays | app/jobs/contracts.py:287-296 | daily catch-up looks at today and the ten local days before it, not before the first |
| Recurrence.CatchUpIsCompleteIffAtMostTen | app/jobs/contracts.py:277-306 | between two polls an interval schedule loses nothing if and only if at most ten terms came due |
| Recurrence.SpringForwardIsRegular | app/jobs/contracts.py:247-267 | a zone whose clock jumps forward on a whole minute meets every assumption made of zones |
| Recurrence.EveryScheduleIsUsable | app/jobs/contracts.py:247-330 | every schedule its constructor lets through is usable in such a zone, so no result leaves one out |
| Recurrence.SkippedTimeResolution | app/jobs/contracts.py:256-264 | a daily time inside such a gap comes due at the jump, under NEXT_VALID and if the gap ends within 180 minutes, and at no instant otherwise |
| Dispatcher.Order | app/jobs/dispatcher.py:11-35 | the claim order is the prefix of the ideal round-robin sequence that limit and organization capacity allow; with the running jobs it stays within both, and stops short of neither while a workspace has eligible jobs |
| Dispatcher.TakeRound | app/jobs/dispatcher.py:27-32 | one pass adds exactly one round, cut at the limit, and says whether it added anything |
| Dispatcher.FairShare | app/jobs/dispatcher.py:11-35 | no workspace exceeds its eligible count, and one still waiting is never more than one turn behind another |
| Dispatcher.CapacityIsUsed | app/jobs/dispatcher.py:19-34 | the order is as long as the smaller of the allowed length and the total of eligible jobs |
| Dispatcher.AllowedIsUsed | app/jobs/dispatcher.py:19-35 | for any limit, running jobs and ceiling: no more turns than the limit, the room left by the running jobs and the eligible jobs, and as many as the least of them |
| JobQueue.EveryRunKeepsTheGates | app/jobs/repository.py:128-214 | every serial run with a clock that does not go back keeps the workspace ceiling, the concurrency and the rate in every minute, and bounds attempts |
| JobQueue.GatesFromTheStart | app/jobs/repository.py:128-214 | from an empty workspace: at most 20 running, at most the concurrency per definition, at most the rate in every 60-second window, and at most five attempts a job, each recorded once |
| JobQueue.MinuteWithinGate | app/jobs/repository.py:195-213 | a window that ends at or after the claim holds no more than what the rate query counts |
| JobQueue.StartKeepsRate | app/jobs/repository.py:195-214 | a claim let through by the rate gate keeps every window within the rate, not only the one ending now |
| JobQueue.StartKeepsConcurrency | app/jobs/repository.py:131-143 | a claim let through by the two concurrency gates keeps both bounds |
| JobQueue.ClaimKeeps | app/jobs/service.py:199-234 | recovering leases, expiring waiting jobs and claiming together keep the invariant |
| JobQueue.EndedWaitsOut | app/jobs/contracts.py:136-156 | an attempt that ends for a retry makes its job available no earlier than the retry delay after the attempt started |
| JobQueue.RetriesWaitOutTheirDelay | app/jobs/service.py:281-325 | over every run, attempts are numbered in turn and each starts at least the delay of its number after the one before |
| JobClaims.AttemptsInTurn | app/jobs/service.py:199-325 | over every run from an empty workspace a job's next attempt has the next number and starts no earlier than the delay of the number before after it |
| JobClaims.FirstAttempt | app/jobs/service.py:209-229 | over every such run a job's first attempt is number one |
| JobQueue.CancelTakes | app/jobs/service.py:327-347 | a cancellation of a waiting or running job is recorded; a waiting job is over at once, a running one stays running |
| JobQueue.ComesBackStep | app/jobs/service.py:281-325 | after a cancellation one call puts the job up for a claim if and only if its worker reports a failure that may be retried or its lease has run out and may be retried; no attempt starts in that call |
| JobQueue.CancelHoldsIff | app/jobs/service.py:327-347 | over any run after a cancellation the job is up for a claim again if and only if such a call is made; otherwise no attempt starts, and never one of a job that was not running |
| JobQueue.ClaimIgnoresCancellation | app/jobs/repository.py:128-214 | the candidate of a claim does not depend on any job's cancellation request |
| JobQueue.CancelledJobRunsAgain | app/jobs/service.py:572-613 | a concrete run in which a job cancelled during its first attempt starts a second one |
| JobClaims.CandidateIff | app/jobs/repository.py:128-214 | a job is the candidate if and only if the workspace is not paused, fewer than twenty jobs run, it is the first due job by availability, creation and identity, and its definition has concurrency and rate to spare in the last minute |
| JobClaims.ClaimStarts | app/jobs/service.py:199-234 | a claim sweeps, then starts the candidate's next attempt under a lease of thirty seconds, and nothing else |
| JobClaims.MinuteCounts | app/jobs/repository.py:195-211 | what the rate gate bounds is the number of the definition's attempts in a minute, each counted once |
| JobClaims.PausedStartsNothing | app/jobs/repository.py:128-165 | over any run without operator calls no attempt starts of a definition that is paused, not live, or in a paused workspace |
| JobClaims.HaltedWorkspaceStartsNothing | app/jobs/repository.py:128-130 | over any run without operator calls a paused workspace starts no attempt at all |
| JobClaims.LeaseIsExclusive | app/jobs/service.py:638-648 | until its lease ends an attempt belongs to its holder over any run: no other worker and no claim ends it or starts another beside it |
| JobClaims.HolderDecides | app/jobs/service.py:236-325 | only the holder of a live lease ends an attempt or prolongs it: success unless cancelled, failure as decided, heartbeat by thirty seconds or into cancellation |
| JobClaims.FailureDecided | app/jobs/contracts.py:136-156 | a failure is retried if and only if its category allows, attempts are left and the delayed retry comes before the deadline; it expires if the retry comes too late and is dead-lettered otherwise |
| JobClaims.SweepDecides | app/jobs/service.py:572-613 | an attempt whose lease ran out ends like a transient failure, a job waiting at its deadline expires, all others stay |
| JobClaims.OverForGood | app/jobs/service.py:327-347 | a job that succeeded, was cancelled, dead-lettered or expired never changes and is never tried again |
| JobClaims.CancelledIff | app/jobs/service.py:327-347 | a cancellation is refused exactly for unknown and finished jobs, ends a waiting one and is left to the holder of a running one |
| DurableJobService.JobService.Sweep | app/jobs/service.py:572-613 | the two row loops leave exactly the recovered and expired jobs |
| DurableJobService.JobService.SelectCandidate | app/jobs/repository.py:128-214 | the counts and the ordered query select exactly the candidate of the specification |
| DurableJobService.JobService.FirstRow | app/jobs/repository.py:173-174 | the row selected is the first by availability, creation and identity |
| DurableJobService.JobService.CountRecent | app/jobs/repository.py:195-211 | the count is the number of the definition's attempts started after the given instant |
| DurableJobService.JobService.ClaimNext | app/jobs/service.py:199-234 | the claim sweeps, selects and starts one attempt in place, or only sweeps when there is no candidate |
| AuditChain.EveryLogIsChained | alembic/versions/0012_add_audit_messaging.py:455-493 | after any interleaving of inserts each workspace's rows are its own events chained from scratch and its head holds their number and final digest |
| AuditChain.InsertExtends | alembic/versions/0012_add_audit_messaging.py:462-490 | one insert extends its own workspace's chain and leaves the rows and head of every other one alone |
| AuditChain.EveryLogVerifies | alembic/versions/0012_add_audit_messaging.py:504-540 | the only listing the verifier's query can return for a log built by the trigger is the chain itself, and it is accepted |
| AuditChain.RowsAreLinked | alembic/versions/0012_add_audit_messaging.py:455-490 | each row is numbered in turn and carries the digest of the row before it, the first none |
| AuditChain.DigestCovers | alembic/versions/0012_add_audit_messaging.py:349-396 | the digest covers the prior digest, the sequence and every digested column: equal digests mean equal inputs or a collision of the two digested texts |
| AuditChain.Database.ChainAuditEvent | alembic/versions/0012_add_audit_messaging.py:455-492 | the trigger creates a missing head, chains the row and advances the head |
| AuditChain.Database.VerifyAuditChain | alembic/versions/0012_add_audit_messaging.py:504-540 | the verifier accepts exactly the listings in which no row compares unequal under SQL NULL rules, changes no row, and records how far it got |
| AuditChain.SameDigestSameChain | alembic/versions/0012_add_audit_messaging.py:349-396 | two chains with one final digest agree in every digested column, unless two different texts that these chains digest at the same distance from their ends have the same SHA-256 |
| AuditChain.SplitAtSeparator | alembic/versions/0012_add_audit_messaging.py:373-388 | the prior digest and the JSON text can be told apart in the digested text |
| AuditChain.AcceptedLogsAgree | alembic/versions/0012_add_audit_messaging.py:504-540 | two accepted listings ending in the same stored digest are the same record for record in all digested columns and all non-NULL chain columns, unless two of the texts digested for them collide |
| AuditChain.EditAcceptedIff | alembic/versions/0012_add_audit_messaging.py:504-540 | after one record of a chained log is rewritten, whatever the query then lists is accepted if and only if the record fits its place (an inner one needs the same digest, the last may say anything with a matching digest or with a NULL one) and it kept its sequence or is the last |
| AuditChain.RemovalAcceptedIffLast | alembic/versions/0012_add_audit_messaging.py:504-540 | after one record of a chained log is deleted, whatever the query then lists is accepted if and only if it was the last, because the head is not consulted |
| AuditChain.Backfill | alembic/versions/0012_add_audit_messaging.py:400-452 | the single pass with resets and the head query give the same rows and the same heads as inserting every event through the trigger |
| AuditChain.HighestHeads | alembic/versions/0012_add_audit_messaging.py:444-450 | the highest row of each workspace gives the head the trigger would have left |
| CustodyInvariant.ReachableInv | app/documents/service.py:101-464 | every sequence of service calls keeps the custody invariant |
| CustodyInvariant.SettleHoldings | app/documents/service.py:182-210 | rejecting or promoting a version keeps what the store holds in step with the rows |
| CustodyInvariant.CompletedHoldings | app/documents/service.py:390-425 | a completed deletion leaves no promoted object and no held object of the document |
| CustodyInvariant.FailedHoldings | app/documents/service.py:390-410 | a deletion that fails midway removes only objects of its own document |
| CustodyInvariant.ChunksAdded | app/documents/service.py:288-302 | storing chunks adds only non-blank chunks of the new derivative with its classification |
| CustodyGuarantees.VerifiedRestores | app/documents/service.py:515-521 | in every reachable state a verified version of a document without a half-failed deletion reads back with its recorded hash |
| CustodyGuarantees.LineageHolds | app/documents/contracts.py:201-216 | in every reachable state verified means clean and of verified type, derivatives come from verified versions one per input, and classification never drops down the lineage |
| CustodyGuarantees.ChunksAreTheNonBlankTexts | app/documents/contracts.py:235-260 | the chunks are exactly the non-blank normalised texts, in order and at their own positions |
| CustodyGuarantees.ProtectedStaysIntact | app/documents/service.py:371-386 | over any run in which the document is on hold or has retention time left whenever a deletion is processed, no object, version, derivative or chunk of it is removed or blanked, also for deletions queued before |
| CustodyCalls.HeldIffBlocked | app/documents/service.py:357-410 | a requested or failed deletion is blocked if and only if its document is on legal hold or in retention, fails if and only if it is not and the store does, and completes otherwise |
| CustodyCalls.HeldIsUntouched | app/documents/service.py:371-386 | while its document is held, processing a deletion touches no object, version, derivative or chunk |
| CustodyCalls.HoldProtects | app/documents/service.py:434-464 | after a hold or retention is set, until it is set anew or runs out, no run removes or blanks anything of the document, whatever deletions were requested before or after |
| CustodyCalls.RequestRecorded | app/documents/service.py:307-355 | a deletion is recorded once for a known document, blocked if and only if the document is held then, with hold before retention as the reason |
| CustodyCalls.ObjectsDeleted | app/documents/service.py:390-400 | the store loses exactly the objects held for the document's versions up to the failing call |
| CustodyCalls.GovernanceSet | app/documents/service.py:434-464 | hold and retention change if and only if the document is active, and nothing else of it does |
| CustodyCalls.IngestOutcome | app/documents/service.py:128-169 | a version is added if and only if the document is open at this classification and neither identity nor content is known; it is quarantined and readable, and a late refusal still leaves the object |
| CustodyCalls.VerifyOutcome | app/documents/service.py:171-210 | quarantined content is verified if and only if it has its recorded hash and the evidence is about that hash, clean and of the declared type; then the same content is under the promoted key |
| CustodyCalls.ExtractOutcome | app/documents/service.py:230-305 | extraction goes through if and only if the version is verified, the classification no lower, and its derivative exists or the content is readable and has text; a repeated one changes nothing |
| CustodyCalls.ChunksStored | app/documents/service.py:288-302 | every text with something in it is stored under its derivative and position |
| CustodyCalls.RestoresIff | app/documents/service.py:515-521 | a version restores if and only if it is verified and its object is there with its hash |
| CustodyCalls.VersionCounts | app/documents/service.py:539-542 | each call that goes through raises the version counter of the document it concerns by one, and no other counter changes |
| CustodyDeletion.ErasedIffNoCopy | app/documents/service.py:390-425 | in every state the invariant admits nothing is left of a document if and only if it is inactive and no quarantined object lies under a recorded key of it |
| CustodyDeletion.ErasureStep | app/documents/service.py:101-464 | for every call: nothing is left of a document afterwards if and only if a deletion of it was processed and reached every quarantined copy (all of them, or as many as the failing store removed of an inactive document), or nothing was left before and the call does not ingest a version's content again under its identity |
| CustodyDeletion.CompletionErasesIff | app/documents/service.py:390-425 | a deletion that completes leaves nothing if and only if no verified version of the document kept a quarantined copy |
| CustodyDeletion.CopyLeftIff | app/documents/service.py:128-210 | over any run a verified version ends with a quarantined copy if and only if the store promotes by copying or its content was ingested again under its identity while it was settled |
| CustodyDeletion.StaysErasedIffNeverRevived | app/documents/service.py:128-169 | over any run nothing comes back of an erased document if and only if no call ingests the content of one of its versions again under that identity |
| CustodyDeletion.CompletedDeletionIsFinal | app/documents/service.py:357-432 | for any history, any completing deletion and any later run: nothing is left of the document if and only if each version verified by then was moved and not ingested again, and nothing comes back if and only if none is ingested again later, whatever failed or fails |
| CustodyDeletion.CompletedStays | app/documents/service.py:366-369 | a completed deletion never changes again |
| CustodyDeletion.RetryEndsAsFirstTry | app/documents/service.py:390-432 | a deletion that fails midway changes only bookkeeping, and its retry at any later time ends in the rows and objects of a first try |
| CustodyDeletion.DeletionNotAlwaysFinal | app/documents/service.py:128-169 | a concrete run in which a copying store keeps the quarantined content after the completed deletion, and a refused ingest puts the content back |
| DocumentCustodyService.DocumentService.Create | app/documents/service.py:101-126 | creates the document row once |
| DocumentCustodyService.DocumentService.Ingest | app/documents/service.py:128-169 | puts the object first, then adds the quarantined version or is refused by a constraint with the object left behind |
| DocumentCustodyService.DocumentService.Verify | app/documents/service.py:171-210 | rejects substituted or uncleared content, otherwise promotes the object and marks the version verified |
| DocumentCustodyService.DocumentService.CompleteExtraction | app/documents/service.py:230-305 | returns an existing derivative, refuses substituted or chunkless content, otherwise stores derivative and chunks |
| DocumentCustodyService.DocumentService.BuildChunks | app/documents/contracts.py:235-260 | the loop collects the non-blank texts with their positions |
| DocumentCustodyService.DocumentService.RequestDeletion | app/documents/service.py:307-355 | records a pending or a blocked request by the disposition at the time |
| DocumentCustodyService.DocumentService.ProcessDeletion | app/documents/service.py:357-432 | blocks, fails at the faulty delete with the objects so far gone, or completes, step by step as the state machine says |
| DocumentCustodyService.DocumentService.DeleteObjects | app/documents/service.py:390-400 | removes the held object of each version in order up to the failing call |
| DocumentCustodyService.DocumentService.Erase | app/documents/service.py:411-421 | blanks the chunks and marks derivatives, versions and the document |
| DocumentCustodyService.DocumentService.SetGovernance | app/documents/service.py:434-464 | changes hold and retention of an active document only |
| AgentPlan.AcceptedStepRefusedIff | app/agent_platform/contracts.py:305-370 | a step of an accepted plan, run with its registered tool, is refused if and only if the clock, the delegation, the authorization, its risk ceiling or the approval says so, and runs under the digest of acceptance |
| AgentPlan.NoErrorInAnyStep | app/agent_platform/contracts.py:325-333 | acceptance means every single step passed its checks |
| AgentPlan.WellFormedIffKeysDiffer | app/agent_platform/contracts.py:199-215 | a plan is well formed if and only if it has steps and as many distinct keys as steps |
| AgentPlan.PlanAcceptedIff | app/agent_platform/contracts.py:305-334 | a plan is accepted if and only if it is proposed, bound to an enabled manifest and its policy, within budget, and every step names a registered, enabled tool of its version, risk and admitted class; else the first of these is the reason |
| AgentPlan.ToolClassEndsAtDot | app/agent_platform/contracts.py:325-333 | the class of a tool is its key up to the first dot |
| AgentPlan.LetThroughIff | app/agent_platform/contracts.py:337-370 | a step is let through if and only if clock, manifest, tool, delegation, binding, permission, authorization, both risk ceilings and, for high and critical risk, the approval admit it, and under the digest of its own command and payload |
| AgentPlan.RefusedInOrder | app/agent_platform/contracts.py:337-370 | of several reasons to refuse a step the first in the checks' order is given |
| AgentPlan.ChainGrantedIff | app/agent_platform/contracts.py:247-268 | a delegation chain is granted if and only if each link stays within the permissions, ceiling and lifetime of the one before |
| AgentPlan.ChainNeverAmplifies | app/agent_platform/contracts.py:247-268 | whatever the last delegate of any attenuation chain may execute, the root may execute under the same digest |
| AgentPlan.ReservationsConserve | app/agent_platform/contracts.py:271-293 | a list of reservations succeeds if and only if none is negative and the totals fit; remaining plus reserved is the initial budget and nothing goes negative |
| AgentPlan.OrderDoesNotMatter | app/agent_platform/contracts.py:271-293 | permuting the reservations changes neither success nor what remains |
| Orchestration.EveryRunKeeps | app/agent_platform/service.py:397-531 | any interleaving of executions and cancellations keeps the orchestration invariant |
| Orchestration.StatusTellsTheRun | app/agent_platform/service.py:498-531 | receipts are a prefix of the plan's steps with all but the last verified, version is one plus receipts plus cancels, and the status is executing, succeeded or cancelled exactly when the receipts and cancels say so |
| Orchestration.RunsOnlyTheNextStep | app/agent_platform/service.py:411-416 | a step runs only while executing, and it is the one after the receipts so far |
| Orchestration.ReceiptsCarryAcceptedDigests | app/agent_platform/service.py:360-364 | with registered tools every receipt carries the digest stored at acceptance |
| Orchestration.ApprovedDigestIsExecuted | app/agent_platform/service.py:419-439 | a risky step runs only with an approval of exactly the digest on its receipt |
| Orchestration.OutcomeFollowsAnswer | app/agent_platform/service.py:480-519 | the receipt is verified, failed or uncertain exactly as the executor's answer was, and the status follows from it |
| Orchestration.ExecutesIff | app/agent_platform/service.py:397-479 | an execution goes through if and only if the orchestration is executing, the step's checks pass, the plan's costs fit the budget and the executor answers |
| Orchestration.RefusedExecution | app/agent_platform/service.py:397-479 | a refused execution changes nothing and gives the first reason |
| Orchestration.CancelledForGood | app/agent_platform/service.py:521-531 | anything but a success or failure can be cancelled, and then no run executes another step |
| Orchestration.AgentOrchestration.ExecuteStep | app/agent_platform/service.py:397-519 | checks, reserves, executes and receipts one step in place, or leaves the orchestration as it was |
| Orchestration.AgentOrchestration.CancelRun | app/agent_platform/service.py:521-531 | cancels unless succeeded or failed |
| Envelope.AuthenticatedDataIsInjective | app/encryption/contracts.py:50-54 | different coordinates never authenticate as the same data, although a record type may contain the separator |
| Envelope.DecryptsToTheOriginal | app/encryption/service.py:45-254 | after any run of rotations, replacements, verifications, failures and disablements, decryption gives the original plaintext exactly while the envelope is active and its key usable, and nothing otherwise |
| Envelope.RunHolds | app/encryption/service.py:121-254 | every run keeps the plaintext sealed and wrapped for the envelope's own coordinates |
| Envelope.MovedNeverOpens | app/encryption/service.py:99-119 | an envelope moved to other coordinates never opens, whatever keys are usable |
| Envelope.LockedForGood | app/encryption/service.py:290-300 | disabled and quarantined are absorbing and never decrypt |
| Envelope.DisabledForGood | app/encryption/service.py:204-225 | disabling goes through if and only if an incident is named and the envelope is not locked, and then no later run ever makes it decrypt again |
| Envelope.ActiveUntilLocked | app/encryption/service.py:121-254 | over any run an active envelope stays active if and only if no incident, refused rotation or differing legacy plaintext occurs |
| Envelope.DecryptsIff | app/encryption/service.py:99-119 | an envelope decrypts to a plaintext if and only if it is active, its key usable, and key, nonce, coordinates, key reference and checksum fit what it holds |
| Envelope.RefusesInOrder | app/encryption/service.py:99-119 | status, support, authenticity and checksum are looked at in this order |
| Envelope.EncryptedHolds | app/encryption/service.py:45-97 | encryption goes through if and only if the key may wrap, and yields an active envelope that holds the plaintext |
| Envelope.RewrapOutcome | app/encryption/service.py:121-164 | a rewrap goes through if and only if the envelope is not locked and the request repeated or both keys usable, decrypts under the new key alone, and quarantines otherwise |
| Envelope.ReplaceOutcome | app/encryption/service.py:166-202 | a replacement goes through if and only if the envelope is active and the request repeated or its key usable, and changes nothing otherwise |
| Envelope.ShadowOutcome | app/encryption/service.py:227-254 | a shadow verification of a readable envelope is recorded if and only if the plaintexts agree and quarantines if and only if they differ |
| Envelope.GenerationCountsChanges | app/encryption/service.py:155 | the generation never falls over a run and stays only if nothing changed |
| Envelope.FailedRewrapKeepsMaterial | app/encryption/service.py:138-151 | a failed rewrap leaves ciphertext, nonce, wrapped key and key reference unchanged |
| Envelope.RepeatedRotationIsNoOp | app/encryption/service.py:130-136 | a rotation request repeated later is a no-op whatever keys are usable, as long as no other rotation came in between |
| Envelope.RewrappedIffNewRequest | app/encryption/service.py:130-136 | a readable envelope is rewrapped if and only if the request id or the key differs from the last rotation |
| Envelope.ReplacedIffNewRequest | app/encryption/service.py:174-178 | the data key of a readable envelope is replaced if and only if the request id differs from the last rotation's |
| Envelope.RewrapThenReplaceIsSkipped | app/encryption/service.py:174-178 | a data-key replacement under the id of the preceding rewrap is skipped |
| Envelope.EncryptedEnvelope.RewrapKey | app/encryption/service.py:121-164 | rewraps in place, skips a repeated request, quarantines on provider failure |
| Envelope.EncryptedEnvelope.ReplaceKey | app/encryption/service.py:166-202 | decrypts, reseals under a new key and nonce, and updates the row |
| Envelope.EncryptedEnvelope.Disable | app/encryption/service.py:204-225 | disables an unlocked envelope for a named incident |
| Envelope.EncryptedEnvelope.VerifyShadow | app/encryption/service.py:227-254 | records the shadow verification, or quarantines on a mismatch |
| Connections.TablesAgree | alembic/versions/0014_add_connection_foundation.py:467-487 | the trigger accepts exactly the next version of the same row with the same status or one the service's table allows |
| Connections.EvidenceIff | alembic/versions/0014_add_connection_foundation.py:274-292 | the CHECK holds if and only if the closed and revoked stamps match the status, active and degraded rows were activated and pending ones never |
| Connections.DatabaseAcceptsEveryCall | app/connections/service.py:141-270 | a call that goes through satisfies the update trigger and the lifecycle CHECK; one that does not changes nothing |
| Connections.EveryRunIsLawful | app/connections/service.py:141-270 | every reachable row passes the CHECK with its identity fixed, events number 1 to version, and a revoked or closed connection stays so with its grants |
| Connections.CreatedIsLawful | alembic/versions/0014_add_connection_foundation.py:274-292 | from creation on every row passes the lifecycle CHECK and its events number exactly 1 to version |
| Connections.TransitionReaches | app/connections/service.py:141-176 | a transition goes through if and only if the version is current and the trigger takes the new status; then the connection has it, stamped, with a first activation kept and recoveries cleared |
| Connections.GrantsFollow | app/connections/service.py:178-270 | a capability is granted if and only if it was not and withdrawn if and only if it was, on a current row that is not ended, and no other one is touched |
| Connections.LeadsIffReachable | app/connections/contracts.py:40-101 | which statuses a chain of transitions can reach from which: all but the initial one until revocation, then closure only |
| Connections.Connection.MoveTo | app/connections/service.py:141-176 | transitions the row in place after version and table checks |
| Connections.Connection.Allow | app/connections/service.py:178-235 | grants a capability in place |
| Connections.Connection.Withdraw | app/connections/service.py:237-270 | revokes a granted capability in place |
| BackfillPlanner.SortedOrders | app/connection_cutover/service.py:45-47 | the sort by capability and source record permutes its input and orders capabilities |
| BackfillPlanner.SortedByRecord | app/connection_cutover/service.py:45-47 | the sort goes by capability and, within one, by source record as text |
| BackfillPlanner.OneSortedOrder | app/connection_cutover/service.py:61-63 | accepted candidates have one sorted order only |
| BackfillPlanner.PlanIgnoresOrder | app/connection_cutover/service.py:44-97 | any permutation of the candidates gives the same plan with the same checksum, or the same rejection |
| BackfillPlanner.PlannedIff | app/connection_cutover/service.py:48-63 | a plan is made if and only if there are records, of one account, placement and user, one per capability |
| BackfillPlanner.PlanListsEachOnce | app/connection_cutover/service.py:68-97 | the payload lists each candidate once and asks for reauthorization exactly when one is not eligible |
| BackfillPlanner.PlanIsCanonical | app/connection_cutover/service.py:64-97 | records come by capability with capabilities and source records alongside; account, connection and checksum are those of what all candidates share |
| BackfillPlanner.RefusedInOrder | app/connection_cutover/service.py:48-63 | empty lists, several accounts, several placements and repeated capabilities are refused, in this order |
| IdentityLifecycle.TokenUsedAtMostOnce | app/identity/lifecycle.py:257-290 | over any run a token is consumed at most once, and never once consumed or revoked |
| IdentityLifecycle.NoTokenTwice | app/identity/lifecycle.py:257-290 | no two replies of a run use one token, and none uses one spent before |
| IdentityLifecycle.ConsumedIff | app/identity/lifecycle.py:257-290 | a token is consumed if and only if the secret is long enough and its own, purpose and time fit, it is unspent, and an invitation comes with the authority it names |
| IdentityLifecycle.TokenIssuedIff | app/identity/lifecycle.py:220-255 | a token is issued if and only if it expires later, an invitation within three days and under an authority, a recovery for a subject, and identity and hash are new |
| IdentityLifecycle.TokensStep | app/identity/lifecycle.py:275-289 | what is consumed was neither consumed, revoked nor expired, and no spent token comes back |
| IdentityLifecycle.SessionsStep | app/identity/lifecycle.py:145-156 | what authenticates or is rotated was unrevoked, unexpired and of an active user; no revoked session comes back and no owner changes |
| IdentityLifecycle.AuthenticatesIff | app/identity/lifecycle.py:129-156 | a secret authenticates exactly its own session, if unrevoked, unexpired and of an active user, and only marks it as seen |
| IdentityLifecycle.SessionIssuedIff | app/identity/lifecycle.py:83-127 | a session is issued if and only if its time, user and second factor are in order and identity and hash are new |
| IdentityLifecycle.RotatedIff | app/identity/lifecycle.py:190-218 | a rotation goes through if and only if the old session may act and its user may open another; it revokes the old and passes user, strength and second factor on |
| IdentityLifecycle.NoSessionWithoutSecondFactor | app/identity/lifecycle.py:83-218 | over any run a user of whom a second factor is required has no session without one |
| IdentityLifecycle.DeadStaysDead | app/identity/lifecycle.py:158-188 | a revoked session neither authenticates nor is rotated in any later run |
| IdentityLifecycle.RecoveryCutsOff | app/identity/lifecycle.py:339-361 | a recovery revokes every session of the user in the workspace and spends every recovery token of the user there |
| IdentityLifecycle.RecoveredIff | app/identity/lifecycle.py:323-378 | a recovery goes through if and only if its token can be spent and names its user, and revokes exactly the user's open sessions and unspent recovery tokens in the workspace |
| IdentityLifecycle.RecoveryIsLasting | app/identity/lifecycle.py:323-378 | after a recovery no earlier session authenticates or is rotated and no earlier recovery token works, in any later run |
| IdentityLifecycle.NoSessionWithoutLogin | app/identity/lifecycle.py:190-218 | after a recovery, without a new login of the user no rotation brings any session of the user to life |
| IdentityLifecycle.SessionHashesStayUnique | app/identity/lifecycle.py:105-118 | no call stores a session hash twice |
| IdentityLifecycle.TokenHashesStayUnique | app/identity/lifecycle.py:243-255 | no call stores a token hash twice |
| IdentityLifecycle.LifecycleService.AuthenticateSession | app/identity/lifecycle.py:129-156 | looks the session up by hash and refreshes it when live |
| IdentityLifecycle.LifecycleService.Revoke | app/identity/lifecycle.py:158-188 | revokes once and keeps the first revocation time |
| IdentityLifecycle.LifecycleService.Rotate | app/identity/lifecycle.py:190-218 | authenticates, revokes and issues as one step, or changes nothing |
| IdentityLifecycle.LifecycleService.Open | app/identity/lifecycle.py:83-127 | issues a session after expiry, user and MFA checks |
| IdentityLifecycle.LifecycleService.Consume | app/identity/lifecycle.py:257-290 | consumes a spendable token of the expected purpose and authority |
| IdentityLifecycle.LifecycleService.Recover | app/identity/lifecycle.py:323-378 | consumes the recovery token, then revokes sessions and recovery tokens in bulk |

## Left out

- Sessions, row locks, row-level security and transactions: each service call is one step; what a partly committed transaction would leave is not modelled, except for the object store.
- Authorization, audit and outbox writes of the services: a call is taken to be authorized; event numbering is kept for connections only.
- Workspaces other than the one a service is bound to, except in the audit chain, connections' identity and the identity lifecycle.
- Concurrent claims: `JobQueue` runs are serial; a skipped locked row is not modelled.
- Attempt statuses, dead-letter rows, replay, idempotent enqueue and the enqueue quotas of the job service; job definitions do not change during a run.
- A heartbeat that observes a cancellation raises after recording it; whether its caller commits is a parameter of the call.
- Heartbeat, succeed, fail, cancel and enqueue are steps of the job state machine on values; only claiming and sweeping are also given as methods that update rows in place.
- Validation of names, payloads and sizes in constructors, and errors for clocks without a time zone, except for the execution clock of agent plans.
- Zones whose local date steps back, and real-number rounding of time differences over centuries.
- The session time zone of the database: the JSON text of a timestamp is taken to be the same whenever a digest is computed.
- Partition keys, retention columns and `verified_at` of the audit tables.
- Version numbers of documents: versions are kept in creation order. Derivative objects: the service never stores one. The deletion job port is always present.
- Promotion that fails, and objects changed behind the service's back: verification and extraction do reject substituted content, but runs contain no such change.
- `execute_step` takes plan, delegation and budget as arguments; the plan is the accepted one and budget is not accumulated across steps, as in the service.
- Registration, activation, evaluation and proposal of agent manifests and tools; revocation of delegations.
- Creation of an encrypted envelope beside its row constraints, and rollback of the quarantine by a caller that aborts.
- Scopes and display names of connections; the cutover service's own numbering of connection events.
- Route cutover decisions and their failure budget, which are branch-by-branch checks.
- Identity-link review, notifications, CSRF validation and changes of user status; `IssueToken` and `RevokeToken` are steps on values only.
