# Vici: a verified model of matching, rate limiting, the embedding outbox and the message pipeline

Vici takes job postings and earnings goals by SMS. This project models the four parts of it whose
correctness is not visible from reading one function, in Dafny 4.11, and proves what they keep.

| part | files | what is proved |
|---|---|---|
| matching | `Jobs`, `Selections`, `KnapsackTable`, `CapacityCut`, `LeastTime`, `Matcher`, `MatchOrder`, `JobRepository`, `MatchRepository`, `MatchService` | The in-place knapsack row equals the best (sum, least time) table over all subsets, the walk back reads off the one best subset, the capacity cut loses nothing, the goal is met whenever it can be, and when the selection is also the quickest. Retrieval, order and persistence around it. |
| rate limiting | `RateLimit`, `RateLimitRuns` | The sliding-window bound, that the hourly purge is invisible, and exactly for which settings both hold over every run. |
| embedding outbox | `SyncQueue`, `SyncQueueRuns` | For any interleaving of concurrent sweeps and crashes: no entry is held twice, decided entries are final, synced means indexed, nothing is lost, a commit acts as one atomic sweep; and how fast sweeps drain the queue. |
| message pipeline | `Audit`, `MessageStore`, `Pipeline`, `Workflow`, `PipelineRuns`, `PipelineEffects`, `Webhook`, `WebhookRuns` | At most one job and one work goal per message under overlapping retries and crashes, creation audits in bijection with rows, every reply, vector and queue entry accounted for by a committed attempt, attempts that never commit without a trace, and one message row and one workflow per SID. |
| pipeline and outbox together | `EmbeddingRuns` | With attempts and sweeps interleaved, a finished posting is indexed, or its queue entry is pending or failed with an error, exactly unless write and enqueue both failed; and sweeps leave no posting waiting. |

Code that updates state in the source is a method here: a class for the tables and sessions it
changes, with an `ensures` that equates the new state with a specification function, and lemmas about
that function. Runs are sequences of steps (`History`), the latest outermost; interleaved processes
are steps of one world. Durations are non-negative reals, money is integer cents, instants are
integer microseconds. A subset of the candidates is a `Mask`, one boolean per position.

## Where the code and its documentation disagree

- `README.md:10` and the docstring at `src/matches/service.py:181-182` promise the least time among the
  subsets that meet the goal. The code selects the largest sum within the capacity and only then the
  least time for that sum. `LeastTime.LeastTimeIsNotSelected` is the two-job counterexample.
  For every goal that can be met, `QuickestExactlyWhenNoSmallerSumIsQuicker` gives the exact condition on the
  table of the candidates. On the candidates alone the condition is exact while the total does not exceed
  the goal by more than the largest job (`QuickestExactlyWhenAllAreNeeded`), when all jobs pay the same
  (`AtOnePriceExactlyWhenItFits`) and when all have the same hourly rate (`AtOneRateExactlyWhenOnlyOneSum`).
  That last case is a subset-sum question as it stands, so in general the exact condition stays on the
  table. Where the cut bites, `SmallJobsMakeTheSelectionSlow` gives a condition on sums of the input, to be
  read before any table is built, under which the selection is not the quickest.
- `src/sms/constants.py:7` asks that the retention exceed the largest configurable window, and
  `src/config.py:19-22` does not check it. `PurgingIsInvisibleExactlyWhenWindowFits` and
  `BoundHoldsExactlyWhenWindowFits` give the exact condition on the settings. A purge reads the clock
  before it deletes and a gate before it counts, so a purge ordered before a gate may have read the clock
  after it; both theorems hold for every bound `lag` on that, which the retention has to cover too.
- `src/matches/service.py:101-102` calls the full scan a superset of the semantic hits. With the row limit
  it is one, for every order Postgres may scan in, exactly when at most 500 rows are eligible or none of
  the eligible rows is computable (`FullScanIsSupersetExactlyWhenItFits`).
- `docs/ARCHITECTURE.md:45` has the failed embedding queued through a fresh session. The code
  (`src/pipeline/handlers/job_posting.py:111-120`) reuses the session of the unit of work after its commit,
  and so does `PipelineOrchestrator.Perform`.

## Model

| member | source | states |
|---|---|---|
| Jobs.RoundHalfEven | src/jobs/models.py:36 | rounding goes to a nearest integer and, between two, to the even one |
| Jobs.PayTerms.Earnings | src/jobs/models.py:29-47 | cents are known exactly when the rate is and hourly pay has hours; flat pay is the rate, hourly pay the nearest cent to rate times hours with halves to even, never negative for a non-negative rate |
| Selections.PickedTotals | src/matches/service.py:78 | the selected list earns and lasts exactly what its positions do |
| KnapsackTable.TracedWitness | src/matches/service.py:229-237 | the subset the walk reads off the bits earns exactly the entry's sum in exactly the entry's time, so the walk never goes below zero and ends at zero |
| KnapsackTable.RowIsLeast | src/matches/service.py:211-221 | no subset reaches a sum in less time than its entry |
| KnapsackTable.RowIsBestOfSubsets | src/matches/service.py:202-221 | an entry is reached exactly when some subset of the prefix earns that sum, and holds the least time of all such subsets |
| KnapsackTable.TracedPrefersEarlier | src/matches/service.py:219-221 | strict improvement breaks ties towards earlier candidates: of equally quick subsets with one sum the walk finds the one that skips the last position where they differ |
| CapacityCut.BestWithinIsUnique | src/matches/service.py:223-237 | sum, then time, then ties leave exactly one subset, so the selection is fully determined |
| CapacityCut.TracedIsBest | src/matches/service.py:223-237 | walking back from the largest reached sum gives the largest sum within the capacity, the least time for it, and ties to earlier candidates, over all subsets |
| CapacityCut.CutKeepsAQuickerGoal | src/matches/service.py:191-197 | every subset that meets the goal contains one that meets it in no more time and within the capacity |
| CapacityCut.GoalMetWheneverPossible | src/matches/service.py:75-79 | the selection misses the goal exactly when all candidates together do; otherwise it overshoots by at most the largest job, and when it misses it earns everything there is |
| CapacityCut.CutLosesNothing | src/matches/service.py:191-197 | the least time over table entries at or above the goal is the least time over all subsets that meet it |
| LeastTime.QuickestExactlyWhenNoSmallerSumIsQuicker | src/matches/service.py:180-182 | for every goal that can be met, the selection takes the least time of all goal-meeting subsets if and only if the last row of the candidates' table has no quicker entry for a smaller goal-meeting sum |
| LeastTime.QuickestExactlyWhenAllAreNeeded | src/matches/service.py:180-182 | while the cut does not bite, if and only if leaving out any paid job that takes time would miss the goal |
| LeastTime.SmallJobsMakeTheSelectionSlow | src/matches/service.py:191-197 | where the cut bites, the selection is not the quickest if, for some paid job that takes time, small jobs beside it cover the goal and it once more and all other jobs stay below the capacity by its pay |
| LeastTime.AtOneRateExactlyWhenOnlyOneSum | src/matches/service.py:180-182 | when all jobs have the same hourly rate, the selection is the quickest if and only if subsets of the candidates earn only one sum between the goal and the capacity |
| LeastTime.AtOnePriceExactlyWhenItFits | src/matches/service.py:180-182 | when all jobs pay the same, if and only if the goal is no multiple of the price, or all jobs are needed, or the jobs without duration cover one job more than the goal |
| LeastTime.LeastTimeIsNotSelected | src/matches/service.py:180-182 | for jobs of 100 cents in one and in ten hours and a goal of 100, both are selected, and that is not the least time |
| Matcher.SweepDown | src/matches/service.py:211-221 | one downward in-place sweep turns the row for the first i candidates into the row for i + 1, and sets the bit exactly where candidate i improved the entry |
| Matcher.FillTable | src/matches/service.py:202-221 | the finished row and bit table are the prefix table's last row and its improvements |
| Matcher.BestSum | src/matches/service.py:223-227 | the entry chosen by the tuple maximum is the largest reached sum |
| Matcher.WalkBack | src/matches/service.py:229-237 | the walk returns the traced subset, last position first, without ever going below zero and ending at zero |
| Matcher.DpSelect | src/matches/service.py:176-237 | the selection is the best subset within the capacity, also when there are no candidates or nothing to earn |
| MatchOrder.SortResultsIsStable | src/matches/service.py:239-254 | the results are sorted by date then duration, candidates with equal keys keep their order, nothing is lost or added |
| MatchOrder.StableSortIsUnique | src/matches/service.py:254 | any sorted stable rearrangement is this one |
| MatchOrder.ResultsReadInOrder | src/matches/service.py:239-254 | results read soonest first, undated ones last, at equal dates the shorter job first; the last representable instant counts as undated |
| JobRepository.ComputableOnly | src/jobs/repository.py:48-57 | the loop keeps exactly the jobs with computable earnings, in order |
| JobRepository.FindCandidatesForGoal | src/jobs/repository.py:59-74 | the first eligible rows of the scan, less the incomputable ones; every result is available, has computable pay, and is undated, flexible or dated no later than the deadline |
| JobRepository.FindCandidatesByIds | src/jobs/repository.py:76-94 | the order-restoring lookup; every result is a requested row, available, with computable pay, and undated, flexible or dated no later than the deadline |
| JobRepository.QualifyingJobsAreRetrieved | src/jobs/repository.py:21-74 | conversely no such row is missed: it is found by its id, and by the scan when at most 500 rows are eligible |
| JobRepository.LaterDeadlineLosesNoRow | src/jobs/repository.py:35-46 | a later deadline or none loses no eligible row |
| JobRepository.NoDeadlineAdmitsAll | src/jobs/repository.py:30-34 | without a deadline exactly the available rows of known pay type are eligible |
| JobRepository.ScanKeepsItsOrder | src/jobs/repository.py:48-57 | with at most 500 eligible rows the answer is the scan's own order |
| JobRepository.HitsAreExact | src/jobs/repository.py:83-94 | the result's ids are exactly the requested ids of eligible computable rows, in the caller's order |
| JobRepository.ScanOrderIsIrrelevant | src/jobs/repository.py:90-94 | the result does not depend on the order the database returns rows in |
| JobRepository.FullScanIsSupersetExactlyWhenItFits | src/matches/service.py:99-104 | the full scan contains every semantic hit, for all ids and scan orders, if and only if at most 500 rows are eligible or none of them is computable |
| MatchRepository.MatchTables.Insert | src/matches/repository.py:22-31 | a staged match row violates integrity exactly when it is a duplicate or refers to a missing row |
| MatchRepository.PersistMatches | src/matches/repository.py:11-33 | inserting row by row under savepoints leaves the admissible pairs, a failed insert being undone alone |
| MatchRepository.PersistedIsExact | src/matches/repository.py:14-33 | earlier rows stay in place, uniqueness is kept, and the rows are the old ones and the admissible pairs |
| MatchRepository.PersistingAgainAddsNothing | src/matches/repository.py:16-18 | persisting the same or part of a selection again changes nothing |
| MatchRepository.FreshGoalGainsItsSelection | src/matches/repository.py:22-31 | a goal without matches gains one row per selected job, in order |
| MatchService.SemanticPathExactlyWhenFiveHits | src/matches/service.py:109-121 | the hits compete in rank order exactly when a searcher is bound, the message has text, the search answered and at least five of its ids are eligible and computable; otherwise the full scan does |
| MatchService.MatchService.RetrieveCandidates | src/matches/service.py:93-140 | the retrieved jobs are those of that rule, whatever the search did; all eligible and computable |
| MatchService.MatchService.FindPosters | src/jobs/repository.py:96-120 | every job maps to the sender of its own message, or to nobody |
| MatchService.MatchService.BuildCandidates | src/matches/service.py:142-174 | one candidate per computable job in order, carrying that job's earnings, hours and poster's phone |
| MatchService.CandidatesCarryTheirJobs | src/matches/service.py:152-173 | a candidate's cents, hours and phone in its job's own columns: flat rate or rate times hours to the even half, hours or zero, the sender's phone or none |
| MatchService.MatchService.SelectJobs | src/matches/service.py:75-79 | best selection, presentation order, totals and the partial flag together |
| MatchService.MatchService.Match | src/matches/service.py:52-91 | over the jobs retrieved, the result is the best selection in order, partial exactly when all of them miss the goal, and exactly its jobs are persisted for the goal |
| MatchService.MatchAnswersTheGoal | src/matches/service.py:78-91 | the returned jobs are the picked candidates, the total is what they earn, and partial says exactly that they earn less than the goal |
| MatchService.NewGoalRecordsItsSelection | src/matches/service.py:81-84 | for a new goal the match table gains one row per selected job and nothing else, and a repetition adds nothing |
| RateLimit.RateLimitTable.EnforceRateLimit | src/sms/repository.py:23-58 | the row is inserted before the count over the configured seconds, and the count decides against the maximum |
| RateLimit.RateLimitTable.PurgeRateLimitEntries | src/sms/repository.py:60-68 | exactly the rows older than the cutoff go, and their number is returned |
| RateLimit.RateLimitTable.Gate | src/sms/dependencies.py:121-145 | a rejected message leaves the table as it was; a message is admitted exactly when fewer than the maximum rows already lie in the configured seconds before it |
| RateLimit.RateLimitTable.PurgeRateLimit | src/temporal/activities.py:177-195 | the activity removes exactly what is older than 3600 seconds |
| RateLimitRuns.PurgedCountsLikeMemory | src/temporal/activities.py:185-192 | at every point of a run, counts over windows that start at or after every purge's cutoff are those of a table that was never purged |
| RateLimitRuns.PurgingIsInvisible | src/sms/constants.py:6-8 | with window and lag within the retention, purging at arbitrary times changes no decision of the run, whatever the order of other clock readings |
| RateLimitRuns.MonotoneLeavesNoLag | src/temporal/activities.py:185-192 | a run whose clock never goes back is one without lag |
| RateLimitRuns.PurgingIsInvisibleExactlyWhenWindowFits | src/sms/constants.py:6-8 | for every lag, no run's decisions depend on purging if and only if window and lag together are within the retention or the settings admit nothing |
| RateLimitRuns.ForgottenBurstIsAdmitted | src/config.py:19-22 | otherwise a burst, a purge and one more message are decided differently, and with a window that is not negative exceed the limit; without lag the clock of that run never goes back |
| RateLimitRuns.MemoryHoldsTheBound | src/sms/repository.py:36-57 | without purging, every closed window of the configured length holds at most the maximum, because the window is read from the clock before the row's timestamp |
| RateLimitRuns.SlidingWindowBound | src/sms/repository.py:31-58 | the same bound on admitted messages for the purged table |
| RateLimitRuns.BoundHoldsExactlyWhenWindowFits | src/sms/repository.py:31-58 | for every lag, the bound holds over every run if and only if window and lag together are within the retention, the maximum admits nothing or the window is negative |
| RateLimitRuns.LimitHoldsExactlyUpToAnHour | src/config.py:19-22 | in the settings' units, without lag: no sender has more than the maximum admitted in any closed window of the configured seconds, in every run, if and only if these are at most 3600 or the maximum admits nothing |
| RateLimitRuns.PurgingIsInvisibleExactlyUpToAnHour | src/sms/constants.py:6-8 | and purging changes no decision of any run under the same condition exactly |
| RateLimitRuns.RejectedAttemptsLeaveNoTrace | src/sms/dependencies.py:131-144 | removing all rejected messages from a run leaves the same table and an all-admitted run, so retrying never extends a block |
| RateLimitRuns.TableHoldsUnpurgedAdmitted | src/sms/models.py:26-38 | the table is always exactly the admitted messages no later purge has reached, in order |
| RateLimitRuns.SendersAreIndependent | src/sms/repository.py:48-54 | a sender's rows and next decision are those of the run without all other senders |
| SyncQueue.Tried | src/temporal/activities.py:140-161 | an entry is synced exactly when its write succeeded, and otherwise failed with one more attempt and the write's error |
| SyncQueue.ClaimTakesLowest | src/extraction/repository.py:49-63 | a claim takes pending unlocked entries lowest first, and leaves one behind only when the batch is full of lower ones |
| SyncQueue.SweptIsPointwise | src/temporal/activities.py:138-161 | a sweep decides each claimed entry by its own write and touches no other |
| SyncQueue.SyncQueueTable.Enqueue | src/extraction/repository.py:25-29 | a pending entry without attempts is appended |
| SyncQueue.SyncQueueTable.CountPending | src/extraction/repository.py:31-38 | the count is the number of pending entries |
| SyncQueue.SyncQueueTable.ClaimPending | src/extraction/repository.py:40-63 | the claimed entries are the first unlocked pending ones, up to the limit |
| SyncQueue.SyncQueueTable.MarkSynced | src/extraction/repository.py:65-70 | only the status of that entry changes |
| SyncQueue.SyncQueueTable.MarkFailed | src/extraction/repository.py:72-79 | status, attempts and error of that entry change, nothing else |
| SyncQueue.SyncQueueTable.SyncOne | src/temporal/activities.py:140-161 | one entry's write and mark: the index gains the job whenever the write reached it, even if it then failed |
| SyncQueue.SyncQueueTable.SyncPineconeQueue | src/temporal/activities.py:111-174 | a completed sweep decides its batch and reports as failed exactly the entries it newly marked failed; a crashed one leaves every row as it was, while what reached the index stays |
| SyncQueue.ReachedJobsAreExact | src/temporal/activities.py:139-161 | a sweep adds to the index exactly the jobs of tried entries whose write succeeded, or failed after it had got there |
| SyncQueue.FailuresAreCounted | src/temporal/activities.py:137-152 | after any number of writes the failure counter is the growth of the failed entries |
| SyncQueue.SweepDecidesByRank | src/extraction/constants.py:21 | one sweep leaves an entry pending exactly when at least fifty pending entries precede it |
| SyncQueue.SweepsDrainInOrder | src/temporal/activities.py:132-163 | after n sweeps exactly the entries beyond the first 50 n pending ones are pending, whatever writes fail, so k entries take ceil(k / 50) sweeps |
| SyncQueueRuns.InvHolds | src/temporal/activities.py:114-118 | over every interleaving of enqueues, claims, tries, commits and crashes the outbox invariant holds |
| SyncQueueRuns.NoEntryIsHeldTwice | src/extraction/repository.py:43-48 | no entry is held by two live sweeps, nor twice by one |
| SyncQueueRuns.CommitIsOneAtomicSweep | src/temporal/activities.py:114-116 | however its steps were interleaved, a commit changes the table as one uninterrupted sweep of its batch |
| SyncQueueRuns.CrashReverts | src/temporal/activities.py:116-118 | a crashed sweep's entries are pending, unlocked and claimable again, and the table is unchanged |
| SyncQueueRuns.DecidedEntriesAreFinal | src/extraction/repository.py:54 | a synced or failed entry never changes again, however the run goes on |
| SyncQueueRuns.EntriesAreConserved | src/extraction/models.py:9-24 | pending, synced and failed entries together are the entries ever enqueued |
| SyncQueueRuns.SyncedMeansIndexed | src/temporal/activities.py:143-150 | a committed synced entry's job is in the index; attempts is one exactly for failed entries, which alone carry an error |
| SyncQueueRuns.CompletedSweepIsARun | src/temporal/activities.py:132-163 | from any reachable world, an undisturbed sweep ends in the rows and index that `SyncPineconeQueue` leaves, so the sequential sweep is one of the interleaved runs |
| SyncQueueRuns.CrashedSweepIsARun | src/temporal/activities.py:116-118 | so does a sweep that crashes after any number of its writes |
| SyncQueueRuns.SweepsAreARun | src/temporal/activities.py:132-163 | sweeps one after the other are a run whose rows are those of the drain theorem |
| EmbeddingRuns.ProjectsOntoRuns | src/pipeline/handlers/job_posting.py:96-122 | attempts and sweeps interleaved over one index and one queue are, seen from either side, a run of that side |
| EmbeddingRuns.PostingIsLostExactlyWhenBothFail | src/pipeline/handlers/job_posting.py:96-122 | with sweeps interleaved, a finished posting's job is committed and indexed, or its entry is pending or failed with an error, if and only if not both write and enqueue failed |
| EmbeddingRuns.OnlyCommittedJobsAreIndexed | src/pipeline/orchestrator.py:91-96 | whoever wrote them, every vector and every queue entry is of a committed job |
| EmbeddingRuns.SweepsSettleEveryPosting | src/extraction/constants.py:21 | from any world without a live sweep, one sweep per fifty pending entries leaves every queued job indexed or failed with an error |
| EmbeddingRuns.SuccessfulSweepsIndexEveryPosting | src/temporal/activities.py:139-150 | and if their writes succeed, every job whose entry had not failed before is in the index |
| MessageStore.CommitKeepsConsistent | src/pipeline/orchestrator.py:91-92 | committing what a handler staged keeps one row per message, audits matching rows, messages classified and references intact |
| Pipeline.DispatchIsTotalExactlyWhenTerminal | src/pipeline/orchestrator.py:80-82 | a chain dispatches every possible classification if and only if it has a terminal handler |
| Pipeline.DispatchKindIsTheFirst | src/pipeline/orchestrator.py:82-90 | the recorded type is that of the first accepting handler |
| Pipeline.RecordsWhatGptSaid | src/main.py:220-238 | in the application's chain the recorded type is GPT's own when the details it needs are there, and unknown otherwise |
| Pipeline.AcceptedExactlyWhenTotalAndPassedOn | src/pipeline/orchestrator.py:31-36 | the constructor's checks accept exactly the chains that dispatch every result and pass some result on to every position |
| Pipeline.EveryActionIsAttempted | src/pipeline/orchestrator.py:94-102 | every registered action takes effect by its own outcome, whatever happened to the earlier ones |
| Pipeline.Session.CreateJob | src/jobs/repository.py:122-138 | the insert draws a fresh id and fails exactly when the message already has a job |
| Pipeline.Session.CreateWorkGoal | src/work_goals/repository.py:11-21 | the insert draws a fresh id and fails exactly when the message already has a work goal |
| Pipeline.Session.RecordClassification | src/sms/repository.py:85-102 | the message's classification is staged with the rest of the unit of work |
| Pipeline.PipelineContext.RunAfterCommit | src/pipeline/context.py:30-32 | actions are kept in registration order |
| Pipeline.PipelineOrchestrator.Dispatch | src/pipeline/orchestrator.py:82 | the first accepting handler is found, never running off the chain |
| Pipeline.PipelineOrchestrator.Handle | src/pipeline/handlers/work_goal.py:55-107 | a handler raises exactly on its own failure, a non-positive goal or a duplicate row, and otherwise stages its row, audit and matches and defers one action |
| Pipeline.PipelineOrchestrator.Perform | src/pipeline/handlers/job_posting.py:96-120 | a write or send that raises may have gone out all the same; a failed embedding write is queued in its own transaction, and a failed enqueue is rolled back |
| Pipeline.PipelineOrchestrator.RunActions | src/pipeline/orchestrator.py:94-102 | actions are attempted once each in registration order, as far as the process lives |
| Pipeline.PipelineOrchestrator.Run | src/pipeline/orchestrator.py:42-104 | an attempt commits everything its handler staged and then acts, or commits nothing and has no effect |
| Pipeline.CompletesExactlyWhen | src/pipeline/orchestrator.py:56-104 | an attempt completes exactly when it is classified, its handler does not raise, a work goal is positive, the message has no row of the dispatched kind and the process does not die; one that misses its commit changes nothing |
| Pipeline.CommittedAttemptIsExact | src/pipeline/handlers/work_goal.py:65-107 | a committed attempt leaves the dispatched type, one job or one goal, its audits, for a goal exactly the match rows with the wanted jobs that exist, and its one action's effect, and nothing else |
| Workflow.ProcessMessageWorkflow.ProcessMessageActivity | src/temporal/activities.py:42-92 | it answers ok exactly when row and orchestrator are there, the attempt completes and the completion is acknowledged; missing row and unset orchestrator are the failures not retried, and they change nothing |
| Workflow.ProcessMessageWorkflow.ExecuteActivity | src/temporal/workflows.py:24-29 | retried until the first attempt that succeeds, four at most, as the scripts and the message's earlier rows settle; a missing row or an unset orchestrator ends it at once and changes nothing |
| Workflow.StopsAtTheFirstSuccess | src/temporal/constants.py:8 | the attempts made are the first success and what precedes it, or four |
| Workflow.ProcessMessageWorkflow.Run | src/temporal/workflows.py:32-53 | the workflow succeeds exactly with the first of four attempts that completes and is acknowledged, told from the inputs; the failure activity runs exactly otherwise; at most one job and one work goal are added, for this message only |
| PipelineRuns.InvHolds | src/pipeline/orchestrator.py:56-102 | over every interleaving of overlapping attempts, failures and deaths the pipeline invariant holds |
| PipelineRuns.StoreIsConsistent | src/work_goals/models.py:17-24 | over every run a message has at most one job and one work goal, creation audits are the rows in order, and every row's message is classified |
| PipelineRuns.ClassifiedOncePerCommit | src/temporal/constants.py:8 | a message's classification audits are its committed attempts, at most four |
| PipelineRuns.OneCommitPerKind | src/jobs/models.py:65-72 | of a message's attempts at most one commits a job and at most one a work goal |
| PipelineEffects.EffectsAreAccounted | src/pipeline/context.py:13-18 | over every run, each reply was sent as often as committed attempts' own sends went out, a vector is in the index exactly when some committed attempt's write reached it, a job is queued as often as attempts queued it, and uncommitted attempts have acted on nothing |
| PipelineEffects.MatchesAreTextedAtMostOnce | src/pipeline/handlers/work_goal.py:86-107 | however often a message is retried, at most one match reply is sent for it |
| PipelineEffects.AnsweredAtMostOncePerCommit | src/pipeline/handlers/unknown.py:27-52 | match replies and catch-all replies to a message together are at most its committed attempts, at most four |
| PipelineEffects.JobsAreQueuedAtMostOnce | src/pipeline/handlers/job_posting.py:109-114 | attempts queue a job at most once, and queue and index only committed jobs |
| PipelineEffects.FinishedHasDelivered | src/pipeline/orchestrator.py:91-102 | a finished attempt has tried its one action, and vector, queue entry or match reply are there if and only if that action's own outcome put them there |
| PipelineEffects.MatchesAreTheSelections | src/pipeline/handlers/work_goal.py:78-80 | over every run the match rows are exactly the pairs of committed work goals with the jobs matched for them |
| PipelineEffects.RecordedTypeIsTheLastCommitted | src/pipeline/orchestrator.py:84-92 | over every run a message's recorded type is the handler's of its last committed attempt |
| PipelineRuns.FinishedPostingIsIndexedOrQueued | src/pipeline/handlers/job_posting.py:96-122 | a finished posting's job is committed, and indexed or queued unless write and enqueue both failed |
| PipelineRuns.UncommittedLeavesNoTrace | src/pipeline/orchestrator.py:91-92 | take an attempt that has not committed out of any run: all others' steps are still possible and lead to the same store, index, queue and replies |
| PipelineRuns.RetryCannotRepeatACommit | src/jobs/models.py:65-72 | once a message's row is committed, no attempt of the same kind gets past its insert |
| PipelineRuns.AttemptIsARun | src/pipeline/orchestrator.py:42-104 | from any reachable world, whatever an uninterrupted attempt may do, also when its classification fails, is what a sequence of its interleaved steps does, with the same end; only to get past its insert must no other attempt hold the same key |
| Webhook.WebhookStore.ReceiveSms | src/sms/router.py:25-66 | the gates in order: a redelivery only leaves an audit row and costs no allowance, a rejection stores nothing, and a workflow starts only for a message just stored |
| WebhookRuns.InvHolds | src/sms/dependencies.py:88-145 | over every interleaving of concurrent requests the webhook invariant holds |
| WebhookRuns.OneMessagePerSid | src/sms/models.py:11 | overlapping deliveries of one SID leave at most one message row and one workflow |
| WebhookRuns.StartedWorkflowsFindTheirMessage | src/temporal/activities.py:66-70 | a started workflow's message row exists, so the row-not-found branch is unreachable for it |
| WebhookRuns.StoredMessagesAreLimited | src/sms/dependencies.py:121-145 | of one sender's stored messages at most the maximum were admitted in any closed window, under the settings of the exact condition |
| WebhookRuns.StoredByItsRequest | src/sms/router.py:47-57 | every stored message was inserted by one admitted request of its own |
| WebhookRuns.LostStartIsNotRecovered | src/sms/router.py:47-64 | a request that dies between storing and starting is never made up for by a redelivery |
| WebhookRuns.StartsExactlyWhileItsRequestLives | src/sms/router.py:47-64 | some continuation of a run starts a stored message's workflow if and only if it is started already or the request that stored it is still between storing and starting |
| WebhookRuns.DeliveryIsARun | src/sms/router.py:25-66 | from any reachable world, what an uninterrupted delivery does to the tables and answers is what this request's own interleaved steps do |

## Left out

- IEEE rounding of durations and dollar amounts: durations are reals and money is cents; `dollars_to_cents` at the SMS boundary is not part of this model.
- Naive datetimes: instants are microseconds in UTC, so the labelling of naive values as UTC in `sort_key` and the deadline's conversion are not modelled.
- MatchService.MatchService.Match: the ranked ids are distinct, as keys of the vector index are; the comprehension in `find_candidates_by_ids` would repeat a job for a repeated id, and `HitsAreExact` covers that case too.
- MatchService.MatchService.FindPosters: job ids are distinct, the primary key of the job table.
- Concurrency inside the rate-limit gate: gate transactions are serial steps; two READ COMMITTED transactions that do not see each other's inserts are not modelled.
- Postgres internals: claiming with SKIP LOCKED is one atomic step, and an uncommitted insert blocks another of the same unique key until it ends.
- Deletions: jobs, messages and users are never deleted, so cascades are not modelled.
- Workflow.ProcessMessageWorkflow.Run: what other messages commit between two attempts of this one; `PipelineRuns` interleaves attempts of all messages.
- A sweep on a worker without an OpenAI client, which raises before it claims anything.
- Pipeline.PipelineOrchestrator.Handle: the jobs matched for a work goal are an arbitrary set of existing jobs there; which ones they are is what `MatchService` proves.
- Pipeline.PipelineOrchestrator.Run: a raise by the pydantic validation of a job posting is the script's `handlerRaises`; descriptions, locations and texts are not modelled.
- Exclusivity of job and work goal for one message: GPT may classify a retry differently, so a message may end with one of each.
- Delivery after a crash between commit and effect: nothing in the code recovers an embedding, a reply or a workflow start; the last is stated as `LostStartIsNotRecovered` and `StartsExactlyWhileItsRequestLives`.
- The contents of embeddings and the ranking by similarity: the index is the set of job ids it holds, and a search answers arbitrary ranked ids or fails.
- HTTP, signature validation, phone hashing, user upserts, settings loading, SMS text formatting, tracing, metrics other than the failure counter, migrations and infrastructure.
