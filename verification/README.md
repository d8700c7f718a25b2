# Job search database: a verified model

This project models the parts of the job search automation whose rules are hardest to see from one function at a
time, and proves what they keep. Nothing here was executed. The table under "Model" names, member by member, the lemma or
contract that states each result about the model; what this text says about the Go code itself is a reading of the cited
lines. `dafny verify dfyconfig.toml` verifies the project.

The main part is the life of a row of `jobs` together with the score-batch ledger. Every method of `internal/db` is one
transaction over a few shared tables, and many actors run them concurrently: the scorer, batch pollers, the dedup pass,
the stale archive, the location prefilter, canonicalization, re-scores, the closed check, e-mail rejections and the user.

* `Sql`, `Tables` - nullable columns, three-valued conditions, and the tables with the database clock.
* `Scoring`, `ScoreBatch`, `Dedup`, `Canonicalize`, `Pipeline` - what each transaction does to the tables, as functions
  on the tables, with the laws of each.
* `Repository` - the transactions as methods that change the shared tables statement by statement, each proved to do
  what its function says, or to roll back and report an error; `fails(i)` decides which statement returns an error.
* `Actions` - one datatype of steps, one for each transaction. An operation that reads in one transaction and writes in a
  later one (AutoGhostStale, the closed check, reopening, canonicalization, e-mail rejections) is two steps, and the
  rows that it read stay in flight in between. `Run` is any sequence of steps of any actors.
* `Lifecycle`, `Replay`, `Reached`, `References`, `LedgerRuns` - what every run keeps.
* `Gaps` - what becomes of a row between the transaction that reads it and the later one that writes it, with the guard of
  every step that can move it.

The smaller parts: `JobSetCache` and `JobSetCacheRuns` (the LRU cache of the dashboard), `ClosedCheck` and
`ClosedCheckRun` (concurrent closed-job probes with one lock per Ashby board), `Dialect`, `Spelling`, `Rebind` and `Binding`
(the SQL rewriter, what it matches and writes, the placeholder rebinder, and which argument each placeholder is bound to),
`Analytics`, `AnalyticsAudit` and `PageNumbers` (the page's fast path, the full path and the audit, and every figure as a
number of jobs), `Counters` with `Counting` (the dashboard counters in SQL and in Go), `GlobalBoards` (closing and reopening by what boards list).

## Where the code and its comments disagree

* `internal/db/maintenance.go:18` calls the dedup passes idempotent. Pass 3 can archive a scored aggregator row; the next
  run's pass 1 reads that row as a dismissed repost and archives the primary row. `Dedup.SecondRunIdle` says exactly when
  a second run archives something, `Dedup.BuriedListing` and `Dedup.SecondRunBuriesPrimary` that a listing can lose its
  last live row that way while the cascade canary stays silent, and `Dedup.ThirdRunIdle` that a third run never does
  anything. All this is for an engine that returns equal rows in the same order each time; `Dedup.UnstableOrderBuries`
  shows what happens otherwise.
* `internal/db/scorebatch.go:266-271` says that a resume-change requeue makes the batch guard miss. The requeue nulls the
  score of a pending row, so the guard hits (`ScoreBatch.RequeueOpensGuard`), and the stale result lands
  (`ScoreBatch.BatchLandsAfterRequeue`). It carries the hash of its own resume, so it is counted as stale again
  (`ScoreBatch.LandedScoreIsStale`).
* `internal/db/rescore.go:82-86` says that a re-score may correct the model, never the user. `ArchiveJob` and
  `SetPipelineStage` do not clear `archive_reason`, so an automatic reason outlives a user's own archive:
  `Lifecycle.ReasonOutlivesUserMove` is a run, `Lifecycle.UserArchiveReversibleExactly` the exact condition.
  Merging an applied alternate into an auto-archived row leaves the reason behind as well (`Lifecycle.ReasonOutlivesMerge`).
* `internal/db/closedcheck.go:15-20` says that a row in the user's pipeline must not be closed by the probe. The
  query excludes such rows, but the later write has no guard. `Gaps.SplitCloseExact` says exactly when the write hits such a
  row, by the guards of the steps in between. Reopening, AutoGhostStale and canonicalization have the same gap
  (`Gaps.SplitReopenExact`, `Gaps.SplitGhostExact`, `Gaps.SplitCanonicalizeExact`).
* A user move logs the stage that the row leaves as `from_value` (`internal/db/dashboard.go:155-184`). A sweep logs the stage
  that it read in an earlier transaction, which the row may have left since: `Replay.ReachableLogChained` says exactly when
  the log is no longer a chain, `Replay.StaleRejectionBreaksChain` is such a run.
* A cancelled closed-check pass reports zeros although the groups before the cancellation were written
  (`ClosedCheckRun.Run`), and an answer of 500 or more from Greenhouse reads as open (`ClosedCheck.Judge`).
* `internal/dashboard/listview.go:317-318` says that the in-memory counters use the same predicates as GlobalStats. They part
  ways on a NULL status and on a pipeline row with a NULL stage (`Counters.CountersDiffer`).
* The two inconsistency warnings of the audit are unreachable when the jobs and the reached rows are read from one state of
  the database (`AnalyticsAudit.AuditNeverWarns`). The code reads them one after the other; `AnalyticsAudit.WarnsExactly` says when they show.

## Model

| member | source | states |
|---|---|---|
| Dedup.NeverEmptiesListing | internal/db/maintenance.go:20-85 | after the three passes every group that held a pending row still has a live row, or a row that was dismissed (scored, stage-less, archived) before them |
| Dedup.DedupFrame | internal/db/maintenance.go:27-84 | a pass leaves a row alone or archives a pending row of its own tenant with a dedup reason; no other column changes |
| Dedup.RepostsExactly | internal/db/maintenance.go:27-40 | pass 1 archives exactly the tenant's pending unscored rows with a dismissed twin: same title and company, archived, scored, without a stage |
| Dedup.BestPendingKept | internal/db/maintenance.go:42-71 | pass 2 archives a row only while its group keeps a pending row that is primary if the row is, and no older among equals |
| Dedup.PreferredKept | internal/db/maintenance.go:49-59 | a row that beats every other pending row of its group, primary before aggregator and then newer before older, survives pass 2 |
| Dedup.BeatenArchived | internal/db/maintenance.go:47-71 | an unscored pending row that a pending twin beats does not |
| Dedup.AlternatesExactly | internal/db/maintenance.go:73-84 | pass 3 archives exactly the tenant's pending aggregator rows, scored or not, with a primary twin that is not archived |
| Dedup.RunKeepsBest | internal/db/maintenance.go:87-119 | over the whole run a row archived for a pending copy leaves one behind that it does not beat, unless pass 3 archives that copy for a live primary row |
| Dedup.CanaryUnchanged | internal/db/archivereason.go:28-55 | a dedup run leaves the set and the number of cascaded groups exactly as they were, for every tenant |
| Dedup.CascadedExactly | internal/db/archivereason.go:28-55 | the canary counts the title and company groups whose rows are all archived and unscored, one of them by a dedup or canonicalize pass |
| Dedup.SecondRunIdle | internal/db/maintenance.go:15-18 | a second run changes nothing if and only if no unscored primary row that its listing keeps has a scored aggregator copy for pass 3 to archive |
| Dedup.ThirdRunIdle | internal/db/maintenance.go:15-18 | two runs always reach a fixed point |
| Dedup.BuriedListing | internal/db/maintenance.go:20-42 | in that case a listing of the two rows has no live row after two runs, and the canary does not count it |
| Dedup.SecondRunBuriesPrimary | internal/db/maintenance.go:15-18 | a concrete table on which the second run archives the primary row |
| Dedup.UnstableOrderBuries | internal/db/maintenance.go:49-59 | equal rows returned in another order on the second run make it archive the row that the first run kept |
| Dedup.UnstableOrderExample | internal/db/maintenance.go:49-59 | a concrete table on which that happens although no row is set up to be buried |
| ScoreBatch.LandingIsRight | internal/db/scorebatch.go:257-333 | only a pending row of the tenant without a score moves; it takes the first score written for it with its text and the batch's hash, and ends archived as a low score if and only if the score is at or below the threshold, else pending; with failures only, the last message and the time are stamped; every other column stays |
| ScoreBatch.ScoreForIsFirst | internal/db/scorebatch.go:297-333 | of several writes for one row the first one without an error is the one that lands |
| ScoreBatch.AppliedCountsScoredRows | internal/db/scorebatch.go:316-323 | `applied` is the number of rows that went from no score to a score |
| ScoreBatch.LandedScoreIsStale | internal/db/scorebatch.go:308-312 | a landed score carries the batch's hash, and CountStaleScores counts it exactly while the row is pending and the resume is another one |
| ScoreBatch.RequeueOpensGuard | internal/db/scorebatch.go:266-271 | a requeue makes a row landable exactly when it un-scores it |
| ScoreBatch.BatchLandsAfterRequeue | internal/db/scorebatch.go:266-271 | a batch submitted before the requeue does land on the requeued row |
| ScoreBatch.AttemptsKeepPool | internal/db/scoring.go:185-205 | an attempt and its failure are counted and stamped, leave the row in the sync pool and make no score stale |
| ScoreBatch.ScoreLeavesPool | internal/db/scoring.go:207-229 | storing a score takes exactly that row out of the sync pool |
| ScoreBatch.ScoredStaleness | internal/db/scoring.go:207-272 | a row just scored counts as stale exactly while it is pending and its hash is another resume's; scored without a hash it keeps the old one |
| ScoreBatch.RequeueRefillsPool | internal/db/scoring.go:231-255 | a requeue adds to the sync pool exactly the rows that it un-scores, without those that have no description or that an open batch holds; only scores below the band stay stale |
| Scoring.LowScoreThenRescore | internal/db/scoring.go:274-289 | archived as a low score, scored again and swept: the row ends archived if and only if neither score is above the threshold |
| Scoring.StaleThenRescore | internal/db/maintenance.go:121-141 | swept as stale, scored late and swept again: the row ends archived if and only if it is older than the window, by posted_at or else first_seen_at, and the score is not above the threshold |
| Scoring.PrefilteredThenRescore | internal/db/scoring.go:291-310 | no score revives a row that the location prefilter took, and it takes no row with a score |
| Scoring.RevivedExactly | internal/db/rescore.go:82-107 | a re-score revives exactly the listed rows of the tenant above the threshold that were archived for a low score or as stale |
| Scoring.RequeuedExactly | internal/db/scoring.go:231-255 | a requeue drops score, text and hash of exactly the pending rows at or above the minimum that another resume scored |
| Scoring.ScoredExactly | internal/db/scoring.go:207-229 | a score is stored with its text, clears the error, and replaces the hash only by one that is not empty |
| ScoreBatch.MembersIffOpen | internal/db/scorebatch.go:171-196 | a batch has members exactly while it is submitted, then as many as job_count |
| ScoreBatch.CreatedExactly | internal/db/scorebatch.go:38-58 | a batch is created exactly for a name, new to the tenant, with at least one job, each once; it is then submitted now, with a member for each job |
| ScoreBatch.ClosedExactly | internal/db/scorebatch.go:176-196 | a close ends exactly a submitted batch, with its state and message, and drops its members |
| ScoreBatch.CreateKeepsLedger | internal/db/scorebatch.go:33-58 | creating a batch, or failing to, keeps the ledger invariant |
| ScoreBatch.EndKeepsLedger | internal/db/scorebatch.go:171-196 | ending a batch keeps the ledger invariant and leaves no member of it |
| ScoreBatch.CreateAddsToGate | internal/db/scorebatch.go:159-169 | a successful create adds its job count to the daily sum, a failed one nothing |
| ScoreBatch.EndKeepsGate | internal/db/scorebatch.go:159-169 | ending a batch does not change the daily sum |
| LedgerRuns.ReachableMembers | internal/db/scorebatch.go:33-58 | in every reachable state a batch has member rows if and only if it is submitted, and then exactly job_count of them |
| LedgerRuns.LeavesOnce | internal/db/scorebatch.go:176-196 | over every run a batch leaves `submitted` at most once, and exactly once if it was open and ends terminal |
| LedgerRuns.ClosedStaysClosed | internal/db/scorebatch.go:186-190 | an ended batch never changes again |
| LedgerRuns.ClaimedOnce | internal/db/scorebatch.go:273-290 | of two pollers that apply one batch at most one claims it |
| LedgerRuns.EndedBatchOwesNothing | internal/db/scorebatch.go:285-289 | a batch ended by a close or by another poller is not claimed and adds no usage |
| LedgerRuns.UsageIsExact | internal/db/scorebatch.go:335-355 | over every run each of the five numbers of each api_usage row is its start plus the sum of what exactly the claimed batches with calls (tenant row and host row) and the recorded calls owe it |
| LedgerRuns.UsageRows | internal/db/scoring.go:335-369 | a usage row appears exactly when something is owed to it and never goes away |
| LedgerRuns.GateOverRun | internal/db/scorebatch.go:159-169 | over every run the daily gate counts each submitted job once, however its batch ended |
| ScoreBatch.PoolExactly | internal/db/scoring.go:74-107 | the sync pool by its columns: unscored, described, pending or applied and not ended, and in no batch submitted less than 72 hours ago |
| ScoreBatch.HeldFor72Hours | internal/db/scoring.go:75-84 | a row of one submitted batch is back in the pool exactly from 72 hours after the submission on |
| LedgerRuns.HiddenRowsReturn | internal/db/scoring.go:75-84 | 72 hours after any state a row that wants a score and was not submitted again is in the sync pool, whatever pollers did or failed to do |
| LedgerRuns.EndReleasesRows | internal/db/scorebatch.go:171-175 | ending a batch releases its rows at once, except those that another open batch holds |
| Lifecycle.ReachableRowsGood | internal/db/dashboard.go:163-179 | in every reachable state no status is NULL, no stage is the empty text, and an applied or responded row has a stage |
| Lifecycle.PipelineRowKept | internal/db/scoring.go:274-310 | a step other than a user move, an e-mail rejection, an auto-ghost, a close or reopen write, or a canonicalization of the row never takes it out of the pipeline; unless it is a merge into the row it keeps status and stage |
| Lifecycle.PipelineRowKeptOverRun | internal/db/maintenance.go:129-141 | the same over every run |
| Lifecycle.AppliedAtOnceOverRun | internal/db/dashboard.go:176-178 | applied_at is written once, over every run |
| Gaps.PipelineStep | internal/db/dashboard.go:150-186 | after any step a row is in the pipeline exactly when the step takes it in, or it was in and the step does not take it out; the same for leaving and coming back to `applied`. Taking in is a move of its user to a stage that is not terminal or a committed merge of an applied or responded alternate; taking out is a terminal move, an archive by the user, a sweep's write or being canonicalized away |
| Gaps.PipelineRun | internal/db/closedcheck.go:15-28 | over every run a row outside the pipeline ends in it exactly when some step takes it in and no later one takes it out |
| Gaps.SplitCloseExact | internal/db/closedcheck.go:15-28 | a closed check that reads a row and writes after any run closes it in any case, and hits a row that is in the pipeline by then if and only if a step in between took it in and none after that took it out |
| Gaps.SplitCloseSafe | internal/db/closedcheck.go:15-28 | without a user move or a merge in the gap the closed check never closes a pipeline row |
| Gaps.SplitCloseLosesMove | internal/closedcheck/closedcheck.go:387-395 | one user move in the gap is enough: the row ends closed |
| Gaps.SplitReopenExact | internal/db/distribute.go:222-246 | a reopening that reads a closed row and writes after any run puts it back to pending in any case, and takes an application away if and only if a step in between took the row into the pipeline and none after that took it out |
| Gaps.SplitGhostExact | internal/db/maintenance.go:146-205 | each row that AutoGhostStale selected ends ghosted, and it had left `applied` by the time of the write if and only if a step in between moved it away and none after that moved it back |
| Gaps.SplitGhostLosesMove | internal/db/maintenance.go:146-205 | AutoGhostStale ghosts a row that its user advanced between the select and the write |
| Gaps.SplitCanonicalizeExact | internal/db/canonicalize.go:113-165 | an application begun on an alternate after it was read is lost by the merge if and only if a step in between took the alternate into the pipeline for good and the canonical row is not in it at the write |
| Gaps.SplitCanonicalizeRevives | internal/db/canonicalize.go:262-311 | an application that was read with the alternate reaches the canonical row even if it was ended in between |
| Lifecycle.ReasonsReachable | internal/db/archivereason.go:3-8 | in runs in which no step moves or lifts an archived row of its tenant, a live row has no archive reason, and a revivable reason means that the last archiver was automatic |
| Lifecycle.RescoreSparesUserArchives | internal/db/rescore.go:82-107 | in such runs a re-score revives only rows whose last archiver was automatic |
| Lifecycle.UserArchiveReversibleExactly | internal/db/dashboard.go:139-148 | automatic steps can bring back a row that its user archived if and only if it carried a revivable reason at that moment |
| Lifecycle.ReasonOutlivesUserMove | internal/db/rescore.go:82-86 | a run of four steps after which a re-score revives a row that its user archived last |
| Lifecycle.ReasonOutlivesMerge | internal/db/canonicalize.go:266-311 | an applied alternate lifts an auto-archived canonical row, which keeps its archive reason |
| Lifecycle.UnrevivableStays | internal/db/rescore.go:91-98 | left to automatic steps, an archived row without a revivable reason stays archived |
| Actions.StepEffect | internal/db/dashboard.go:152-186 | no transaction deletes a row, and each changes status, stage, archive reason and applied_at of a row in one of ten listed ways, each with its cause |
| Actions.JobsEffect | internal/db/scoring.go:274-310 | the single-statement transactions archive only pending rows, each with its own reason, revive only archived rows with a revivable reason, and never touch stage or applied_at |
| Actions.StepFresh | internal/db/repository.go:442-504 | a new row is a pending lead without stage, or a canonical row born with the state of an alternate that was read |
| Actions.LeadOutcome | internal/db/repository.go:442-504 | a lead makes a pending row when the tenant has neither the row nor the posting; scraping a known row again only fills a missing location or description |
| Pipeline.LastMoveDecides | internal/db/dashboard.go:162-179 | after any list of moves status and stage are those of the last one, and no column outside of the application has changed |
| Pipeline.FirstAdvanceDates | internal/db/dashboard.go:176-178 | after any list of moves applied_at is the time of the first one that advanced, unless it was set before |
| Pipeline.LastRejectionRecorded | internal/db/dashboard.go:170-172 | after any list of moves rejected_at and rejected_from_stage are the time of the last rejection and the stage that it left, `rejected` itself after two in a row |
| Pipeline.SelectsAfterMove | internal/db/closedcheck.go:15-28 | after a user move: the closed check probes the row if and only if the move cleared the stage or ghosted it, reopening looks at it if and only if it was closed, AutoGhostStale selects it if and only if it was moved to `applied` and applied_at is older than the window, an e-mail rejects it if and only if it has an applied_at and is not rejected |
| Pipeline.ProbedExactly | internal/db/closedcheck.go:15-28 | the closed check's candidates by status and stage |
| Pipeline.RejectionLands | internal/rejectionsync/rejectionsync.go:289-317 | an e-mail rejection moves the row, keeps an earlier rejected_at and logs the stage that was read |
| Pipeline.MoveLogged | internal/db/dashboard.go:152-186 | a user move logs one stage change from the stage it leaves to the one it enters, and changes no other row or table |
| Pipeline.UserArchiveLands | internal/db/dashboard.go:137-148 | an archive by the user changes the status alone and logs one status change |
| References.ReachableReferences | internal/db/migrations/sqlite/00001_baseline.sql:76-120 | in every reachable state, canonicalizations included, events and aliases name jobs that exist |
| Replay.ReachableLogReplays | internal/db/dashboard.go:150-186 | in every run without canonicalization folding a job's stage changes gives its stage, and no stage is left that was not entered, the stand-in `applied` aside |
| Replay.ReachableLogChained | internal/db/maintenance.go:183-200 | in every run without canonicalization each from_value is the previous to_value of the job if and only if every sweep wrote while the stage that it had read was still the row's, each row once; an e-mail rejection of a row without a stage logs the stand-in `applied` |
| Replay.StaleRejectionBreaksChain | internal/rejectionsync/rejectionsync.go:282-315 | a run of five steps from the empty database after which the log is not chained |
| Replay.LogGrows | internal/db/dashboard.go:244-253 | steps other than canonicalization only append to the event log |
| Reached.PreHistoryEmpty | internal/db/analytics.go:142-150 | for rows inserted without a stage the pre-history branch of the reached query is empty, over every run without canonicalization |
| Reached.ReachedRowsAreJobs | internal/db/analytics.go:129-157 | every reached row names a tracked stage of a job of the tenant |
| Reached.ReachableInOrder | internal/db/analytics.go:129-140 | in every reachable state, canonicalizations included, the event log is in the order of time |
| Reached.ReachedExactly | internal/db/analytics.go:115-157 | a tracked stage counts as reached if and only if the job stood there until its next stage change for a day, or stands there since the cutoff, or left it without entering it, or was rejected out of it |
| Canonicalize.CanonicalStatus | internal/db/canonicalize.go:477-533 | the merged status is the later one of pending, archived, closed, rejected, responded, applied; an archived alternate displaces no row; a word outside of the chain displaces nothing and yields to the last four; the first sighting is the earlier one |
| Canonicalize.FoldOnlyImproves | internal/db/canonicalize.go:262-311 | merging into an existing canonical row: the status is the merged one and never goes back, non-blank pipeline columns are kept, first_seen_at is the earlier date, hash, reason and identity stay, other rows are untouched |
| Canonicalize.FoldInherits | internal/db/canonicalize.go:180-239 | a new canonical row is born with every pipeline column of the alternate, without archive reason and resume hash; the merge after the insert adds nothing and no other row changes |
| Canonicalize.FoldFillsContent | internal/db/canonicalize.go:241-259 | content columns keep a non-blank value; blank ones take the resolved posting's value, else the alternate's |
| Canonicalize.FoldTwice | internal/db/canonicalize.go:262-311 | merging the same alternate again changes only the touch stamp |
| Canonicalize.CanonicalizeConserves | internal/db/canonicalize.go:313-324 | the event log is the old one in order with the alternate's events renamed plus one ats_resolution event; the canonical row has its own events and the alternate's, the alternate none; rejection rows are only re-keyed; other jobs' events are untouched |
| Canonicalize.SelfResolutionArchives | internal/db/canonicalize.go:139-160 | the canonical row ends archived by the transaction if and only if it is the alternate itself |
| Canonicalize.AlternateOutcome | internal/db/canonicalize.go:105-165 | the alternate ends archived as canonicalized for a primary posting, as unsupported for an unsupported one, each with its event, and otherwise only an alias is recorded |
| Canonicalize.AliasColumns | internal/db/canonicalize.go:328-384 | the columns of the alias: zero confidence and empty texts as NULL, the tenant of the first alias recorded |
| Canonicalize.MergeOrderIrrelevant | internal/db/canonicalize.go:477-533 | status and first_seen_at after merging any list of alternates are the same for every permutation |
| Canonicalize.MergeAllProjects | internal/db/canonicalize.go:275-276 | merging row by row is the fold over status and date that the order theorem is about |
| Canonicalize.FirstFilledWins | internal/db/canonicalize.go:535-546 | every other pipeline column depends on the order: after merging any list of alternates it holds its own value, or else that of the first alternate in the list that has one |
| Repository.Store.Rollback | internal/db/dashboard.go:222-242 | an error puts every table back as it was at the start of the transaction |
| Repository.Repository.CreateScoreBatch | internal/db/scorebatch.go:38-58 | creates the batch and one member per job, or changes nothing and reports an error; a repeated job or batch name is an error |
| Repository.Repository.CloseScoreBatch | internal/db/scorebatch.go:176-196 | closes an open batch and drops its members; a closed batch is left alone |
| Repository.Repository.CountOpenScoreBatches | internal/db/scorebatch.go:87-99 | counts exactly the batches that hold rows back from the sync pool |
| Repository.Repository.SumBatchJobsSubmittedSince | internal/db/scorebatch.go:159-169 | the job counts of all batches since a time, in any state |
| Repository.Repository.LandWrite | internal/db/scorebatch.go:297-333 | one write of a batch: the guarded update, then the archive exactly of a score at or below the threshold |
| Repository.Repository.ApplyBatchScoreResults | internal/db/scorebatch.go:275-362 | claims an open batch, makes of each row what its writes say (as in LandingIsRight) and adds each number of its usage to the tenant's and the host's row, all or nothing; `applied` is the number of newly scored rows; an error reports nothing applied and nothing claimed |
| Repository.Repository.DedupExistingJobs | internal/db/maintenance.go:87-119 | the three passes in order, all or nothing; each count is the number of rows that its pass archived, and they add up; what is archived for a pending copy leaves the better copy behind |
| Repository.PassesKeepArchived | internal/db/maintenance.go:5-13 | no row is counted by two passes |
| Repository.Repository.ArchiveStaleUnscored | internal/db/maintenance.go:121-141 | archives exactly the pending unscored rows older than the window, by posted_at or else first_seen_at, and counts them |
| Repository.Repository.StaleApplied | internal/db/maintenance.go:146-172 | the select of AutoGhostStale, each row once |
| Repository.Repository.GhostAll | internal/db/maintenance.go:177-204 | the transaction on the rows read earlier: each is ghosted and logged whatever its status is by now |
| Repository.Repository.AutoGhostStale | internal/db/maintenance.go:143-205 | without a step in between, exactly the rows applied before the window and not advanced are ghosted and counted, the log grows by one stage change from `applied` to `ghosted` for each, and no other table changes |
| Repository.Repository.ArchiveJob | internal/db/dashboard.go:137-148 | archives the row and logs it, or neither |
| Repository.Repository.SetPipelineStage | internal/db/dashboard.go:150-186 | moves the row and logs one stage change, or neither; an unknown row is an error |
| Repository.Repository.GetUnscoredJobs | internal/db/scoring.go:74-129 | the rows of the sync pool: unscored, scorable, described, and not a member of a counted open batch |
| Repository.Repository.RequeueStaleHighScores | internal/db/scoring.go:231-255 | un-scores exactly the stale pending rows in the band; the count is the number of rows that lost a score |
| Repository.Repository.UnarchiveAboveThreshold | internal/db/rescore.go:82-107 | revives exactly the listed, automatically archived rows above the threshold and counts them |
| Repository.Repository.RekeyDependentRows | internal/db/canonicalize.go:313-324 | re-keys the tenant's events and rejection rows of the alternate, in place |
| Repository.Repository.RecordJobAlias | internal/db/canonicalize.go:326-384 | upserts every column of the alias except the tenant of one that exists, or fails on a foreign key |
| Repository.Repository.CanonicalizeAlternateJob | internal/db/canonicalize.go:99-166 | fold, re-key, alias, archive and log as one transaction, all or nothing; the canonical row ends with the merged status; reports the merge and the canonical id, or the recorded status, or nothing on an error |
| JobSetCache.MemJobSetCache.constructor | internal/dashboard/jobsetcache.go:61-72 | an empty cache with a bound of at least one |
| JobSetCache.MemJobSetCache.Get | internal/dashboard/jobsetcache.go:74-87 | a hit returns the stored rows; a miss stores what was built; a failed build stores nothing |
| JobSetCache.MemJobSetCache.Lookup | internal/dashboard/jobsetcache.go:89-107 | hits only under the same signature within the idle time and moves the entry to the front; otherwise drops it; index and list stay a bijection |
| JobSetCache.MemJobSetCache.Store | internal/dashboard/jobsetcache.go:109-122 | overwrites or inserts at the front, then evicts; index and list stay a bijection |
| JobSetCache.MemJobSetCache.Evict | internal/dashboard/jobsetcache.go:124-137 | drops from the back while over the bound or idle-expired |
| JobSetCache.MemJobSetCache.RemoveElement | internal/dashboard/jobsetcache.go:139-142 | removes one entry from list and index |
| JobSetCacheRuns.EvictionExact | internal/dashboard/jobsetcache.go:124-137 | stopping at the first live entry is complete: what stays is exactly the newest live entries within the bound |
| JobSetCacheRuns.CacheInvariant | internal/dashboard/jobsetcache.go:74-142 | under a clock that never goes back, every sequence of lookups and stores keeps keys unique, use times ordered and the bound; after a store no idle-expired entry remains |
| JobSetCacheRuns.LookupOutcome | internal/dashboard/jobsetcache.go:89-107 | a lookup finds the slot's rows if and only if its signature is the one asked for and it was used within the idle time, and then only stamps it and moves it to the front; else it leaves no slot of the key |
| JobSetCacheRuns.HitIsFresh | internal/dashboard/jobsetcache.go:99-103 | over every run a hit comes within the idle time after some operation on its key |
| JobSetCacheRuns.HitsAreBuiltUnderSig | internal/dashboard/jobsetcache.go:78-86 | however builds interleave, a hit for a key and signature returns the rows of the last store to the key, built under that signature |
| JobSetCacheRuns.RecentlyStoredIsServed | internal/dashboard/jobsetcache.go:43-44 | a stored entry is served within the idle time if fewer than the bound of other keys were used meanwhile |
| ClosedCheck.RunInv | internal/closedcheck/closedcheck.go:46-112 | the lock, board and verdict invariants hold in every interleaving of concurrent checks |
| ClosedCheck.OneBoardPerSlug | internal/closedcheck/closedcheck.go:100-112 | at most one board is ever stored per slug |
| ClosedCheck.AshbyVerdictsAgree | internal/closedcheck/closedcheck.go:274-307 | all verdicts for one Ashby slug in a sweep come from the same fetched board |
| ClosedCheck.VerdictHasEvidence | internal/closedcheck/closedcheck.go:257-327 | in every interleaving a verdict returned or cached rests on an answer: closed for Greenhouse and Gem on 404 or 410, or on Greenhouse on another 4xx but 429 with the closed phrase, open on any other code; for Ashby on a 2xx board without, or with, the posting |
| ClosedCheck.AnswerDecides | internal/closedcheck/closedcheck.go:229-307 | whatever other calls do, a call whose fetch was answered returns what the answer says: closed after 404 or 410, open after the codes that close nothing, an error exactly after a failed fetch, else nothing |
| ClosedCheck.LocksAreReleased | internal/closedcheck/closedcheck.go:278-302 | a held slug lock belongs to a call that is not finished and can take its next step |
| ClosedCheck.SomeThreadAdvances | internal/closedcheck/closedcheck.go:278-302 | while a call is unfinished some call can take a step |
| ClosedCheck.StepsRunOut | internal/closedcheck/closedcheck.go:229-307 | a call ends after at most eight of its own steps |
| ClosedCheckRun.Run | internal/closedcheck/closedcheck.go:329-412 | the counters of a pass, group by group; it is cancelled if and only if the context is found cancelled after a group that is not the last, and then reports zeros although the groups up to there were written |
| ClosedCheckRun.TallyBalances | internal/closedcheck/closedcheck.go:376-401 | every job is counted once as checked, skipped or errored, and closed rows are among the checked ones |
| Dialect.RuleKeepsBinding | internal/db/dialect.go:38-74 | a rule whose two sides have the same number of parameters keeps, up to every cut between matches, the number of parameters and the quote state of the query |
| Dialect.MatchBalanced | internal/db/dialect.go:42-62 | every match is quote-balanced and has exactly the parameters of its pattern |
| Dialect.RenderBalanced | internal/db/dialect.go:83-104 | every replacement is quote-balanced and has exactly the parameters of its template |
| Dialect.SegmentsCover | internal/db/dialect.go:83-104 | kept characters and matches together are the query: text outside of the matches is unchanged |
| Dialect.ReplaceAllString | internal/db/dialect.go:83-104 | the leftmost, non-overlapping matches of a rule are replaced |
| Spelling.MatchIsSpelling | internal/db/dialect.go:42-62 | whatever a pattern matches is a spelling of it: its texts, white space in between, column names and intervals, character by character |
| Spelling.SpellingMatches | internal/db/dialect.go:42-62 | every spelling is matched in full, whatever follows it, and captures its column or interval |
| Spelling.DaysParamWrites | internal/db/dialect.go:83-84 | what the `datetime` of now minus a bound number of days becomes, however it is spaced |
| Spelling.LiteralWrites | internal/db/dialect.go:85-86 | what `datetime('now', '-24 hours')` becomes, for any count and unit |
| Spelling.ParamWrites | internal/db/dialect.go:87-88 | what `datetime('now', ?)` becomes |
| Spelling.NowWrites | internal/db/dialect.go:89 | what `datetime('now')` becomes |
| Spelling.TodayWrites | internal/db/dialect.go:100 | what `date('now','localtime')` becomes without a time zone |
| Spelling.TodayInZoneWrites | internal/db/dialect.go:95-96 | and with one |
| Spelling.DayWrites | internal/db/dialect.go:101 | what `date(column,'localtime')` becomes without a time zone |
| Spelling.DayInZoneWrites | internal/db/dialect.go:97-98 | and with one |
| Spelling.JulianTodayWrites | internal/db/dialect.go:103 | what `julianday('now')` becomes |
| Spelling.JulianDayWrites | internal/db/dialect.go:104 | what `julianday(column)` becomes, the guard for texts that are no dates included |
| Spelling.RulesInOrder | internal/db/dialect.go:76-113 | a translation is the eight rules in this order, with the zone where one is set, and then the INSERT OR IGNORE step |
| Spelling.InsertWrites | internal/db/dialect.go:106-111 | the first INSERT OR IGNORE becomes INSERT, and ON CONFLICT DO NOTHING goes behind the query without its trailing blanks |
| Spelling.NoInsertKept | internal/db/dialect.go:106-111 | a query without it is left alone |
| Binding.MatchBinds | internal/db/dialect.go:42-62 | a match binds exactly the arguments of the parameters in its pattern, in order |
| Binding.RuleKeepsTags | internal/db/dialect.go:83-104 | a rule whose two sides have the same number of parameters keeps, whatever the parameters of the query are tagged with, the tags in their order |
| Binding.ConflictKeepsTags | internal/db/dialect.go:106-111 | so does the INSERT OR IGNORE step |
| Binding.TranslationKeepsTags | internal/db/dialect.go:76-113 | so do all rules together, for every query and time zone, with the quote state |
| Rebind.Rebind | internal/db/dialect.go:116-138 | the byte loop numbers the parameters outside of quotes from left to right |
| Rebind.KthBecomesDollarK | internal/db/dialect.go:116-138 | the k-th `?` outside of quotes becomes `$k`, with the rest bound around it |
| Rebind.OthersCopied | internal/db/dialect.go:125-135 | every other character, quoted text above all, is copied |
| Rebind.EveryParamHasItsPlace | internal/db/dialect.go:121-132 | the numbers given are exactly 1 to the number of parameters |
| Rebind.ItoaSpells | internal/db/dialect.go:131-132 | the numbers are written in base ten without leading zeros |
| Rebind.UnbindInverts | internal/db/dialect.go:116-138 | mapping the placeholders back gives the query if and only if the query does not itself spell the next placeholder outside of quotes |
| Rebind.Rewrite | internal/db/dialect.go:76-114 | the identity on SQLite; on Postgres the rules in order, then the rebinder |
| Binding.RewriteKeepsBinding | internal/db/dialect.go:76-138 | in the rewritten statement each parameter is the placeholder of the argument that it had in the query, the k-th `?` of the query `$k`, and each argument has its placeholder |
| Analytics.SummarizeReached | internal/dashboard/analyticsdata.go:275-304 | the distinct jobs that reached each stage or a later one |
| Analytics.PageMetrics | internal/dashboard/analyticsdata.go:334-440 | the page's loops compute the health and funnel figures of the cohort sets |
| Analytics.FastEqualsFull | internal/dashboard/analyticsdata.go:316-317 | the metrics over stage changes alone equal the full metrics on every health and funnel field, for any inputs |
| Analytics.FirstAppliedIsLeast | internal/dashboard/analyticsdata.go:476-486 | a recovered application date is the earliest date of an applied event of the job |
| PageNumbers.AppliedFigure | internal/dashboard/analyticsdata.go:337-375 | applied is the number of listed jobs with a date, an applied event or a tracked stage |
| PageNumbers.ActiveFigure | internal/dashboard/analyticsdata.go:400-405 | active is the number of jobs applied or responded whose stage is no end |
| PageNumbers.StaleFigure | internal/dashboard/analyticsdata.go:407-420 | stale is the number of applied jobs, not advanced, not ended, unanswered, whose date, or else first applied event, is 21 days back or more |
| PageNumbers.AnswerFigures | internal/dashboard/analyticsdata.go:377-398 | rejected and responded are the numbers of ids rejected, and rejected or advanced; the rates are rounded to the nearest percent, halves up |
| PageNumbers.FunnelFigures | internal/dashboard/analyticsdata.go:275-304 | the numbers of ids that reached each stage, or it and the later ones |
| AnalyticsAudit.ComputeAnalyticsMetrics | internal/dashboard/analyticsdata.go:442-706 | the full path's loops compute cohorts, weeks and reconciliation counts |
| AnalyticsAudit.OneWeek | internal/dashboard/analyticsdata.go:665-689 | every stage change in the window lands in exactly one of the four weeks |
| AnalyticsAudit.WeeksAddUp | internal/dashboard/analyticsdata.go:690-705 | the four weeks add up to the window |
| AnalyticsAudit.Activity | internal/dashboard/analyticsdata.go:665-706 | the loop with its search for the week counts each week, and its totals are those of the window |
| PageNumbers.WeekFigure | internal/dashboard/analyticsdata.go:665-689 | each number of a week is that of the stage changes of its kind of an age of up to 7, over 7 to 14, over 14 to 21, over 21 to 28 days |
| AnalyticsAudit.ApplicationsAddUp | internal/dashboard/analyticsdata.go:488-507 | every application is owed to exactly one kind of evidence: its date, else an applied event, else a reached stage |
| PageNumbers.EvidenceFigure | internal/dashboard/analyticsdata.go:488-507 | each reconciliation count is the number of jobs with exactly that evidence of an application |
| AnalyticsAudit.FunnelNarrows | internal/dashboard/analyticsdata.go:296-303 | offer <= onsite <= interview; and interview and phone screen <= applied when the reached rows are jobs |
| AnalyticsAudit.RespondedCovers | internal/dashboard/analyticsdata.go:528-534 | responded is at least rejected, and for distinct jobs at least advanced |
| AnalyticsAudit.BuildAnalyticsAudit | internal/dashboard/analyticsaudit.go:38-87 | the audit warns of an inconsistency exactly when the metrics show one, and remarks exactly what there is to remark |
| PageNumbers.AuditRemarks | internal/dashboard/analyticsaudit.go:60-87 | the remarks on recovered and never moved applications name exactly these numbers, when there are any |
| AnalyticsAudit.AuditedNumbers | internal/dashboard/analyticsaudit.go:41-58 | the figures that the audit compares are those of the cohorts and the funnel of the full metrics |
| AnalyticsAudit.NeverInconsistent | internal/dashboard/analyticsaudit.go:41-58 | for distinct jobs and reached rows that are jobs neither warning can be raised |
| AnalyticsAudit.AuditNeverWarns | internal/dashboard/analyticsaudit.go:41-58 | read from one database state, whatever its rows and events are, neither warning can be raised |
| AnalyticsAudit.WarnsExactly | internal/dashboard/analyticsdata.go:443-455 | for distinct jobs the audit warns of an inconsistency if and only if, at some stage, more reached jobs are missing from the list than listed applied jobs fell short of the stage |
| Counters.ComputeStatsFromJobs | internal/dashboard/listview.go:317-360 | the loop adds up the nine buckets |
| Counters.GlobalStatsCounts | internal/db/joblist.go:22-35 | each of the nine SQL sums is the number of rows in its bucket, told by status and stage |
| Counters.GoStatsCounts | internal/dashboard/listview.go:330-358 | and each counter of the loop the number of jobs in its bucket |
| Counters.CountersDiffer | internal/db/joblist.go:22-67 | what the loop counts above the SQL sums, for any rows: NULL statuses in two buckets, pipeline rows with a NULL stage in one |
| Counters.DifferOnApplied | internal/db/joblist.go:22-67 | for rows with a status the two agree on eight buckets and differ on applied by exactly the pipeline rows without a stage |
| Counters.ReachableCountersAgree | internal/dashboard/listview.go:317-318 | in every reachable state both counters show the same nine numbers |
| Counters.BucketsNest | internal/db/joblist.go:26-35 | what is not applied is live, an offer is interviewing, and no row counts in two stages, nor as live and archived |
| GlobalBoards.GlobalStore.HarvestGlobalLead | internal/db/globaljobs.go:51-94 | a new lead is inserted, a known one takes the non-empty texts and a description that is no shorter, and both are stamped as seen now; a lead that is not to be harvested changes nothing |
| GlobalBoards.HarvestOutcome | internal/db/globaljobs.go:36-94 | what a lead does to its row, column by column, and that LinkedIn, manual, nameless and URL-less leads do nothing |
| GlobalBoards.DescriptionsGrow | internal/db/globaljobs.go:70-79 | over every run a row keeps its first sighting, its description never gets shorter and its hash stays that of the description |
| GlobalBoards.LongestIsKept | internal/db/globaljobs.go:70-74 | over every run a row's description is at least as long as each one harvested for it |
| GlobalBoards.GlobalStore.TouchGlobalJobSeen | internal/db/distribute.go:209-220 | stamps an existing row as seen now |
| GlobalBoards.SeenExactly | internal/db/globaljobs.go:80 | a row is seen since a time if and only if it was so before the run or the run stamps it at that time or later |
| GlobalBoards.VanishedExactly | internal/db/distribute.go:150-192 | the bulk close finds the rows of the listed boards last seen before the cutoff, with no sighting of their URL since; a posting without a URL has none |
| GlobalBoards.ResurfacedExactly | internal/db/distribute.go:222-246 | the reopening finds the closed rows whose URL was sighted at the time or later |
| GlobalBoards.ReopenNeedsSighting | internal/db/distribute.go:222-246 | a job that vanished at a cutoff can resurface for that time or later only through a harvest or touch that stamps a row with its URL |
| GlobalBoards.ReopenExactly | internal/db/distribute.go:243-246 | and exactly when that stamp falls at that time or later, if nothing had been seen so late before |
| GlobalBoards.ResurfacedStays | internal/db/distribute.go:150-192 | while URLs do not change, a job that resurfaced at a time never vanishes at a cutoff up to that time |
| GlobalBoards.MovedUrlVanishesAgain | internal/db/globaljobs.go:65 | a harvest that moves the sighted row to another URL makes the reopened job vanish at the same cutoff |

## Left out

- Order and limit of GetUnscoredJobs, TopPendingByKeywords and JobsToRescore; only which rows they return is modelled, and only for the first.
- Free text, identifiers and timestamps: texts and ids are numbers with 0 for the empty text, table timestamps are seconds; title, company, platform and URL stand for the trimmed, lower-cased text that the queries compare.
- An empty string in a timestamp column: it is modelled as NULL, also where the canonical insert would store the empty string.
- The column scraped_at of jobs.
- Dedup.SecondRunIdle: assumes that the engine orders equal rows the same way in both runs; Dedup.UnstableOrderBuries shows the other case.
- Replay.ReachableLogReplays: not for runs with canonicalization, which re-keys events of another row on purpose.
- Replay.ReachableLogChained: not for runs with canonicalization, for the same reason.
- Repository.Repository.ApplyBatchScoreResults: an error after the commit was sent is not modelled; a transaction either commits or leaves no trace.
- LedgerRuns.ClosedStaysClosed: a batch is closed only into a state other than `submitted`, as every caller of CloseScoreBatch does.
- Failures of single-statement methods, which change nothing, and row-level security, connection pools and the serialization of concurrent transactions: each transaction is atomic.
- JobRowID and its hash: the row id of a resolved posting or a scraped lead is a parameter.
- Resolution of postings, fetches, JSON and regular-expression matches on page bodies: their outcomes are parameters of the steps.
- AutoCloseEligibility: URL parsing decides what is probed; the model starts from its result.
- JobSetCache.MemJobSetCache.Get: copying row slices for callers is not modelled, rows are values; the build runs between the two atomic halves, which JobSetCacheRuns interleaves.
- Dialect.ReplaceAllString: the regular expressions are modelled as token lists with optional white space, whose greedy match is the only one; the time zone is assumed to hold no quote, question mark or dollar sign, as no IANA name does.
- Analytics.PageMetrics: rates are rounded exactly instead of in floating point, and a timestamp is any text with a parse function as a parameter.
- AnalyticsAudit.ComputeAnalyticsMetrics: leaves out score calibration, outcomes by platform, recommended moves and the contributor lists, which are lists for display and feed nothing that the audit compares.
- AnalyticsAudit.BuildAnalyticsAudit: takes the numbers of low-confidence score rows and thin platform rows as parameters, because calibration and platform rows are left out.
- The circuit breaker, the grace window and the liveness probe of the closed-by-diff pass in the scheduler.
- Deleting a tenant, seeding jobs from the global table, extracts, company notes and all HTTP handlers.
