# Fault tolerance of a volunteer compute fleet

This project models how a coordinator, its stores, its workers and its drivers survive dead
machines, late or duplicated commits, coordinator restarts, torn checkpoints and outlying
contributors, and proves what that promise comes to.

**Leases** (`Lease*.dfy`). `LeaseSpec.Handle` turns a request into the list of effects the
coordinator issues, in its order: events emitted and records saved. A coordinator that dies in the
middle of a request has performed a prefix of that list and never replies. `LeaseManager` holds the
mutable records, the store and the manager as classes, each method proved to perform exactly the
effects of `Handle`. `LeaseRuns` is the distributed system: any requests in any order, so any number
of workers and any delay, duplication or loss, with the coordinator cut off after any effect and
reloaded from its table. `LeaseRefinement` sets the durable store beside the in-memory one,
`LeaseAccounting` counts events, `LeaseDrain` counts claims, `LeaseOutcomes` says on the records'
fields alone what each request does: which leases a sweep ends, whom a claim picks, until when a
lease is live. Time is a number given with each request; a lemma that needs it not to go back says
so. Lease ids drawn by a claim are new to the table. One class, `LeaseManager.LeaseStore`, stands
for both stores: with no database it is the in-memory one.

**Checkpoints and resume** (`Catalog*.dfy`, `Checkpoint*.dfy`, `LocalCheckpoints.dfy`, `Sgd*.dfy`).
The catalog is a class over its two dictionaries, with a function `CatalogSpec.Apply` for runs. The
local disk is a map of directories changed by writes that may stop anywhere; a manifest is written
in two writes, the first leaving it torn, which is taken not to parse. Hashes are ideal: a digest is
what it was computed from. The trainer runs over exact reals with the logistic function and the
logarithm parameters; `SgdMeaning` says what a step, the loss and an attempt's files are in plain
arithmetic. `SgdRecovery` combines the trainer with the real catalog, an artifact store, relays that
ship files late, in part or never, and other tasks that use the same store and catalog under keys
and scopes of their own. A hypothesis there: the trainer's write of a checkpoint file is atomic.
`write_text` (`flashruntime/flashml_workloads/sgd_trainer.py:96-99`) is not, so a relay that read a
file while it was being written, or after a kill in the middle of the write, is outside the result.

**Federated averaging** (`FedAvg*.dfy`, `Mixing.dfy`, `Permutations.dfy`). Floats are exact reals.
The square root is a parameter, assumed to give the non-negative number whose square is its
argument. The reduce is a function with a method that computes it by nested loops; the driver is a
state machine (`FedAvgRounds`) with a class (`FedAvgDriver`) whose loops perform its steps.
`FedAvgProgress` says when a round goes through, what it then saves and where a restart takes up
again. The weakness the reduce documents for two contributors is one of every even number of them:
`FedAvgRobust.HalfIsNotAMajority` shows that the strict majority in `FedAvgRobust.BoundedInfluence`
cannot be weakened to half.

**Committed artifacts** (`ArtifactService.dfy`). The artifact directory beside the lease table, with
the write authorisation and the check a result passes before it is committed. To the lease table
every life of the service is a run of the protocol above. Keys are paths in normal form and hashes
are ideal. Completing an attempt reads the clock twice, once for failing a result that does not
check out and once for committing; the second reading is taken not to be earlier, or a lease that
had lapsed at the first could be live again at the second.

**K-means** (`KMeans*.dfy`). Exact reals; the shard worker, the reduce and the driver are methods
proved against one Lloyd iteration over all the rows. An iteration's job is a stretch of a life of
the service; what its files parse to is a parameter. Workers are taken to be honest in one of two
ways: with credentials enforced, whoever gets a shard's result accepted had run the worker on it; or
whoever writes a shard's result writes the worker's.

**Restarts and the executor** (`RecoveryPolicy.dfy`, `RestartLoop.dfy`, `RestartRecord.dfy`,
`ExecutorLoop.dfy`, `FleetAccounting.dfy`). `RecoveryPolicy.ClassifyMeans` and
`RecoveryPolicy.ActionsMean` read the classification and the policy table backwards: which signals
make a class, which classes get an action. Launches, claims and task outcomes come from an arbitrary
environment; log and message patterns are what a search for them finds.

Where the code and its own comments differ, the model follows the code:

- The catalog's comments say a quarantined manifest is never selectable again
  (`flashruntime/flashruntime/checkpoint/catalog.py:12-14` and `:135-137`). `mark_restore_verified`
  does not look at the quarantine, so it lifts it. `CatalogRuns.QuarantineCanBeLifted` gives the
  run, `CatalogRuns.QuarantineHoldsUntilRestored` says exactly when a manifest is still quarantined.
- The catalog's comments say the expected parts must exactly match the registered ones (`:4-8`). The
  code asks that each expected part be registered with an equal hash; sizes are not compared and
  further registered parts are ignored. `CatalogRuns.CommitsNeedNotBeExact` gives both inputs,
  `CatalogRuns.CommitIsExactWhen` the exact condition.
- The executor's comments say its loop exits only on stop or at its task limit and that failures are
  reported, not raised (`flashnode/flashnode/executor/loop.py:14-16`). An error of the client itself
  while a task runs (a download, an upload, an offered result) is not caught there and ends the
  loop, as does one of the health check itself; a drained queue with `idle_exit` and a bad health
  check end it too. `ExecutorLoop.ARaiseEndsTheLoop` gives the inputs,
  `ExecutorLoop.EndsOnlyByStopOrLimitWhen` and `ExecutorLoop.DiesOfTheFirstRaise` the exact
  conditions.
- The restart loop speaks of the winning attempt's metrics (`flashruntime/flashruntime/sdk.py:356`).
  It keeps those of the last launch that left any, also when the parameter set failed.
  `RestartLoop.TrialNeedNotBeTheWinners` gives two environments, `RestartLoop.TrialIsTheWinnersWhen`
  and `RestartLoop.TrialIsNotTheWinnersWhen` the exact conditions.

## Model

| member | source | states |
|---|---|---|
| LeaseRuns.ExactlyOneCommit | flashruntime/flashruntime/leases/manager.py:165-203 | over every run with any delays, duplicates, losses and crash points, at most one commit of a task is ever answered True |
| LeaseRuns.CommitIsForever | flashruntime/flashruntime/leases/manager.py:191-203 | from the accepted commit on, in every later state and across restarts, the task is COMPLETED with that lease id and nothing else about it changes |
| LeaseRuns.RepliesFollowLiveness | flashruntime/flashruntime/leases/manager.py:151-218 | heartbeat and fail succeed, and complete answers True, exactly when the lease is live; complete is an error exactly for leases that never existed |
| LeaseRuns.DeadStaysDead | flashruntime/flashruntime/leases/manager.py:313-342 | with a clock that does not go back, a lease once not live is refused by every later heartbeat and fail and answered False by every later complete |
| LeaseRuns.DeadLeaseOpensNoScope | flashruntime/flashruntime/leases/manager.py:263-293 | with a clock that does not go back, a lease once not live opens no write scope again: a node may write to a task exactly through another live lease |
| LeaseRuns.WriteScopesDisjoint | flashruntime/flashruntime/leases/manager.py:263-293 | no two nodes may write to the same task at the same time |
| LeaseRuns.ScopeIsLiveLeases | flashruntime/flashruntime/leases/manager.py:263-293 | a node's write scope is exactly the tasks whose active lease is its own and not past its deadline |
| LeaseRuns.StepKeeps | flashruntime/flashruntime/leases/manager.py:71-311 | every request, whole or cut by a crash after any effect, keeps the table invariant, only moves records forward, and revives no dead lease |
| LeaseSafety.HandleLegal | flashruntime/flashruntime/leases/manager.py:71-311 | every record any request saves is a legal move of the record before it |
| LeaseSafety.LegalKeepsTable | flashruntime/flashruntime/leases/manager.py:127-149 | legal effects keep keys unique, lease histories apart, attempts numbered and within the maximum, and a lease active only while LEASED |
| LeaseRefinement.RestartsAreInvisible | flashruntime/flashruntime/leases/sqlite_store.py:84-169 | a run on the SQLite store with restarts between requests has the same table in the same order and the same answers as the run on the in-memory store with none |
| LeaseRefinement.FileIsTheCache | flashruntime/flashruntime/leases/sqlite_store.py:84-101 | in every state of every durable run, wherever it crashed, the rows ordered by seq decode to exactly the cache |
| LeaseRefinement.DurableRunsAreRuns | flashruntime/flashruntime/leases/sqlite_store.py:139-169 | every durable run, crashes and all, is a run of the protocol, so every result about runs holds of it |
| LeaseRefinement.WritesStayInStep | flashruntime/flashruntime/leases/sqlite_store.py:105-116 | each write-through of an add or a save leaves rows and cache in step |
| LeaseTable.SyncedIsUnique | flashruntime/flashruntime/leases/sqlite_store.py:84-101 | only one table can be read back from the rows in seq order |
| LeaseTable.UpsertSynced | flashruntime/flashruntime/leases/sqlite_store.py:139-169 | an upsert keeps an existing row's seq and place and gives a new row the next seq and the last place |
| LeaseTable.OrderBySeq | flashruntime/flashruntime/leases/sqlite_store.py:85-89 | the rows in seq order, each the row of the table's record at that place |
| LeaseAccounting.LeasesAreAccountedFor | flashruntime/flashruntime/leases/manager.py:127-149 | in every crash-free run, attempts equal history entries equal claim events and stay within the maximum, attempt numbers are 1 to attempts, LEASED holds exactly while a lease is active, and claims equal accepted plus failed plus expired plus active plus cancelled |
| LeaseAccounting.CompletedTasksAreCommits | flashruntime/flashruntime/leases/manager.py:179-203 | in every state the completed tasks number the commits answered True plus those whose answer a crash swallowed |
| LeaseDrain.DrainIsExact | flashruntime/flashruntime/leases/manager.py:86-149 | if every worker dies, under any policy that names a pending task whenever there is one, exactly as many claims succeed as the queue has attempts left; then every claim finds nothing and every task is FAILED |
| LeaseDrain.QueueOrderNamesPending | flashruntime/flashruntime/leases/store.py:87-93 | the plain queue order is such a policy |
| LeaseDrain.GrantSpendsOneAttempt | flashruntime/flashruntime/leases/manager.py:86-149 | a claim lowers the total of attempts left by one if it succeeds and by nothing if not |
| LeaseDrain.FreshBudget | flashruntime/flashruntime/leases/manager.py:71-74 | a fresh queue's attempts left are the sum of its maxima |
| LeaseDrain.ClaimMeans | flashruntime/flashruntime/leases/manager.py:103-149 | a claim sweeps, then leases exactly the task its policy or queue order picks, or changes nothing more |
| LeaseOutcomes.SweepMeans | flashruntime/flashruntime/leases/manager.py:222-242 | a sweep takes the lease from exactly the LEASED tasks whose deadline has come, which go back to PENDING with attempts left and to FAILED without, leaves every other record as it was, and answers how many there were |
| LeaseOutcomes.SweepShowsTheLate | flashruntime/flashruntime/leases/manager.py:228-241 | a sweep performs three effects for each late lease and no others: its expiry, its release, its save |
| LeaseOutcomes.ClaimTakes | flashruntime/flashruntime/leases/manager.py:103-149 | a claim ends the late leases and then hands out the first pending task in insertion order, of the job asked for or the one the policy names, under a lease with the next attempt number and a deadline a full window ahead; it answers nothing exactly when there is no such task |
| LeaseOutcomes.LiveLeasesAreLeftAlone | flashruntime/flashruntime/leases/manager.py:228-231 | no sweep and no claim of anyone touches a task whose lease has its deadline ahead |
| LeaseOutcomes.HeartbeatRenews | flashruntime/flashruntime/leases/manager.py:151-163 | a heartbeat for a live lease sets its deadline a full window past now and changes nothing else |
| LeaseOutcomes.CompleteCommits | flashruntime/flashruntime/leases/manager.py:191-203 | a completion of a live lease makes its task COMPLETED under that lease id and touches no other, already after the first effect |
| LeaseOutcomes.FailReleases | flashruntime/flashruntime/leases/manager.py:205-218 | a failure report for a live lease makes its task PENDING with attempts left and FAILED without, and touches no other |
| LeaseOutcomes.DeadLeasesSaveNothing | flashruntime/flashruntime/leases/manager.py:180-190 | a heartbeat, completion or failure report for a lease nobody holds live changes no task; which answer and which event it gets, by whether the lease was ever issued |
| LeaseOutcomes.AddAppends | flashruntime/flashruntime/leases/manager.py:71-74 | a task under a new key joins the end of the queue PENDING with nothing spent; a taken key is refused |
| LeaseOutcomes.CancelWithdraws | flashruntime/flashruntime/leases/manager.py:76-82 | a task that has not ended loses its lease and is CANCELLED, without an event; one that has ended stays |
| LeaseOutcomes.GrantIsSavedFirst | flashruntime/flashruntime/leases/manager.py:137-149 | a granting claim performs the sweep, then saves the record under its lease, then announces it |
| LeaseOutcomes.LeaseLivesItsWindow | flashruntime/flashruntime/leases/manager.py:127-163 | a lease granted or renewed at a time is live for exactly the task's window from then, and until then opens the task to its own node and no other |
| LeaseManager.LeaseManager.AddTask | flashruntime/flashruntime/leases/manager.py:71-74 | performs exactly the specified effects and reply; a taken key changes nothing |
| LeaseManager.LeaseManager.CancelTask | flashruntime/flashruntime/leases/manager.py:76-82 | withdraws a task that is not terminal, without an event; is idempotent on terminal ones |
| LeaseManager.LeaseManager.Claim | flashruntime/flashruntime/leases/manager.py:86-149 | sweeps, picks, saves, then emits, as specified; on the records, it ends the late leases and grants the first task wanted, or nothing when there is none |
| LeaseManager.LeaseManager.Heartbeat | flashruntime/flashruntime/leases/manager.py:151-163 | renews the active lease of a live lease and leaves the history alone; refuses any other |
| LeaseManager.LeaseManager.Complete | flashruntime/flashruntime/leases/manager.py:165-203 | accepts a live lease's commit, saving before it emits; rejects any other with an event |
| LeaseManager.LeaseManager.Fail | flashruntime/flashruntime/leases/manager.py:205-218 | reports and releases a live lease; refuses any other |
| LeaseManager.LeaseManager.SweepExpired | flashruntime/flashruntime/leases/manager.py:222-242 | expires exactly the LEASED tasks whose deadline has come, in table order, leaves every other record alone, and counts them |
| LeaseManager.LeaseManager.Release | flashruntime/flashruntime/leases/manager.py:297-311 | emits, then saves: requeued while attempts remain, FAILED once they are used up |
| LeaseManager.LeaseManager.Locate | flashruntime/flashruntime/leases/manager.py:328-336 | finds the first record with the lease in its history |
| LeaseManager.LeaseManager.Choose | flashruntime/flashruntime/leases/manager.py:105-124 | the pending task of the queue order, or of the policy's answer if it names one |
| LeaseManager.LeaseManager.LiveLeasesForNode | flashruntime/flashruntime/leases/manager.py:263-293 | computes the node's write scope |
| LeaseManager.LeaseStore.Open | flashruntime/flashruntime/leases/sqlite_store.py:84-101 | rebuilds the cache from the file in seq order and resumes numbering after its last row |
| LeaseManager.LeaseStore.Add | flashruntime/flashruntime/leases/sqlite_store.py:105-113 | appends a record under a new key, in cache and file alike; refuses a taken key |
| LeaseManager.LeaseStore.Save | flashruntime/flashruntime/leases/sqlite_store.py:115-116 | brings the file back in step with a changed record, in its place |
| LeaseManager.LeaseStore.NextPending | flashruntime/flashruntime/leases/store.py:87-93 | the first pending task in insertion order, of the job if one is named |
| LeaseManager.LeaseStore.ListLeased | flashruntime/flashruntime/leases/store.py:95-96 | the live records that are LEASED, in insertion order |
| FedAvgRobust.BoundedInfluence | flashruntime/flashml_workloads/fedavg_weights.py:171-203 | if a strict majority of contributions has norm at most B, the reduced delta has norm at most clip_factor times B, whatever the rest send |
| FedAvgRobust.MedianIsHonest | flashruntime/flashml_workloads/fedavg_weights.py:182-197 | the median of odd or even many values lies in any range that holds a strict majority of them |
| FedAvgRobust.CapIsHonest | flashruntime/flashml_workloads/fedavg_weights.py:346-347 | so does the cap, scaled by the clip factor |
| FedAvgRobust.ClippedIsWithinCap | flashruntime/flashml_workloads/fedavg_weights.py:350-358 | after clipping no contribution is longer than the cap |
| FedAvgRobust.MeanWithinCap | flashruntime/flashml_workloads/fedavg_weights.py:360-367 | the sample-weighted mean of contributions within the cap is within the cap |
| FedAvgRobust.HalfIsNotAMajority | flashruntime/flashml_workloads/fedavg_weights.py:186-191 | for every even number of contributors, clip factor and distance, there is a round with exactly half at rest whose result is that far out, and from a factor of two on nobody in it is clipped |
| FedAvgAlgebra.ApplyUndoesSubtract | flashruntime/flashml_workloads/fedavg_weights.py:145-168 | applying to the base the difference of new and base gives new, whatever order the two list their parameters in |
| FedAvgAlgebra.CoordinateInHull | flashruntime/flashml_workloads/fedavg_weights.py:360-367 | each entry of the result lies between the least and greatest clipped contributions' entries |
| FedAvgAlgebra.ReduceReordered | flashruntime/flashml_workloads/fedavg_weights.py:346-368 | a reordering of a valid round is valid, changes no entry of the result, and each clip event moves with its contribution, once, in position order |
| FedAvgAlgebra.ReducingAConcatenation | flashruntime/flashml_workloads/fedavg_weights.py:206-211 | with nobody clipped, reducing two groups together is the sample-weighted combination of reducing them apart |
| FedAvgAlgebra.EventsAreTheClipped | flashruntime/flashml_workloads/fedavg_weights.py:348-358 | the report holds exactly one event per position above the cap, in position order, with the norm, cap and scale applied, and none for any other |
| FedAvgAlgebra.HonestRoundIsUntouched | flashruntime/flashml_workloads/fedavg_weights.py:339-368 | a round with nobody above the cap is the plain sample-weighted mean with an empty report |
| FedAvgReduce.Check | flashruntime/flashml_workloads/fedavg_weights.py:256-332 | the guards in order: clip factor, no contributions, total, each count by index, layouts |
| FedAvgReduce.ClipAll | flashruntime/flashml_workloads/fedavg_weights.py:348-358 | the clipping loop computes the clipped contributions and the report |
| FedAvgReduce.ReduceDeltasWithReport | flashruntime/flashml_workloads/fedavg_weights.py:221-368 | the whole reduce, guards, cap, clip, report and weighted mean, is the reduce the results are about |
| FedAvgProgress.ReducesWhen | flashruntime/flashml_workloads/fedavg_weights.py:256-332 | a reduce succeeds exactly for a positive clip factor and at least one contribution, all with samples and of one layout |
| FedAvgProgress.RefusalMeans | flashruntime/flashml_workloads/fedavg_weights.py:256-332 | which refusal it is otherwise, each with its exact condition |
| FedAvgProgress.OutliersAreBeyondThreeMedians | flashruntime/flashml_workloads/fedavg_weights.py:346-358 | with the driver's factor nobody within three times the median norm is scaled or reported, and anybody beyond is scaled to it and reported with it |
| FedAvgProgress.AggregatesWhen | flashruntime/flashml_workloads/fedavg_driver.py:581-602 | new weights exist exactly when the contributions reduce to something of the weights' layout or there are no weights yet; they are then the reduction itself, or entry by entry the weights plus it |
| FedAvgProgress.GoodRoundGoesThrough | flashruntime/flashml_workloads/fedavg_driver.py:578-606 | contributions with samples and all of one layout always aggregate onto weights of that layout or none, and what they make has the layout again |
| FedAvgProgress.ResumePointMeans | flashruntime/flashml_workloads/fedavg_driver.py:371-402 | a restart takes up after the newest carried round with saved weights, refuses exactly when those are empty or when none is saved and no carried round is the first, and starts afresh otherwise |
| FedAvgHistory.RoundsAreNeverRepeatedOrSkipped | flashruntime/flashml_workloads/fedavg_driver.py:519-624 | in every run, however often the driver crashes and resumes, the aggregated rounds are 0, 1, 2, ... once each, each the previous weights plus the reduction of its own frozen quorum, and exactly those weights are saved |
| FedAvgHistory.ResumesAfterTheLastRound | flashruntime/flashml_workloads/fedavg_driver.py:371-402 | given every aggregated round, a restart leaves off exactly after the last; it refuses only when that round's saved weights are empty |
| FedAvgHistory.StepKeeps | flashruntime/flashml_workloads/fedavg_driver.py:519-606 | each start, submission, aggregation and crash keeps the invariant of the history |
| FedAvgHistory.HonestEventsLeadOn | flashruntime/flashml_workloads/fedavg_driver.py:519-606 | every honest event of a reached state leads to a reached state |
| FedAvgHistory.HistoryIsFinal | flashruntime/flashml_workloads/fedavg_driver.py:604-606 | no later event changes an aggregated round or its saved weights |
| FedAvgHistory.RoundMovesBoundedly | flashruntime/flashml_workloads/fedavg_driver.py:581-602 | if a strict majority of a round's contributions has norm at most B, the round moves the saved weights by at most three times B |
| FedAvgHistory.ClipReportNamesTheOutliers | flashruntime/flashml_workloads/fedavg_driver.py:584-592 | a round's clip report names exactly the participants whose own contribution exceeded the cap, with that norm and cap |
| FedAvgRounds.NewestFirstSorts | flashruntime/flashml_workloads/fedavg_driver.py:371 | the carried pairs, in any order, are probed newest round first, greatest job id first within a round, and none is lost |
| FedAvgRounds.ParticipantsAreCommittedTasks | flashruntime/flashml_workloads/fedavg_driver.py:196-231 | participants are distinct dispatched tasks that completed, as many as committed keys, and no upload under another key or by an uncompleted task adds one |
| FedAvgRounds.PresentIsFrozen | flashruntime/flashml_workloads/fedavg_driver.py:223-231 | whatever is listed of a job with distinct tasks and keys, its tasks that are listed and completed are the participants frozen |
| FedAvgDriver.Driver.ResumeState | flashruntime/flashml_workloads/fedavg_driver.py:333-402 | the probe loop finds the newest carried round with saved weights, with its three refusals and fresh start |
| FedAvgDriver.Driver.Dispatch | flashruntime/flashml_workloads/fedavg_driver.py:529-544 | submits and records a round exactly when its task ids are distinct and enough for the quorum; refuses any other |
| FedAvgDriver.Driver.Gather | flashruntime/flashml_workloads/fedavg_driver.py:578-606 | goes through exactly with at least the quorum of participants and contributions that reduce to something of the weights' layout, or there are no weights yet; then it saves, under its job and round, the weights plus the reduction, or the reduction itself; otherwise nothing |
| FedAvgDriver.Driver.RunFedAvg | flashruntime/flashml_workloads/fedavg_driver.py:519-624 | the remaining rounds in order, each as played, keeping the invariant of the history; it returns exactly when all are done, and always does if every round reaches the quorum with samples of one layout |
| FedAvgDriver.Driver.Restart | flashruntime/flashml_workloads/fedavg_driver.py:333-402 | a restart from any honest history refuses only when the last round's saved weights are empty, and otherwise goes on from that round, to the end if every round is good |
| KMeansDescent.LloydDescends | flashruntime/flashml_workloads/kmeans_driver.py:31-52 | one iteration never raises the cost |
| KMeansDescent.AssignmentStep | flashruntime/flashml_workloads/kmeans_shard.py:37-40 | assigning each row to its nearest centroid does not raise the cost |
| KMeansDescent.MeanStep | flashruntime/flashml_workloads/kmeans_driver.py:48-51 | with each row left in its cluster, no centroids at all cost less than those an iteration gives |
| KMeansDescent.CentroidsAreMeans | flashruntime/flashml_workloads/kmeans_driver.py:48-51 | times its count, a new centroid is in every coordinate the sum of its members; one without members stays |
| KMeansDescent.CountIsMembers | flashruntime/flashml_workloads/kmeans_driver.py:35-47 | a cluster's count is the number of rows nearest to its centroid |
| KMeansDescent.ClusterImproves | flashruntime/flashml_workloads/kmeans_driver.py:48-51 | no point serves a cluster's members better than its new centroid |
| KMeansDescent.MeanIsBest | flashruntime/flashml_workloads/kmeans_driver.py:48-51 | a cluster's mean minimises its members' squared deviation |
| KMeansDescent.NearestIsFirstLeast | flashruntime/flashml_workloads/kmeans_shard.py:36-40 | the assigned centroid is the first at the least distance |
| KMeansSharding.ShardingInvariance | flashruntime/flashml_workloads/kmeans_driver.py:31-52 | reducing the partials of any partition gives the centroids and cost of one pass over all rows |
| KMeansSharding.RoundRobinPartitions | flashruntime/flashml_workloads/kmeans_driver.py:75-76 | the round-robin shards hold every row exactly once |
| KMeansSharding.ShardIsEveryNth | flashruntime/flashml_workloads/kmeans_driver.py:76 | shard s is rows s, s+n, s+2n, ... and nothing else |
| KMeansDriver.RunShard | flashruntime/flashml_workloads/kmeans_shard.py:22-53 | the row loop computes the sums, counts, cost and row count of the rows that are not blank; it fails exactly when one of those is too short |
| KMeansDriver.CleaningDropsTheBlank | flashruntime/flashml_workloads/kmeans_shard.py:30-34 | what the worker counts is every row that is not blank, as often as it occurs |
| KMeansDriver.Closest | flashruntime/flashml_workloads/kmeans_shard.py:36-40 | the centroid loop finds the nearest centroid and its distance |
| KMeansDriver.ReducePartials | flashruntime/flashml_workloads/kmeans_driver.py:31-52 | the nested loops give centroids that times the summed counts are the summed sums, the old centroid where the counts sum to none, and the summed cost |
| ArtifactService.ServiceRunsAreRuns | flashruntime/flashruntime/service/modea.py:711-814 | to the lease table every life of the service, writes, offers, crashes and all, is a run of the protocol, so every result about runs holds of it |
| ArtifactService.EveryCommitWasChecked | flashruntime/flashruntime/service/modea.py:711-744 | in every state each completed task was completed by an offer made while its result was in place with the claimed hash, and its result is still there |
| ArtifactService.CommittedResultIsFrozen | flashruntime/flashruntime/service/modea.py:783-806 | with credentials enforced and no operator writing it, a committed result keeps the accepted hash ever after, whatever any node writes |
| ArtifactService.OnlyItsLeaseCompletes | flashruntime/flashruntime/service/modea.py:738-744 | only a completion offered for a task's live lease completes it |
| ArtifactService.OfferOutcome | flashruntime/flashruntime/service/modea.py:728-746 | an offer under a live lease completes its task if the result is in place with the claimed hash, and otherwise fails the lease: another try or the end of them; no other task changes |
| ArtifactService.LateOffersChangeNothing | flashruntime/flashruntime/service/modea.py:731-746 | an offer under a lease nobody holds live changes no task |
| ArtifactService.WriteIsAllowedWhen | flashruntime/flashruntime/service/modea.py:544-556 | a write is let through exactly with no credentials enforced, for an operator, or under the prefix of a task whose active lease is the node's own with its deadline ahead |
| ArtifactService.PrefixesApart | flashruntime/flashruntime/service/modea.py:549-557 | with ids of one path segment, one task's write prefix covers no other task's result |
| ArtifactService.SucceededMeans | flashruntime/flashruntime/service/modea.py:845-861 | a job's state is SUCCEEDED exactly when it has tasks and all of them are completed |
| ArtifactService.JobStatesMean | flashruntime/flashruntime/service/modea.py:845-861 | each other job state on the states of its tasks |
| KMeansJobs.ShardFilesDiffer | flashruntime/flashruntime/service/modea.py:212-232 | each shard has a task id and commit key of its own, however many shards there are |
| KMeansJobs.SucceededJobsHoldEveryShard | flashruntime/flashruntime/service/modea.py:824-839 | once a job has succeeded, every shard's result is among its artifacts in any listing, and what is fetched then is what the worker made of that shard, which it could read |
| KMeansJobs.CountIsRightWhen | flashruntime/flashml_workloads/kmeans_driver.py:123-130 | after a job has succeeded the driver's count is right exactly when no artifact but the shards' results has a name ending in metrics.json |
| KMeansJobs.AnIterationCanBeServed | flashruntime/flashruntime/service/modea.py:206-232 | for any one readable shard there is a life of the service in which its job is added, run, committed and seen by the driver |
| KMeansDriver.RunKMeans | flashruntime/flashml_workloads/kmeans_driver.py:85-134 | whatever becomes of its jobs, it returns exactly when every iteration's job succeeds with no file but its shards' results named as metrics; then the centroids are those of one pass per iteration and the recorded costs never rise; otherwise it raises in the first iteration that does not |
| KMeansDriver.RunIteration | flashruntime/flashml_workloads/kmeans_driver.py:111-131 | one iteration returns exactly when its job is done with one metrics file per shard, and is then one pass over all the rows; which error it raises otherwise |
| KMeansDriver.Collect | flashruntime/flashml_workloads/kmeans_driver.py:123-126 | fetches what ends in metrics.json in listing order, and raises exactly when some of it does not parse |
| KMeansDriver.CostNeverRises | flashruntime/flashml_workloads/kmeans_driver.py:98-132 | over any number of iterations the cost never goes up |
| KMeansDriver.AnyListing | flashruntime/flashml_workloads/kmeans_driver.py:123-131 | partials listed in any order reduce to one iteration over all the rows |
| KMeansDriver.RoundRobinShardsServe | flashruntime/flashml_workloads/kmeans_driver.py:69-82 | the uploaded shards satisfy what the run theorem asks of a partition |
| SgdRecovery.CrashScheduleDoesNotMatter | flashruntime/flashml_workloads/sgd_trainer.py:66-114 | for any attempts killed at any steps, any relaying and any other tasks on the same catalog, every attempt that finishes reports the weights, bias and loss an uninterrupted run reports |
| SgdRecovery.StepKeeps | flashnode/flashnode/executor/loop.py:110-130 | every attempt, shipment, quarantine and operation of another task leaves every stored checkpoint of this one on the one trajectory and each of its manifests downloadable |
| SgdRecovery.ResumesAtTheNewest | flashnode/flashnode/executor/loop.py:333-340 | an attempt resumes from the checkpoint of the newest selectable step, and fresh only when there is none |
| SgdRecovery.ResumesFromItsOwnScope | flashnode/flashnode/executor/loop.py:333-340 | whoever else uses the catalog, an attempt resumes at the newest unquarantined manifest of its own task, with the model of that step of its own run, and afresh exactly when it has none |
| SgdRecovery.ShippingMeans | flashnode/flashnode/executor/loop.py:116-127 | what one file leaves in the store and the catalog when its relay stops after the upload, after registering, or not at all |
| SgdRecovery.AdvanceJoins | flashruntime/flashml_workloads/sgd_trainer.py:79-94 | training on from any point of a run is the run itself |
| SgdRecovery.ResumedAttemptFinishes | flashruntime/flashml_workloads/sgd_trainer.py:100-102 | the kill hook fires only on a fresh start, so a resumed attempt left alone finishes |
| SgdTrainer.RunTrainer | flashruntime/flashml_workloads/sgd_trainer.py:56-114 | the step loop reports the model after the last step with its loss and start, writes exactly the checkpoints due before the last step, each the model then, and dies exactly of a hook that a fresh attempt reaches |
| SgdTrainer.Step | flashruntime/flashml_workloads/sgd_trainer.py:81-94 | one pass of the loop body moves each weight and the bias against the slope of the four samples drawn, by the learning rate over four |
| SgdMeaning.StepFollowsTheSlope | flashruntime/flashml_workloads/sgd_trainer.py:81-94 | four times the change of each weight is minus the learning rate times the sum, over the four samples drawn, of prediction less label times the coordinate; of the bias, without the coordinate |
| SgdMeaning.NeverUphill | flashruntime/flashml_workloads/sgd_trainer.py:92-94 | with a learning rate that is not negative no step points up the slope of its samples' loss |
| SgdMeaning.RunsStartFromZero | flashruntime/flashml_workloads/sgd_trainer.py:71-80 | a fresh run starts with all weights and the bias zero and takes its steps one by one |
| SgdMeaning.LossIsTheMean | flashruntime/flashml_workloads/sgd_trainer.py:46-53 | times the number of samples, the loss is the sum of their cross-entropies with the prediction kept from zero and one |
| SgdMeaning.FilesAreTheDueOnes | flashruntime/flashml_workloads/sgd_trainer.py:96-99 | an attempt's files are the checkpoints at exactly the multiples of the interval after its start and before the last step, each the model then, in order |
| SgdMeaning.AttemptReports | flashruntime/flashml_workloads/sgd_trainer.py:104-114 | an attempt not killed reports the model after the last step, its loss, where it started and whether it resumed |
| SgdTrainer.Loss | flashruntime/flashml_workloads/sgd_trainer.py:46-53 | the loop computes the mean clamped cross-entropy |
| SgdTrainer.Gradient | flashruntime/flashml_workloads/sgd_trainer.py:84-91 | the batch loop sums each coordinate of the gradient |
| SgdTrainer.BatchesAreFair | flashruntime/flashml_workloads/sgd_trainer.py:79-85 | over any n consecutive steps, wherever they start, each of the n samples is drawn exactly BATCH times |
| SgdTrainer.BatchIsConsecutive | flashruntime/flashml_workloads/sgd_trainer.py:82-83 | the nested remainders are four consecutive numbers, wrapped once |
| CheckpointRelay.Relay.ShipNew | flashnode/flashnode/executor/loop.py:110-130 | one pass ships each unshipped file as far as it gets, remembers exactly those committed, and never stops at a failure |
| CheckpointRelay.ShippedFilesAreLeftAlone | flashnode/flashnode/executor/loop.py:114-115 | a pass over any files is a pass over those not shipped yet |
| CheckpointRelay.SweepsStayOnTrajectory | flashnode/flashnode/executor/loop.py:110-130 | a pass, however it fails, does only what the recovery theorem allows |
| CheckpointRelay.CleanSweepResumes | flashnode/flashnode/executor/loop.py:103-108 | after a pass in which nothing fails, the task resumes at or after every file shipped |
| CatalogRuns.EveryManifestWasBacked | flashruntime/flashruntime/checkpoint/catalog.py:85-118 | in every run each stored manifest was backed at its commit by registered parts with equal hashes, and no two share an id |
| CatalogRuns.LatestIsNewest | flashruntime/flashruntime/checkpoint/catalog.py:144-169 | the selection is the first of the highest ranked among exactly the verified, compatible, unquarantined manifests of the job |
| CatalogRuns.SelectionIsBest | flashruntime/flashruntime/checkpoint/catalog.py:152-169 | there is a selection exactly when some stored manifest is the job's own, not quarantined, restore-verified if that is asked, and lists the world size if one is given; it is one of those, none of them is of a later step, and at its step restore-verified and then newest goes first |
| CatalogRuns.CommitStores | flashruntime/flashruntime/checkpoint/catalog.py:85-118 | a commit whose parts are registered with equal hashes stores the manifest with every field as given; any other changes nothing |
| CatalogRuns.LostWorkIsLeast | flashruntime/flashruntime/checkpoint/catalog.py:171-177 | the lost work reported is the least any selectable manifest would cost |
| CatalogRuns.SelectionNeverFalls | flashruntime/flashruntime/checkpoint/catalog.py:144-169 | between quarantines the selected step never falls, for any query |
| CatalogRuns.OnlyItsQuarantineLowersIt | flashruntime/flashruntime/checkpoint/catalog.py:128-140 | one operation can lower the selected step only by quarantining the selected manifest itself |
| CatalogRuns.QuarantineHoldsUntilRestored | flashruntime/flashruntime/checkpoint/catalog.py:128-140 | a manifest ends a run quarantined exactly when it was quarantined while stored and not marked restore-verified after that |
| CatalogRuns.QuarantinedIsNeverSelected | flashruntime/flashruntime/checkpoint/catalog.py:152-164 | while it is quarantined no query selects a manifest |
| CatalogRuns.QuarantineCanBeLifted | flashruntime/flashruntime/checkpoint/catalog.py:128-133 | a run in which a quarantined manifest is selected again |
| CatalogRuns.MarkingRestoresTheCandidate | flashruntime/flashruntime/checkpoint/catalog.py:128-133 | after any run, marking a compatible stored manifest restore-verified makes it a candidate, quarantined or not, and the selection is then at its step or later |
| CatalogRuns.CommitIsExactWhen | flashruntime/flashruntime/checkpoint/catalog.py:85-92 | a successful commit's expected parts are exactly the registered ones when, and only when, no further key is registered and no size differs |
| CatalogRuns.CommitsNeedNotBeExact | flashruntime/flashruntime/checkpoint/catalog.py:85-92 | a commit that succeeds beside an unexpected registered part, and one with another size |
| CheckpointCatalog.Catalog.RegisterPart | flashruntime/flashruntime/checkpoint/catalog.py:57-63 | records hash and size under the attempt and step, emitting nothing |
| CheckpointCatalog.Catalog.Commit | flashruntime/flashruntime/checkpoint/catalog.py:65-124 | stores the manifest exactly when there are expected parts and all are backed; a refusal changes neither dictionary and lists what is wrong |
| CheckpointCatalog.ProblemsAreUnbackedParts | flashruntime/flashruntime/checkpoint/catalog.py:85-94 | each unbacked part is listed as missing or mismatched, and nothing else is |
| CheckpointCatalog.Catalog.MarkVerified | flashruntime/flashruntime/checkpoint/catalog.py:128-133 | upgrades a known manifest whatever it was marked; an unknown one is refused and changes nothing |
| CheckpointCatalog.Catalog.Quarantine | flashruntime/flashruntime/checkpoint/catalog.py:135-140 | marks a known manifest invalid; an unknown one is refused and changes nothing |
| CheckpointCatalog.Catalog.LatestValid | flashruntime/flashruntime/checkpoint/catalog.py:144-169 | the loop returns a manifest of the job asked for that is not quarantined, restore-verified if required and of the world size if given, no such one is better, and nothing exactly when there is none |
| CheckpointCatalog.Catalog.LostSteps | flashruntime/flashruntime/checkpoint/catalog.py:171-177 | the lost work of the selection, never negative |
| LocalCheckpoints.RecoveryIsNewestIntact | flashruntime/flashruntime/checkpoint/local.py:37-109 | over any run of saves into new or existing directories, whatever writes are cut and whatever is damaged later, the manifest found is a completed save's, the one standing in its directory, whose parts hold exactly the bytes hashed, and no other such save is newer; none is found only when there is none |
| LocalCheckpoints.CrashesLoseOnlyTheUnfinished | flashruntime/flashruntime/checkpoint/local.py:90-109 | with nothing damaged, no completed save is lost whose directory no later save began to write: the step recovered is at least its own |
| LocalCheckpoints.OwnDirectoriesLoseNothing | flashruntime/flashruntime/checkpoint/local.py:90-109 | if every save has a directory of its own and nothing is damaged, the highest completed step is the one recovered, and none exactly when no save completed |
| LocalCheckpoints.HeldManifestStands | flashruntime/flashruntime/checkpoint/local.py:37-68 | in every state of every run a directory holds a readable manifest exactly when some completed save's stands there, untorn since, and it is that save's |
| LocalCheckpoints.ValidMeansIntact | flashruntime/flashruntime/checkpoint/local.py:71-87 | a directory that holds a save's manifest verifies exactly when it holds every part's bytes as hashed |
| LocalCheckpoints.PartsAreTheFiles | flashruntime/flashruntime/checkpoint/local.py:47-51 | a manifest names each file but the manifest itself once, with hash and size, in ascending order, however the directory was listed |
| LocalCheckpoints.ResaveRelistsTheStale | flashruntime/flashruntime/checkpoint/local.py:37-68 | a completed save into an existing step directory leaves it restorable with the new manifest, which lists the files left over again |
| LocalCheckpoints.CutResaveKeepsTheOld | flashruntime/flashruntime/checkpoint/local.py:71-87 | such a save cut before its manifest leaves the earlier one restorable exactly when every part written over still has its bytes |
| LocalCheckpoints.ListingOrderDoesNotMatter | flashruntime/flashruntime/checkpoint/local.py:100-109 | the step found does not depend on the listing order |
| LocalCheckpoints.NewestIsHighest | flashruntime/flashruntime/checkpoint/local.py:99-109 | the manifest found is valid and of the highest step among the valid ones listed, the first listed of that step |
| LocalCheckpoints.Disk.WriteManifest | flashruntime/flashruntime/checkpoint/local.py:37-68 | hashes every file but the manifest, in name order, and writes the manifest last; with no such file it refuses and writes nothing |
| LocalCheckpoints.Disk.Checkpoint | flashruntime/flashruntime/checkpoint/local.py:1-8 | a save into a new or existing directory, cut after any number of writes, leaves exactly the directory of that cut and touches no other |
| LocalCheckpoints.Disk.VerifyManifest | flashruntime/flashruntime/checkpoint/local.py:71-87 | true exactly when every named part is a file with the recorded hash |
| LocalCheckpoints.Disk.LatestValidManifest | flashruntime/flashruntime/checkpoint/local.py:90-109 | the loop computes the newest valid manifest |
| RestartLoop.FailFastMeansDeterministic | flashruntime/flashruntime/recovery/signals.py:100-135 | a failure ends its parameter set at once exactly when the exit is nonzero and the log shows a bug |
| RestartRecord.StopsMeans | flashruntime/flashruntime/sdk.py:358-376 | a launch ends its set exactly when it was not cancelled and exited zero, or exited nonzero with a bug in its log |
| RestartRecord.EveryLaunchIsTold | flashruntime/flashruntime/sdk.py:326-371 | each launch stands in one stretch of events: its start and, unless it succeeded, its class and the action of the policy for the mode |
| RestartRecord.RowsAreTheLaunches | flashruntime/flashruntime/sdk.py:305-343 | the rows are the launches in order, each with its id, job and how it ended |
| RestartRecord.JobsByTheSet | flashruntime/flashruntime/sdk.py:307-311 | in a fan-out launches share a job exactly when they are of one parameter set; otherwise all do |
| RestartRecord.TrialsAreTheMetrics | flashruntime/flashruntime/sdk.py:315-379 | one trial for each set that left metrics, in the order of the sets, with the metrics of its last launch that left any |
| RestartRecord.RunSucceedsWhen | flashruntime/flashruntime/sdk.py:382-386 | the run succeeds exactly when it has a parameter set and each is launched to a success, within its restarts and with nothing before that ends the set |
| RestartRecord.SettledMeans | flashruntime/flashruntime/sdk.py:150-160 | settling changes the state of the last row with the id and of no other |
| RestartLoop.LaunchesToTheFirstStop | flashruntime/flashruntime/sdk.py:317-376 | launches run exactly to the first success or deterministic failure, or to the budget |
| RestartLoop.EveryFailureIsDecidedOnce | flashruntime/flashruntime/sdk.py:358-376 | every launch has one start event, every launch that did not succeed exactly one classification and one decision, and nothing else has any |
| RestartLoop.FailingSetSpendsItsBudget | flashruntime/flashruntime/sdk.py:317-376 | a set that never succeeds is launched to its first bug or exactly one time more than its restarts |
| RestartLoop.TrialIsTheLastMetrics | flashruntime/flashruntime/sdk.py:315-379 | a set has a trial exactly when some launch left metrics, and it is the last such launch's |
| RestartLoop.TrialIsTheWinnersWhen | flashruntime/flashruntime/sdk.py:346-379 | the trial is the winning launch's own exactly when a launch exits zero within the budget, nothing before it stops, and it leaves metrics itself |
| RestartLoop.TrialIsNotTheWinnersWhen | flashruntime/flashruntime/sdk.py:346-379 | a trial that is no winner's is recorded exactly when some launch left metrics and the deciding one failed or left none |
| RestartLoop.TrialNeedNotBeTheWinners | flashruntime/flashruntime/sdk.py:356 | a failed launch's metrics outlive a winner that leaves none, and a set that never succeeds has a trial |
| RestartLoop.Run.Drive | flashruntime/flashruntime/sdk.py:282-386 | the rows, events and trials of the whole run, and SUCCEEDED exactly when there is a parameter set and every set's last launch succeeded |
| RestartLoop.Run.DriveSet | flashruntime/flashruntime/sdk.py:314-380 | one set's launches, rows, events, last metrics and final state |
| RestartLoop.Run.Launch | flashruntime/flashruntime/sdk.py:323-376 | one launch adds its row and events and says whether to stop |
| RestartLoop.Run.FinishAttempt | flashruntime/flashruntime/sdk.py:150-160 | settles the last row with the id and no other |
| ExecutorLoop.CountersMeanWhatTheySay | flashnode/flashnode/executor/loop.py:247-283 | in every state a loop reaches, its failure counter is the task errors since its last accepted task or clean check, its totals are the logged ones, and quarantine means a bad check after a full streak |
| ExecutorLoop.RunningLoopsCount | flashnode/flashnode/executor/loop.py:468-485 | while a loop runs it has claimed once per turn that had work, and waits one second after a turn the coordinator did not answer, twice as long after each further one, up to thirty |
| ExecutorLoop.RunsWhileNothingEnds | flashnode/flashnode/executor/loop.py:464-492 | a loop is still running exactly when no turn so far stopped it, met the limit, drained it, raised, or met a bad or raising check after a full streak |
| ExecutorLoop.EndsOnlyByStopOrLimitWhen | flashnode/flashnode/executor/loop.py:464-492 | a loop ends only by stop or limit exactly when whatever else would end it comes no earlier than one of them |
| ExecutorLoop.DiesOfTheFirstRaise | flashnode/flashnode/executor/loop.py:464-492 | an error of the client inside a task, or of the health check when asked, reaches the caller exactly when nothing has ended the loop by then |
| ExecutorLoop.ARaiseEndsTheLoop | flashnode/flashnode/executor/loop.py:14-16 | one raising task, or one raising health check, ends a loop with no limit and no drain |
| ExecutorLoop.NeverPassesItsLimit | flashnode/flashnode/executor/loop.py:469-471 | a loop never passes its task limit and claims nothing at it |
| ExecutorLoop.EndedLoopsClaimNothing | flashnode/flashnode/executor/loop.py:488-492 | a quarantined or otherwise ended loop does nothing more |
| ExecutorLoop.Executor.ExecuteOne | flashnode/flashnode/executor/loop.py:247-283 | only a task error counts against the host, only an accepted task clears the streak, and the current task, attempt and start time are cleared either way |
| ExecutorLoop.Executor.ShouldStopVolunteering | flashnode/flashnode/executor/loop.py:433-462 | asks only after a full streak; a clean answer resets it, a bad one quarantines and keeps the report, a raising one ends the loop |
| ExecutorLoop.Executor.Run | flashnode/flashnode/executor/loop.py:464-492 | the loop over any turns, with its limit, backoff, idle exit and stops |
| FleetAccounting.FleetNeverOverclaims | flashnode/flashnode/executor/loop.py:397-404 | the loops' accepted counters add up to at most the completed tasks, and to all of them exactly when every True answer reached a loop and no crash swallowed one |
| FleetAccounting.CounterIsTrueOffers | flashnode/flashnode/executor/loop.py:397-404 | a loop's counter is the number of its offered results answered True |

## Left out

- HTTP, process, container and hardware calls: their outcomes are arbitrary inputs.
- Real threads and wall clocks: heartbeats, relays and drivers are interleaved steps, time is a number.
- SQL text, JSON, CSV and pydantic encoding, schema migration, rows without a seq: rows and records stand for themselves.
- Regular expressions over logs and messages: what they find is given.
- Rounding, overflow, NaN and non-number inputs: exact reals and integers; `require_finite` therefore never refuses, and sample counts are integers.
- The text of event details and error messages; `job_state`, `records` and `lease_info` only read.
- The order in which committed keys are sorted before downloading: `FedAvgAlgebra.ReduceReordered` shows it changes no entry.
- The bounded retry of coordinator calls and the polling deadline in the federated driver: a round ends with a view, or the driver dies.
- Two federated drivers alive at once, and a restart handed a history that lacks an aggregated round.
- The mean loss of a round, the shape of job bodies, pools and images.
- Resuming the K-means driver after its own crash, which the code does not do; sampling the first centroids.
- Archive unpacking, input staging, evidence sampling and node registration in the executor.
- The launcher failing to start a process, artifact collection, `run.json` and the viewer in the restart loop.
- The recovery policy's scope, cordon and checkpoint columns, and its reasons, which no code here reads.
- Credentials, delegation headers, and the size and path checks of uploads: a write names its node or is an operator's.
- The planner, the scheduler's policies beyond their answer, torch and Ray workloads, and the command line.
- CheckpointCatalog.Catalog.Commit: returns the manifest as a value, so that a caller's copy would show a later quarantine is not captured.
- FedAvgReduce.Check: sample counts are integers and entries reals, so the refusals of fractional, boolean, infinite and NaN counts and of non-finite entries are not captured.
- FedAvgDriver.Driver.ResumeState: the carried history is typed as pairs and weights are real, so the refusals of malformed entries and non-finite weights are not captured.
- ExecutorLoop.Executor.ExecuteOne: how a task comes to its outcome, and which exception stands for which, is given.
- LocalCheckpoints.RecoveryIsNewestIntact: takes damage not to forge a manifest; a foreign manifest naming no parts would verify, there being nothing to check.
