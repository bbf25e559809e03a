# Backup validation controllers: model and proofs

A Dafny model of the two controllers that decide whether a backup repository can be trusted, and proofs
of what they guarantee on every run.

**BackupRepository.** One reconcile passes a credential gate (a missing Secret is tolerated for 60 s),
resolves two force annotations, probes the bucket (E1), walks three Job levels in order (E2 metadata, E3
sampled retrieval, E4 full retrieval; each lists its Jobs, ingests the latest finished one and maybe creates
the next), then writes timestamps, conditions and three-valued rollups in one status patch.

**BackupRepositoryConditional.** A pass derives healthy / empty / degraded from that status, holds its
decision while Healthy is Unknown, otherwise applies the variant of the derived state and records it.

**Text.** The bracket scanner that finds a JSON value in a noisy log, the STATS line reader, the choice of
write-ahead-log samples, and the inventory fold.

## How it is built

| files | what they hold |
|---|---|
| `Types`, `Rollup`, `Conditions`, `Jobs`, `Reconcile` | the values, and each decision as a function of the state and of everything the outside world answers |
| `Controller`, `Conditional` | the two reconcilers as classes that update their fields step by step, each call proved to be the step of those functions for the answers the call was given |
| `Runs` | every interleaving of reconciles with Jobs finishing and being collected, clock ticks, spec edits, annotations, restarts and missing Secrets |
| `LevelInvariants`, `StatusInvariants`, `Invariants` | what every step keeps |
| `Guarantees`, `Health`, `Writes`, `Results`, `Progress`, `Requests`, `Contention`, `System`, `Earned` | what follows on every run, for one controller and for both |
| `Limits`, `Witnesses` | where the code promises less than its comments: concrete runs from an empty status |
| `Scanner`, `Json`, `Stats`, `WalSamples`, `Inventory` | the text and folding code |

`Runs.Policy` names the three assumptions a theorem may need beyond those below: `prompt` (status patches
succeed, and a Job is deleted only once it has finished and its result is recorded), `keepE3` (the E3 interval stays
set), `stats` (every look that takes an E4 Job finds the STATS line in its log). A theorem that takes any policy
needs none of them.

**Assumed throughout.** Reconciles of one object are serialized and a status patch is atomic. A reconcile reads its
own object as last written, although the client is cached, and controller and API server share one clock. A Job list is
current unless it fails. The clock does not go back, and a Job does not complete before it was created. The
conditional reads the repository's current status, or finds none, or fails to read. The credentials namespace is
fixed. S3, the API server, pod logs and the clock are inputs; every answer they may give is allowed, including
"already exists" on a create. Times are nanoseconds; whatever the API server stores is cut to whole seconds, as
metav1.Time is. Text is a sequence of characters; scanning bytes is the same, since no byte of a multi-byte UTF-8
character is an ASCII bracket, quote or backslash.

## What turned out different from the comments

- A force annotation with a fraction of a second is never spent: its honored value is stored in whole seconds, so
  the annotation stays newer and is honored again (`Witnesses.HonoredTwice`; exactly when in
  `Guarantees.HonoredAgainExactlyIfFractional`). An honored value strictly increases exactly when the new one is at
  least a second later (`Guarantees.HonoringAdvances`).
- A failed Job without a completion time counts as completed when it was created. If that is the second of the
  previous result, the failure never reaches the status and Healthy stays True
  (`Limits.FailureInTheSameSecondIsMissed`, `Witnesses.SameSecondFailureIsLost`). With prompt bookkeeping the newest
  Job's result is taken exactly if it completed after the timestamp on record (`Results.NewestResultSeenExactly`).
  Without it a tie can lose a result that is later than the timestamp (`Witnesses.TiedFailureIsMissed`); which Jobs
  are taken whatever the tie is in `Results.TakenExactly`. On every run a result is taken at the first recorded look
  at its level or never (`Results.SeenNowOrNever`).
- An interval does not separate consecutive Jobs, because the spawn test reads the timestamp from before the ingest:
  a scheduled Job may follow the previous one at once (`Limits.ScheduledJobsBackToBack`). It separates a Job from
  every earlier one exactly if it does from those still listed, in particular when their results are all on record
  (`Guarantees.JobIsSpacedExactly`). What always holds is a bound to the Job two before (`Guarantees.RateLimit`), and
  only while status patches succeed (`Limits.FailedPatchesUnboundTheRate`).
- Sequencing is one-directional: a level waits for the shallower ones, never for a deeper one, so E2 starts beside a
  running E3 Job (`Contention.E2StartsBesideE3`), and likewise E2 and E3 beside E4. Where lists succeed, of two levels'
  Jobs in flight together the deeper one came first (`Contention.DeeperJobCameFirst`); a failed list breaks even that
  (`Contention.UnlistedE3StartsBesideE2`).
- A level that is due comes before the request of a deeper one: if E2 is due or at work at every reconcile, E3 and E4
  never get a Job, forced or not (`Requests.E2StarvesTheOthers`, and `Contention.RequestStarves` for a run of any
  length). Otherwise a request is honored after a bounded number of reconciles (`Requests.RequestIsHonored`).
- "Already exists" on a forced E4 create clears the annotation although this request got no Job
  (`Witnesses.RequestLostToANameClash`; exactly when in `Limits.ClearedRequestHasAJob`); after a successful clear `lastForcedE4At` is not written
  (`Guarantees.ForcedE4Once`).
- An E4 Job is ingested again on every reconcile while it is listed and its log, read anew each time, yields no STATS
  line, whether it has none, is cut off, or cannot be fetched (`Witnesses.ResultTakenTwice`; exactly when in
  `Limits.RetakenExactlyWithoutCounts`).
- Disabling E3 while it holds a result is the one write that leaves its timestamp without a condition
  (`Witnesses.TimestampWithoutCondition`; exactly when in `StatusInvariants.E3SyncExactly`). The E2 and E4 branches that clear a timestamp are unreachable
  (`Guarantees.TimestampsNeverDecrease`); the comment that an unreachable cycle resets the condition is out of date.
- The conditional's comment says a vanished Secret shows as Healthy=Unknown. It does not: nothing changes for 60 s
  (`TwoControllers.ShortGapChangesNothing`), then Healthy is False (`TwoControllers.FailureWriteIsLoud`).
- The API documentation calls `verifiedLastValidationAt` the time of the most recent successful E2 run. Failed runs
  set it too (`Witnesses.FailedRunSetsTimestamp`); it is what the documentation says exactly if it is unset or
  MetadataValid on record is True (`Results.TimestampIsLastSuccessExactly`).
- The API documentation gives "no backup or no objects" for the empty state; the code wants both
  (`TwoControllers.OnlyAnEmptyInventoryLooksEmpty`). An unreachable probe takes the claimed backup away, so an outage
  does turn a repository with no objects on record to empty, and no other (`TwoControllers.OutageLooksEmptyExactly`).

## Model

| member | source | states |
|---|---|---|
| `Rollup.RollupAND` | internal/controller/backuprepository_controller.go:1176-1225 | the loop's result is False if any requested condition present is False, else Unknown if any is Unknown or none is present, else True |
| `Rollup.RollupExactly` | internal/controller/backuprepository_controller.go:1170-1225 | status and reason of a rollup: False iff some requested condition present is False, True iff one is present and all present are True |
| `Rollup.OrderIrrelevant` | internal/controller/backuprepository_controller.go:1170-1225 | a rollup depends only on which types are requested, not on their order or repetition |
| `Rollup.NestedIsFlat` | internal/controller/backuprepository_controller.go:1051-1071 | a rollup of two rollups has the status of one flat rollup over all their leaves |
| `ConditionSet.WriteShape` | internal/controller/backuprepository_controller.go:954-1072 | after a write each leaf is present with the value its inputs give, or absent, and the three rollups are those of the written set |
| `ConditionSet.HealthyIsFlatRollup` | internal/controller/backuprepository_controller.go:1051-1071 | Healthy is one flat three-valued AND over the seven leaves, listed in any order |
| `ConditionSet.HealthyFromLeaves` | internal/controller/backuprepository_controller.go:1051-1071 | Healthy is True iff every leaf present is True, and False iff some leaf is False |
| `Jobs.JobInFlight` | internal/controller/e2_job.go:78-88 | in flight iff neither Complete nor Failed is reported true, which is the phase the rest of the model reads |
| `Jobs.JobReports` | internal/controller/e2_job.go:91-108 | whether a Job reports a condition true; for Complete, iff its phase is Succeeded |
| `Jobs.FirstActiveJob` | internal/controller/e2_job.go:140-147 | finds the first in-flight Job of a listing, and none iff every Job is finished |
| `Jobs.PickLatestCompletedJob` | internal/controller/e2_job.go:121-135 | picks a finished Job no finished Job completed after, and none iff none has finished |
| `Jobs.SortNewestFirst` | internal/controller/e2_job.go:131-133 | a permutation ordered by completion time, newest first |
| `Controller.ProcessLevel` | internal/controller/backuprepository_controller.go:441-482 | listing, ingesting and creating for one level is the function `Process` for the given answers and a pick the listing allows |
| `Controller.BackupRepositoryReconciler.ProcessE2` | internal/controller/backuprepository_controller.go:441-482 | E2's outcome and Jobs, for a force flag or an elapsed interval |
| `Controller.BackupRepositoryReconciler.ProcessE3` | internal/controller/backuprepository_controller.go:488-528 | the same for E3; nothing is listed while the level is disabled |
| `Controller.BackupRepositoryReconciler.ProcessE4` | internal/controller/backuprepository_controller.go:552-636 | the same for E4; no Job without a destination, and a forced Job takes its annotation with it |
| `Controller.BackupRepositoryReconciler.ResolveForces` | internal/controller/backuprepository_controller.go:145-176 | which level each annotation still asks for, and which annotation values are to be recorded as honored |
| `Controller.BackupRepositoryReconciler.ProcessLevels` | internal/controller/backuprepository_controller.go:181-203 | the three levels in order, each for the answers it was given, E3 waiting for E2 and E4 for both |
| `Controller.BackupRepositoryReconciler.Decide` | internal/controller/backuprepository_controller.go:145-224 | force gates, levels and honored values together are the plan of the reconcile for the given answers |
| `Controller.BackupRepositoryReconciler.ApplyConditions` | internal/controller/backuprepository_controller.go:954-1072 | conditions set and removed one by one, with rollups read back from the set so far, give the condition set of the write |
| `Controller.BackupRepositoryReconciler.ApplyStatus` | internal/controller/backuprepository_controller.go:799-920 | the field-by-field update is the status of the write, timestamps cleared or kept included |
| `Controller.BackupRepositoryReconciler.RecordCredentialsFailure` | internal/controller/backuprepository_controller.go:759-778 | the status after a credential failure; no change if the patch fails |
| `Controller.BackupRepositoryReconciler.ReconcileWithCredentials` | internal/controller/backuprepository_controller.go:141-232 | a reconcile with credentials is `ReconcileResolved` of the state it started in and the answers it was given, up to the pick among Jobs tied for latest |
| `Controller.BackupRepositoryReconciler.Reconcile` | internal/controller/backuprepository_controller.go:107-232 | one call is one enabled step of the run model for the answers it was given, up to that pick, so everything proved of runs and reconciles holds of calls |
| `LevelInvariants.ProcessKeepsJobs` | internal/controller/backuprepository_controller.go:453-479 | only the newest Job of a level can be in flight; every Job matches its entry in the spawn history |
| `LevelInvariants.ProcessKeepsLedger` | internal/controller/backuprepository_controller.go:457-469 | the timestamp is the last ingest's completion, ingests strictly increase and name distinct Jobs |
| `LevelInvariants.IdleLevelIsCovered` | internal/controller/backuprepository_controller.go:457-472 | when a level is idle, ingesting its latest Job moves the timestamp past the creation of every Job so far and the completion of every Job listed |
| `LevelInvariants.ProcessKeepsCadence` | internal/controller/backuprepository_controller.go:457-479 | every Job but the newest was created, and if listed completed, no later than the timestamp, and each Job is spaced from the one two before |
| `StatusInvariants.WriteE2` | internal/controller/backuprepository_controller.go:833-861 | a write keeps "timestamp set iff MetadataValid has a result" and "the result is the last ingested Job's" |
| `StatusInvariants.WriteE3` | internal/controller/backuprepository_controller.go:863-882 | the same for SampledIntegrityValid while E3 is enabled |
| `StatusInvariants.WriteE4` | internal/controller/backuprepository_controller.go:884-904 | a recorded retrieval implies a real FullRetrievalCompleted; without STATS the retrieval is unchanged |
| `StatusInvariants.E3SyncExactly` | internal/controller/backuprepository_controller.go:863-882 | after a write E3's timestamp and condition agree iff E3 is enabled or they were not both set before |
| `StatusInvariants.CredentialWrite` | internal/controller/backuprepository_controller.go:759-791 | a credential failure keeps each level's real condition and never turns a placeholder into a result |
| `Invariants.StepKeepsInv` | internal/controller/backuprepository_controller.go:107-232 | every step, whatever it is, keeps the invariant of all three levels |
| `Invariants.RunKeepsInv` | internal/controller/backuprepository_controller.go:107-232 | so does every run |
| `Invariants.ReachableInv` | internal/controller/backuprepository_controller.go:107-232 | the invariant holds in every state reachable from an empty status |
| `Guarantees.TimestampsMatchConditions` | internal/controller/backuprepository_controller.go:833-904 | on every run VerifiedLastValidationAt is set iff MetadataValid has a result, LastFullRetrieval implies one for E4, and E3 matches while it stays enabled |
| `Guarantees.TimestampsNeverDecrease` | internal/controller/backuprepository_controller.go:845-904 | on every run those timestamps are never cleared and never move back |
| `Guarantees.HonoredStaysBehindResults` | internal/controller/backuprepository_controller.go:149-176 | on every run an honored force-revalidate is strictly before E2's recorded result and, while E3 stays enabled, before E3's; an honored force-e4 strictly before E4's |
| `Guarantees.HonoringAdvances` | internal/controller/backuprepository_controller.go:205-217 | what honoring stores, when it strictly increases, and that the annotation is spent iff it is whole seconds |
| `Guarantees.HonoringE4Advances` | internal/controller/backuprepository_controller.go:218-224 | the same for force-e4 |
| `Guarantees.HonoredAgainExactlyIfFractional` | internal/controller/backuprepository_controller.go:205-217 | the next reconcile honors the same annotation again iff it is not whole seconds and an enabled E3 keeps a timestamp; otherwise it honors nothing |
| `Guarantees.HonoredNeverDecreases` | internal/controller/backuprepository_controller.go:205-224 | over every run neither honored value is cleared or moves back |
| `Guarantees.RateLimit` | internal/controller/backuprepository_controller.go:457-479 | on every run a scheduled Job comes at least its interval after the creation of any Job two or more before it |
| `Guarantees.JobIsSpacedExactly` | internal/controller/backuprepository_controller.go:457-479 | on every prompt run the interval separates a scheduled Job from every earlier one, collected ones included, iff it separates it from those still listed, and it does whenever these are all on record |
| `Results.TakenExactly` | internal/controller/e2_job.go:121-135 | a listed Job is ingested whatever the tie iff it is strictly latest and later than the timestamp, and for some tie iff it is latest and later |
| `Results.NewestResultSeenExactly` | internal/controller/backuprepository_controller.go:457-469 | on every prompt run a look at a level takes its newest finished Job, and lets it decide the condition, iff that Job completed after the timestamp; otherwise it takes nothing |
| `Results.BehindTheMarkerIsNeverTaken` | internal/controller/backuprepository_controller.go:458-462 | on every run a finished Job that completed no later than the timestamp is not ingested by any continuation |
| `Results.SeenNowOrNever` | internal/controller/backuprepository_controller.go:457-469 | on every run a finished Job is ingested by the first recorded look at its level while it is listed, or by none ever after |
| `Results.TimestampIsLastSuccessExactly` | internal/controller/backuprepository_controller.go:835-838 | on every run E2's timestamp is the last ingest's time, and the most recent successful run's iff it is unset or MetadataValid is True |
| `Witnesses.FailedRunSetsTimestamp` | internal/controller/backuprepository_controller.go:835-838 | a run whose only E2 Job failed and whose timestamp is set |
| `Guarantees.BoundedForcing` | internal/controller/backuprepository_controller.go:156-176 | on every run at most two Jobs of a level are forced by one value, from the first Job created in a later second on |
| `Guarantees.NoForcedE4WithoutAnnotation` | internal/controller/backuprepository_controller.go:328-349 | until someone annotates again, every E4 Job is scheduled and no value is honored |
| `Guarantees.ForcedE4Once` | internal/controller/backuprepository_controller.go:615-632 | a forced E4 whose annotation is cleared is followed by no other forced Job, and the value is never honored |
| `Guarantees.IngestedAtMostOnce` | internal/controller/backuprepository_controller.go:574-587 | on every run each Job is ingested at most once, completion times strictly increasing; for E4 where every look that takes a Job finds its counts |
| `Guarantees.TriggerSourceIsTheSpawnFlag` | internal/controller/backuprepository_controller.go:643-658 | on every run the recorded retrieval has the completion time, counts and creation flag of the last ingest that carried counts, and there is none iff no ingest did |
| `Guarantees.OneJobInFlightPerLevel` | internal/controller/backuprepository_controller.go:453-479 | on every run a level has at most one Job in flight |
| `Guarantees.OneJobPerReconcile` | internal/controller/backuprepository_controller.go:181-203 | a reconcile creates at most one Job; E3 only with E2 idle, E4 only with E2 and an enabled E3 idle, when those lists succeed |
| `Progress.FirstDueLevelGetsTheJob` | internal/controller/backuprepository_controller.go:178-203 | an undisturbed reconcile starts exactly one Job, at the first level that is due and for the reason it is due, and none iff no level is due |
| `Progress.RequestSpentExactlyWhenServed` | internal/controller/backuprepository_controller.go:205-217 | a recorded reconcile spends a whole-second force-revalidate iff E2 and an enabled E3 have results from after it; until then it stays live |
| `Progress.HonoredExactly` | internal/controller/backuprepository_controller.go:205-224 | both honored values after a recorded reconcile: the request, stored, iff it is live and every level it asks for is served |
| `Progress.AnnotationClearedExactly` | internal/controller/backuprepository_controller.go:600-632 | the force-e4 annotation is gone after a reconcile iff its request was submitted and the clear succeeded; force-revalidate is never touched |
| `Requests.RequestIsHonored` | internal/controller/backuprepository_controller.go:149-217 | on every run a whole-second force-revalidate at least a second old is honored by the fifth reconcile that tends to it, the third where E3 is disabled, whatever other reconciles find or fail at in between |
| `Requests.E2StarvesTheOthers` | internal/controller/backuprepository_controller.go:181-203 | while E2 is due or at work at every reconcile, E3 and E4 get no Job on any run |
| `Contention.RequestStarves` | internal/controller/backuprepository_controller.go:181-203 | for every n, a prompt run of n reconciles, every answer a success, at whose end a request stands and E3, asked for, has had no Job |
| `Contention.DeeperJobCameFirst` | internal/controller/backuprepository_controller.go:181-203 | on every run whose lists succeed, of an E2 and a deeper Job in flight together, or of an E3 and an E4 Job while E3 stays enabled, the deeper was created no later |
| `Contention.E2StartsBesideE3` | internal/controller/backuprepository_controller.go:178-193 | a run, its lists all successful, that starts an E2 Job beside a running E3 Job |
| `Contention.UnlistedE3StartsBesideE2` | internal/controller/backuprepository_controller.go:447-451 | a run with a failed E2 list that starts an E3 Job beside a running E2 Job |
| `Health.HealthyExactly` | internal/controller/backuprepository_controller.go:906-919 | for every write: exactly when Healthy is True and exactly when it is Unknown, in terms of probe, budget and level results |
| `Health.HealthyIsSound` | internal/controller/backuprepository_controller.go:799-1072 | on every run, Healthy=True means a reachable, secure, recent repository within budget whose last ingested Job passed at every level in force |
| `Health.HealthyUnknownMeansPending` | internal/controller/backuprepository_controller.go:1051-1071 | on every run, Healthy=Unknown means a good probe and a level without a result or no inventory yet |
| `Writes.FailureReportedExactly` | internal/controller/backuprepository_controller.go:116-139 | on every run a reconcile without credentials writes Reachable=False and Healthy=False iff the credentials are unusable, or the Secret has been missing for 60 s since the first miss not followed by a success or restart, and the patch succeeds; otherwise the status stays |
| `Writes.FirstMissIsKept` | internal/controller/backuprepository_controller.go:125-142 | on every run the tolerance counter is the time of that first miss |
| `Writes.ProbeIsOnRecord` | internal/controller/backuprepository_controller.go:816-831 | on every run the inventory on record is that of the last recorded complete listing, and the backup on record that of the last recorded probe, or none if it found none |
| `Writes.ProbeShownExactly` | internal/controller/backuprepository_controller.go:906-910 | on every run status and reason of each E1 condition after a recorded reconcile, from this probe and the last complete listing, and the time of the probe |
| `Writes.FailureShownExactly` | internal/controller/backuprepository_controller.go:759-791 | status and reason of every condition a credential failure writes, from any status, and that no other field but the probe time changes |
| `Writes.LostConditionClearsTimestamp` | internal/controller/backuprepository_controller.go:845-904 | from any status a recorded reconcile that takes no result at a level without a real condition clears its timestamp, so the level is due again |
| `Writes.HealthyMeansListingFits` | internal/controller/backuprepository_controller.go:1078-1097 | on every run Healthy=True means the last recorded complete listing fits the budget, if one is set |
| `Writes.LevelsShownExactly` | internal/controller/backuprepository_controller.go:983-1049 | on every run each level's condition after a recorded reconcile; E4 shows one iff it is scheduled, has a retrieval on record, or is at work, and the placeholder while a Job is at work without a retrieval |
| `Health.CredentialFailureIsLoud` | internal/controller/backuprepository_controller.go:759-778 | a credential failure writes Reachable=False and Healthy=False from any status |
| `Health.FailuresPreserveResults` | internal/controller/backuprepository_controller.go:759-791 | any number of credential failures keeps every real level condition and all other fields, and Healthy is False after each |
| `Conditional.Reconciler.Materialize` | internal/controller/backuprepositoryconditional_controller.go:150-254 | decision, time and reference are written together and only after an accepted apply |
| `Conditional.Reconciler.Reconcile` | internal/controller/backuprepositoryconditional_controller.go:74-254 | what a pass applies and the record it writes, for every way it can end |
| `TwoControllers.DecisionRecordIsHistory` | internal/controller/backuprepositoryconditional_controller.go:234-254 | on every run of both controllers the decision record is the last recorded apply, all set or all unset, and never erased |
| `TwoControllers.UnknownHoldsTheDecision` | internal/controller/backuprepositoryconditional_controller.go:112-137 | once decided, a pass over a Healthy=Unknown repository applies nothing and keeps the decision |
| `TwoControllers.PassAppliesExactly` | internal/controller/backuprepositoryconditional_controller.go:126-148 | a pass applies exactly one object, for the variant of the repository's state, iff the repository was read, no decision is held, the variant exists and the manifest is accepted; and when a decision is held |
| `TwoControllers.PassReportsExactly` | internal/controller/backuprepositoryconditional_controller.go:90-254 | every condition a recorded pass reports or leaves: repository found, how far the manifest got, Decided iff it held or applied, and the state it saw; a pass that cannot read reports nothing |
| `TwoControllers.ShortGapChangesNothing` | internal/controller/backuprepository_controller.go:117-141 | in every interleaving with the Secret missing for less than 60 s the status is unchanged and every apply is for the same slot |
| `TwoControllers.LongGapFlipsOnTime` | internal/controller/backuprepository_controller.go:125-141 | with reconciles at most 30 s apart the first failure is written at least 60 s and less than 90 s after the first miss |
| `TwoControllers.FailureWriteIsLoud` | internal/controller/backuprepository_controller.go:759-778 | the step that records a failure writes Reachable=False and Healthy=False |
| `TwoControllers.OutageNeverLooksEmpty` | internal/controller/backuprepositoryconditional_controller.go:271-285 | from a non-empty inventory no sequence of outages, failed inventories and credential failures derives empty or applies whenEmpty |
| `TwoControllers.OutageLooksEmptyExactly` | internal/controller/backuprepositoryconditional_controller.go:271-278 | a written outage derives empty iff the inventory on record holds no objects |
| `TwoControllers.StateExactly` | internal/controller/backuprepositoryconditional_controller.go:266-285 | after every recorded reconcile the state is empty iff no objects are listed and no backup was found, healthy iff probe, budget and levels are all good, else degraded |
| `TwoControllers.StateAfterFailureExactly` | internal/controller/backuprepositoryconditional_controller.go:266-285 | a written credential failure leaves a repository empty iff it was, else degraded |
| `TwoControllers.OnlyAnEmptyInventoryLooksEmpty` | internal/controller/backuprepositoryconditional_controller.go:271-278 | a repository without an empty inventory on record turns empty only by a complete inventory of no objects and a probe without a backup |
| `Earned.JointRun` | internal/controller/backuprepository_controller.go:1051-1071 | on every run of both controllers Healthy on record is the rollup of the leaves on record |
| `Earned.AppliesAreEarned` | internal/controller/backuprepositoryconditional_controller.go:109-254 | whatever is applied on any joint run: whenHealthy only over a reachable, secure, current repository with every leaf present True, its budget included, whose last ingested Jobs passed; whenEmpty only over no objects and no backup; whenDegraded only when not known healthy and, once decided, not merely unknown |
| `InventoryProbe.RunInventoryProbe` | internal/controller/s3_probe.go:143-185 | count, wrapped 64-bit sum, oldest and newest of a listing; nothing if any entry is an error |
| `InventoryProbe.WrapExactly` | internal/controller/s3_probe.go:151-164 | the wrapped sum is in the 64-bit range, equals the sum where that fits, and differs from it by a multiple of 2^64 |
| `InventoryProbe.ProbeRepository` | internal/controller/s3_probe.go:91-137 | which results and reasons a probe has after each phase fails; an inventory exists iff the listing was complete, with its count and wrapped total size |
| `Scanner.ExtractBalanced` | internal/controller/e2_output.go:144-180 | the loop returns the text up to the character where the bracket depth returns to zero, or nothing |
| `Scanner.FindAndUnmarshal` | internal/controller/e2_output.go:124-138 | succeeds iff some delimiter's balanced text decodes, and decodes the leftmost such text |
| `Scanner.LatestByTime` | internal/controller/e2_output.go:73-79 | the newest snapshot; on a tie the last element, else the first of the newest |
| `Json.ExtractionRoundTrip` | internal/controller/e2_output.go:144-180 | for every array or object, any white space at each of its places, any prefix and suffix, extraction at its bracket is exactly its printed form |
| `Json.BrokenOffYieldsNothing` | internal/controller/e2_output.go:144-180 | a printed value whose text breaks off anywhere before its last bracket yields nothing |
| `Json.SearchFindsPrinted` | internal/controller/e2_output.go:116-138 | if no earlier bracket decodes, the search stops at the printed value |
| `Json.SearchSkipsCleanText` | internal/controller/e2_output.go:124-138 | text before the value that holds no opening bracket never stops the search, whatever the decoder accepts |
| `E4Stats.ParseE4Stats` | internal/controller/e4_job.go:284-321 | the loops over lines and words compute the result of the last STATS line |
| `E4Stats.StatsRoundTrip` | internal/controller/e4_job.go:240-321 | for all 64-bit counts, a log whose last STATS line is the printed one gives them back, with throughput * duration <= bytes < (throughput + 1) * duration |
| `E4Stats.ParsedExactlyWithStats` | internal/controller/e4_job.go:284-294 | a log yields a result iff it holds a STATS line |
| `E4Stats.ParseSigned` | internal/controller/e4_job.go:301-304 | a decimal with an optional sign is read as its number iff that fits 64 bits |
| `E4Stats.WordCountsExactly` | internal/controller/e4_job.go:296-306 | a word counts iff it is a key, "=" and a number; every other word is skipped |
| `E4Stats.AsciiSpaces` | internal/controller/e4_job.go:287-296 | which ASCII characters separate words and are trimmed |
| `E4Stats.StatsFromExactly` | internal/controller/e4_job.go:307-320 | missing counts are zero, and throughput is the quotient cut toward zero, zero without a positive duration |
| `WalSamples.SegmentOfNames` | internal/controller/e3_job.go:262-282 | a name stands for a segment iff it is that segment's 24 hex digits, alone or with one extension, and for no other |
| `WalSamples.KeyYieldsExactly` | internal/controller/e3_job.go:266-282 | a key under the prefix yields a segment iff it is the prefix and the segment, alone or with one extension without a dot |
| `WalSamples.SegmentExactly` | internal/controller/e3_job.go:272-280 | a segment is exactly 24 hexadecimal digits of either case |
| `WalSamples.ForeignKeyYieldsExactly` | internal/controller/e3_job.go:267 | a key that is not under the prefix is judged as it is |
| `WalSamples.ArchiveIsCollected` | internal/controller/e3_job.go:234-245 | a listing of archived segments, compressed or not, yields them all, in order |
| `WalSamples.WalgSegmentName` | internal/controller/e3_job.go:266-282 | the loop returns the segment a key names, and none iff it names none |
| `WalSamples.CollectSegments` | internal/controller/e3_job.go:234-245 | the segment names of a listing in order; an error anywhere fails the listing |
| `WalSamples.PickWalgSamples` | internal/controller/e3_job.go:223-260 | for any shuffle: sorted, min(n, number of segments) long, contained in the listed segments as a multiset, all segment names |
| `Limits.ScheduledJobsBackToBack` | internal/controller/backuprepository_controller.go:471-479 | a run with two scheduled Jobs 65.2 s apart although the interval is one hour |
| `Limits.FailedPatchesUnboundTheRate` | internal/controller/backuprepository_controller.go:457-479 | for every n, a run with failing patches that creates n scheduled Jobs a minute apart although the interval is one hour |
| `Limits.FailureInTheSameSecondIsMissed` | internal/controller/e2_job.go:110-117 | a run whose newest Job failed and is listed while the next write says Healthy=True |
| `Witnesses.SameSecondFailureIsLost` | internal/controller/e2_job.go:110-117 | after that run no continuation ever ingests the failure |
| `Witnesses.TiedFailureIsMissed` | internal/controller/e2_job.go:121-135 | a run with a failed patch after which a failure later than the timestamp loses a tie, Healthy is True, and no continuation ingests it |
| `Limits.E2IgnoresTheOtherLevels` | internal/controller/backuprepository_controller.go:181-203 | what E2 does is the same whatever Jobs E3 and E4 have |
| `Limits.ClearedRequestHasAJob` | internal/controller/e4_job.go:205-211 | a cleared force-e4 request got a Job iff the create was not answered "already exists" |
| `Witnesses.RequestLostToANameClash` | internal/controller/e4_job.go:205-211 | a run in which a second force-e4 within a minute is cleared without a Job |
| `Limits.RetakenExactlyWithoutCounts` | internal/controller/backuprepository_controller.go:574-587 | an ingested E4 Job is taken again iff this look found no STATS line in its log, and then the retrieval is unchanged; otherwise its time, counts and trigger are recorded |
| `Witnesses.ResultTakenTwice` | internal/controller/backuprepository_controller.go:574-587 | a run in which one E4 Job is ingested twice, its log read only the second time |
| `Witnesses.TimestampWithoutCondition` | internal/controller/backuprepository_controller.go:1015-1017 | a run that disables E3 and ends with its timestamp set and its condition gone |
| `Witnesses.HonoredTwice` | internal/controller/backuprepository_controller.go:205-217 | a run after which a request half a second past the full one is on record as honored and is about to be honored again |

## Left out

- S3 and Kubernetes client calls, pod logs, volume claims, owner references: each is an arbitrary outcome.
- Job names: a name repeats within a minute, which the model covers by letting any create answer "already exists".
- Parsing of timestamps: an annotation is its parsed value or None, which stands for absent and malformed alike.
- JSON and YAML decoding: `Scanner.FindAndUnmarshal` takes any decoding function.
- Condition messages, transition times and the "Job in flight" wording: no decision reads them.
- The detected format and version and the claimed latest backup: no decision reads them.
- Deleting and recreating a repository: the model follows one repository from its empty status.
- A spec or annotation edit in the middle of a reconcile: a reconcile uses the object it started with, so the model does not show that the merge patch clearing force-e4 would delete a newer value set meanwhile.
- `Guarantees.RateLimit`: needs the `prompt` policy, and for E4 `stats`; `Limits.FailedPatchesUnboundTheRate` shows why.
- `Requests.RequestIsHonored`: counts the recorded reconciles that find the level's Jobs finished and can list it and, where none has run since the request, create one; E3's turn also takes E2 not to be due again (`Contention.RequestStarves` shows why), and a Job must stay listed until its result is recorded.
- `Guarantees.BoundedForcing`: needs the same policies, and counts from the first Job created in a later second than the value, because stored times are whole seconds.
- `Guarantees.IngestedAtMostOnce`: needs `keepE3` for E3 and `stats` for E4; `Witnesses.ResultTakenTwice` shows why.
- `WalSamples.PickWalgSamples`: says nothing about how evenly a shuffle draws.
- Metrics, watches, request mapping, validator images and shell scripts other than their STATS line: they hold no state a decision reads; when a reconcile is triggered is left open, so every schedule of reconciles is covered.
