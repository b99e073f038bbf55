# A verified model of the training platform's job protocol

The platform runs jobs with five kinds of process that share one Postgres database: the API creates
and cancels jobs, the scheduler admits them against a capacity row, the outbox relay publishes
events, workers claim and run attempts under a lease, and recovery takes lapsed leases back and
dispatches retries. They coordinate only through conditional UPDATE and INSERT statements. On top of
that sit training attempts that save checkpoints and resume, evaluation attempts that are retried,
and a content-addressed artifact store with upload leases and a reconciler.

This project models those statements, the processes that issue them, and every interleaving of them,
and proves what holds in every reachable state.

## How it is organised

* **The tables as values.** `Types`, `Rules` and `Transactions` define the rows, the decision rules
  and, for each committed transaction, a function on database values (`ClaimTx`, `AdmitTx`,
  `FinalizeTx`, `ReclaimTx`, ...).
* **The code as methods.** `Repository.Database` holds the tables as fields and has one method per
  repository function. `Worker`, `Recovery`, `Scheduler`, `Api` and `Relay` contain the service
  functions and passes with their loops, each proved to do what the transaction functions and
  order-free specifications say. `ArtifactService`, `Trainer`, `TrainingService`, `Evaluator` and
  `EvaluationService` do the same for uploads, the reconciler, the training and evaluation bodies
  and the two supervisors.
* **The runs.** `Protocol` is a transition system over the same transaction functions: any number of
  processes of each kind, one step per committed transaction, snapshots that stay usable for ever
  (so commits may rest on arbitrarily old readings), a bag of messages, and a monotone clock passed
  to each step. A crash is a process that takes no further step. `Artifacts`, `TrainingRuns` and
  `EvaluationRuns` are further systems, the latter two layered on `Protocol`.
* **The theorems.** `Conservation`, `Fencing`, `Invariants`, `Lifecycle`, `Cancellation`, `Leaks`,
  `Delivery`, `Leases`, `Artifacts`, `TrainingProofs` and `EvaluationProofs` quantify over all runs.
  `Scenarios`, `TrainingScenarios` and `EvaluationScenarios` hold concrete runs that reach the states
  the theorems speak of.

Methods of the passes are specified without interference, since a method sees one heap;
what interference does is the subject of the transition systems, which interleave the very same
transactions.

## What the proofs found

* An admission committed on an old snapshot is harmless to fencing and accounting: it goes through
  only if the job still has the attempt number read, because used reservation keys are never freed.
  It can still leak: `Leaks.StaleAdmissionLeaks` is a concrete run, and `Leaks.LeakFreeIff` says
  exactly which steps leak.
* `cancel_job` may overwrite RUNNING, since the transition table allows it. That leaves an attempt row
  unfinished exactly when the job was RUNNING at the update (`Lifecycle.CancelKeepsHistoryIff`, with
  the run `Lifecycle.StaleCancelBreaksHistory`).
* A FAILED job has no dead-letter row exactly when its last attempt is LOST, that is, when recovery
  failed it (`Lifecycle.FailedExactly`, with the run `Scenarios.RecoveryFailsWithoutDeadLetter`).
* A requested cancel does not always end CANCELLED: a worker that re-read the flag before the request
  finalises as if there were none (`Cancellation.FlaggedEndsCancelledIff`). If the attempt failed
  retryably, the job is QUEUED with its flag set and stuck there until it is cancelled again
  (`Cancellation.FlaggedQueuedStuckIff`, `Scenarios.RequestedCancelStrands`).
* A worker's error before its claim commits can cost an admitted job its only message, since the
  offset is committed all the same (`Delivery.CarriedIff`, `Scenarios.LostMessageStrands`).
* Content whose artifact row is FAILED can never be uploaded again (`ArtifactService.FailedContentBarred`).
* A sweep that commits on an old listing can fail an artifact whose upload lease is live; the exact
  condition is `Artifacts.SweepHitsLiveLeaseIff`, a concrete run `Artifacts.StaleSweepFailsLiveLease`.
* A training output registered by an attempt that then loses the job keeps every later attempt from
  succeeding, because the output table has one row per run (`TrainingProofs.OrphanedOutputBlocksSuccess`,
  with the run `TrainingScenarios.OutputOrphaned`). `TrainingProofs.RegistrationFailsIff` says exactly
  which registrations raise.
* A SUCCEEDED evaluation run can be reopened until its job is SUCCEEDED
  (`EvaluationProofs.ReopenedByLaterAttempt`, `EvaluationProofs.FrozenAfterSuccess`, with the run
  `EvaluationScenarios.SucceededRunReopened`).
  `STATE_TRANSITIONS_V0.7.md:5-8` draws SUCCEEDED as terminal; the UPDATE does not test the current
  status, and the model follows the code.
* Evaluation examples that share an id collapse to one stored row, the first one's
  (`EvaluationProofs.StoredCount`).

## Hypotheses

`ValidSettings`: at least one attempt, non-negative lease duration, default request and aging rate.
Per-job resource requests are naturals, which the scheduler does not check. A training or evaluation
run's row exists before its job is first claimed; the services commit the job first
(`app/services/training_runs.py:39-54`). Hash injectivity is assumed only by the lemmas that list it,
and a non-negative upload lease only by `Artifacts.LeaseExclusive`.

## Model

Results, and statements with a condition. The plain writers of `Repository.Database` and the lemmas
that lead up to a result are specified where they stand and have no row.

| member | source | states |
|---|---|---|
| `Rules.CancelSources` | app/statemachine.py:4-20 | the sources of every status, column by column, and that nothing leaves a terminal one |
| `Rules.BackoffBounds` | app/retry_policy.py:14-29 | whatever the random draw, a retry is due no earlier than now plus the capped delay and no later than now plus the cap with its full jitter; delays never shrink from one attempt to a later one |
| `Rules.BackoffDoubles` | app/retry_policy.py:26-27 | the delay starts at the base and doubles from attempt to attempt until it meets the cap |
| `Rules.JitterSpreads` | app/retry_policy.py:28-29 | the draw moves the retry evenly from the bare delay to the delay with its full jitter |
| `Rules.RetryableIff` | app/retry_policy.py:31-33 | a permanent failure is never retried; any other exactly while attempts are left |
| `Repository.Database.ConditionalTransition` | app/repository/jobs.py:45-77 | applies exactly when the row exists with a status in the given set, and then changes only that status |
| `Repository.Database.Claim` | app/repository/jobs.py:96-141 | wins exactly when the job is QUEUED, not cancelled, due and has an ACTIVE reservation for the next attempt; the winner then holds the fence under the returned number |
| `Repository.Database.Heartbeat` | app/repository/jobs.py:144-162 | renews exactly when the fence holds, otherwise changes nothing |
| `Repository.Database.Fences` | app/repository/jobs.py:182-189 | the predicate every fenced write shares: RUNNING under this owner at this attempt |
| `Repository.Database.FinalizeAttempt` | app/repository/jobs.py:165-201 | writes exactly when the fence holds; clears the lease and keeps the backoff unless given one |
| `Repository.Database.ReclaimStale` | app/repository/jobs.py:213-264 | takes effect exactly for a RUNNING job with a lapsed lease, reports the fenced attempt and leaves the row the reclaim rule gives |
| `Repository.Database.TryReserve` | app/repository/capacity.py:11-30 | succeeds exactly when every dimension fits, and then adds all three; otherwise adds none |
| `Repository.Database.InsertReservation` | app/repository/reservations.py:32-44 | fails exactly on a used (job, attempt) key, else adds one ACTIVE row |
| `Repository.Database.ReleaseReservation` | app/repository/reservations.py:47-65 | wins exactly when the row is ACTIVE, flips only that row and returns it |
| `Repository.Database.ReleaseHeld` | app/services/worker.py:21-30 | capacity comes back if and only if this call released the row, and by that row's amounts |
| `Repository.Database.MarkLost` | app/repository/attempts.py:68-101 | insert or update: the attempt row is LOST afterwards, its worker and start kept if it existed |
| `Repository.Database.InsertDlq` | app/repository/dlq.py:10-33 | fails exactly where the job already has a dead-letter row (primary key `app/models/dlq.py:10`) |
| `Api.CancelQueued` | app/services/jobs.py:83-101 | the cancel transaction on a job read earlier: conflict exactly where no legal transition exists, else cancelled and the reservation after the number read released |
| `Api.CancelJob` | app/services/jobs.py:75-114 | without interference: 404 for a missing job, 409 for a terminal one, flag only for a running one; a queued one ends CANCELLED with no ACTIVE reservation for its next attempt |
| `Worker.BeginAttempt` | app/services/worker.py:105-110 | claim and attempt row as two transactions; a claimed attempt holds the fence |
| `Worker.EndAttempt` | app/services/worker.py:160-232 | on any state of the tables, every finalising branch equals one atomic transaction, undone entirely when the fence fails or the dead-letter key is taken |
| `Worker.FinishMessage` | app/services/worker.py:157-232 | whatever other processes did meanwhile: abandoned or fenced out leaves the tables alone; a cancel requested by then ends job and attempt CANCELLED with no dead letter; without one, SUCCEEDED exactly for a success, requeued with this attempt's backoff exactly for a non-permanent failure with attempts left, else FAILED and dead-lettered; the reservation and its capacity come back |
| `Worker.ProcessJobMessage` | app/services/worker.py:90-232 | one message without interference: nothing changes unless claimable; an abandoned attempt is left as begun; otherwise it is finalised with the executor's verdict |
| `Recovery.ReclaimStaleLeases` | app/services/recovery.py:16-54 | a pass, with its own jitter draw for each job, leaves exactly the RUNNING jobs with a lapsed lease CANCELLED, FAILED or QUEUED by flag and attempts left, with the next attempt's backoff, their attempt LOST and reservation released; every other job as it was; capacity conserved |
| `Recovery.OthersStay` | app/services/recovery.py:22-45 | attempt and reservation rows of other jobs and other attempts stay |
| `Recovery.DispatchDueRetries` | app/services/recovery.py:57-68 | a pass appends one event per due job, clears exactly their backoffs and leaves none due |
| `Relay.ListUnpublished` | app/repository/outbox.py:18-25 | the oldest unpublished rows, in order, at most the limit, and all of them if fewer |
| `Relay.RelayOnce` | outbox_relay/relay.py:11-27 | a pass picks the oldest unpublished rows up to the limit, sends one message for each and marks exactly those |
| `Relay.JobsOfIs` | outbox_relay/relay.py:19-22 | the messages of a pass are the picked rows' jobs, one each |
| `Scheduler.ListSchedulable` | app/repository/jobs.py:281-309 | lists exactly the jobs claim would accept but for a missing reservation |
| `Scheduler.RankCandidates` | app/services/scheduler.py:33-42 | every schedulable job appears exactly once, by aged and capped priority descending, then creation time |
| `Scheduler.AgesToCeiling` | app/services/scheduler.py:24-30 | waiting raises the effective priority from the priority at the aging rate up to the ceiling, never past it |
| `Scheduler.SaturatedFromWait` | app/services/scheduler.py:24-30 | waiting (ceiling - priority) / aging_rate is enough to reach the ceiling |
| `Scheduler.NotOvertakenIffSaturated` | app/services/scheduler.py:24-42 | no later-created job of any priority can rank ahead if and only if the job's aged priority has reached the ceiling |
| `Scheduler.OnlyOlderAhead` | app/services/scheduler.py:33-42 | in every ranking from then on, only jobs created no later stand before it |
| `Scheduler.DiagnosticSound` | app/repository/capacity.py:47-61 | the recorded reason says available exactly when all three sums fit, names the first dimension short in the order cpu, memory, gpu, and blames the cluster only for requests an idle cluster could not meet |
| `Scheduler.TryAdmit` | app/services/scheduler.py:45-104 | an eligible unreserved job with a free key is admitted exactly if its configured or default cpu, memory and gpu all fit; the reservation holds just those figures, each allocated figure grows by its own, one event follows; every refusal leaves capacity, reservations and outbox untouched |
| `Scheduler.FirstFitUnique` | app/services/scheduler.py:114-125 | greedy first fit determines every decision |
| `Scheduler.FirstFitExhausts` | app/services/scheduler.py:114-125 | whoever was passed over still does not fit what is left at the end, unless the admission cap was reached |
| `Scheduler.AdmitRanked` | app/services/scheduler.py:114-125 | the loop decides by greedy first fit and carries out exactly those admissions, in order |
| `Scheduler.RunOnce` | app/services/scheduler.py:114-125 | a pass is greedy first fit over the ranked list; on exit the cap is reached or no waiting candidate fits |
| `Conservation.SumActiveTake` | app/repository/reservations.py:68-83 | the sum over ACTIVE rows does not depend on the order of summation |
| `Conservation.CancelConserves` | app/services/jobs.py:83-100 | a cancel conserves, however stale the attempt number it releases |
| `Conservation.EveryTransactionConserves` | app/repository/capacity.py:11-44 | every transaction conserves, with no hypothesis about its being enabled, fenced or up to date |
| `Conservation.ConservedAlways` | app/repository/reservations.py:68-83 | at every commit of every run, each allocated amount is the sum over ACTIVE reservations and between 0 and the total |
| `Effects.Effect` | app/repository/jobs.py:45-264 | each transaction changes one job's row, its reservation, attempt and dead-letter rows exactly as stated and no other row |
| `Fencing.StepLater` | app/repository/jobs.py:118-136 | one transaction never lowers an attempt number, never leaves a terminal status, never clears a cancel request and enters RUNNING at an attempt only by claiming it |
| `Fencing.LaterAlong` | app/repository/jobs.py:118-136 | the same over any stretch of any run |
| `Fencing.BecomesSucceeded` | app/services/worker.py:176-184 | SUCCEEDED is entered only by a successful finalisation that held the fence, and is never left |
| `Fencing.FenceLostForever` | app/repository/jobs.py:150-159 | once an attempt is claimed and (worker, attempt) does not hold the fence, it never will again, worker ids shared or not |
| `Fencing.OneInterval` | app/repository/jobs.py:182-191 | an attempt is RUNNING under its owner for one contiguous interval |
| `Fencing.OneOwner` | app/repository/jobs.py:128-135 | no attempt ever has two owners |
| `Fencing.ClaimsIncrease` | app/repository/jobs.py:118-136 | each later claim of a job gets a strictly larger attempt number, so none is handed out twice |
| `Invariants.AdmitNeedsFreshAttempt` | app/models/reservation.py:12-13 | an admission resting on any old snapshot goes through only if the job is still at the attempt read and QUEUED or CANCELLED |
| `Invariants.SchedulableKeyFree` | app/services/scheduler.py:64-73 | for a schedulable job the reservation key is free, so the insert cannot collide |
| `Invariants.DeadLetterKeyFree` | app/models/dlq.py:10 | a job whose fence holds has no dead-letter row, so that INSERT never fails in a reachable state |
| `Invariants.InvAlways` | app/repository/jobs.py:96-264 | the invariant in every reachable state |
| `Lifecycle.SnapshotWasTrue` | app/services/scheduler.py:54-65 | every remembered snapshot was a true reading of an earlier state of the run |
| `Lifecycle.StaleAdmission` | app/services/scheduler.py:54-79 | an admission that goes through rests on a true earlier reading of the attempt the job still has; the job is at worst cancelled since |
| `Lifecycle.FailedExactly` | app/services/worker.py:211-229 | in every reachable state a dead-letter row implies FAILED at that very attempt, and a FAILED job has none if and only if its last attempt is LOST, which takes the last attempt allowed; otherwise that attempt is FAILED |
| `Scenarios.RecoveryFailsWithoutDeadLetter` | app/services/recovery.py:33-44 | a concrete run: the only attempt's lease lapses and recovery leaves the job FAILED with no dead-letter row |
| `Lifecycle.FinishedRowsNeverChange` | app/repository/attempts.py:41-101 | a finished attempt row, LOST included, is never written again in any run |
| `Lifecycle.HistoryAlways` | app/repository/attempts.py:27-101 | with timely cancels: every past attempt has exactly one finished row; only the one in progress may have none |
| `Lifecycle.CancelKeepsHistoryIff` | app/services/jobs.py:83-100 | a cancel keeps the history complete if and only if the job is not RUNNING when its UPDATE lands |
| `Lifecycle.StaleCancelBreaksHistory` | app/services/jobs.py:76-100 | a concrete run: a cancel that read the job QUEUED commits after a worker's claim; the job is CANCELLED and its attempt row stays RUNNING |
| `Lifecycle.FuelStep` | app/retry_policy.py:32-33 | every effective admission, claim, finalisation, reclaim or cancel burns a measure no other step raises |
| `Lifecycle.BoundedLifecycle` | app/retry_policy.py:32-33 | over any run a job takes at most 5 * max_attempts + 3 such steps, and its attempt never exceeds max_attempts |
| `Cancellation.FinalizationCancelsIff` | app/services/worker.py:163-174 | an effective finalisation ends CANCELLED if and only if its worker saw the flag |
| `Cancellation.FlaggedEndsCancelledIff` | app/repository/jobs.py:232-236 | a flagged RUNNING job leaves RUNNING as CANCELLED unless a worker finalises it on a re-read older than the request |
| `Cancellation.FlaggedQueuedStuckIff` | app/repository/jobs.py:118-127 | a flagged QUEUED job never moves again, and leaves QUEUED, for CANCELLED, if and only if someone cancels it again |
| `Scenarios.RequestedCancelStrands` | app/services/worker.py:163-201 | a concrete run: the cancel is requested after the worker's re-read, the attempt fails retryably, the flagged job is QUEUED |
| `Leaks.LeakFreeIff` | app/services/jobs.py:84-100 | from a leak-free state the next one is leak-free if and only if the admission finds the job still QUEUED and the cancel releases what the job then holds |
| `Leaks.LeakFreeAlways` | app/services/worker.py:157-232 | in timely runs every ACTIVE reservation is held by the attempt running or awaits the next one of a queued job |
| `Leaks.AtomicNeverLeaks` | app/services/jobs.py:76-100 | with every admission and cancel committing right after its reading, nothing ever leaks and every attempt history is complete |
| `Leaks.DrainedWhenTerminal` | app/services/recovery.py:33-44 | when every job of a timely run is terminal, nothing is allocated |
| `Leaks.StaleAdmissionLeaks` | app/services/scheduler.py:54-79 | a concrete run: read, cancel, stale commit; a CANCELLED job keeps its reservation ACTIVE |
| `Delivery.CarriedIff` | outbox_relay/relay.py:17-22 | a waiting job keeps its message through duplicates and acknowledgements: it loses it exactly when a worker loses the last one |
| `Delivery.NoStrandedAdmission` | worker/main.py:14-32 | whenever an admitted job waits whose last message no worker lost, an event for it is unpublished or unconsumed |
| `Delivery.ConsumingClaims` | worker/main.py:14-18 | consuming a message for a waiting job claims its next attempt |
| `Scenarios.LostMessageStrands` | worker/main.py:23-32 | a concrete run: handling raises before the claim, the offset is committed, and the admitted job is left with no message |
| `Leases.LeaseRunsFromLastRenewal` | app/repository/jobs.py:150-162 | an owner's lease always runs from its claim or its last accepted heartbeat |
| `Leases.ReclaimIffLapsed` | app/repository/jobs.py:242-251 | a reclaim of an owned attempt takes effect if and only if more than a lease duration has passed since the last renewal |
| `Leases.PunctualOwnerNeverReclaimed` | app/services/worker.py:75-87 | an owner that always renews within the lease duration is never reclaimed: it leaves its attempt only by its own finalisation or a cancel |
| `ArtifactService.Store.CreatePending` | app/repository/artifacts.py:20-39 | adds a PENDING row unless the content already has one |
| `ArtifactService.Store.ClaimUploadLease` | app/repository/artifacts.py:42-63 | never wins while another lease is live, always for a PENDING row without one; a winner becomes the holder for a lease duration |
| `ArtifactService.Store.RenewUploadLease` | app/repository/artifacts.py:66-74 | renews exactly for the uploader of a PENDING row |
| `ArtifactService.Store.MarkUploaded` | app/repository/artifacts.py:77-95 | flips exactly a PENDING row of this uploader, lapsed lease or not |
| `ArtifactService.Store.ReconcileTo` | app/repository/artifacts.py:117-143 | settles exactly a PENDING row, with no test of its lease |
| `ArtifactService.UploadArtifact` | app/services/artifacts.py:11-56 | conflict exactly when the content's row has a live lease or is FAILED; unverified exactly when storage did not keep new bytes, the row then PENDING under this uploader; else UPLOADED with the data's hash; usable content is never uploaded again; other rows untouched |
| `ArtifactService.FinishUpload` | app/services/artifacts.py:46-56 | whatever happened since the lease was claimed: unverified exactly if the object does not hash to the key, fenced out exactly if the row is no longer this uploader's |
| `ArtifactService.ReconcilePending` | app/services/reconciler.py:12-34 | a pass settles exactly the PENDING rows with a lapsed lease, or never leased past the grace period, by re-hashing what storage holds; counts both kinds and leaves the rest |
| `Artifacts.SettledForever` | app/repository/artifacts.py:77-143 | UPLOADED and FAILED rows never change again, and an UPLOADED row's object is usable in every later state |
| `Artifacts.RegisteredBytesForever` | app/services/artifacts.py:25-56 | a registered version refers to the same bytes for ever |
| `ArtifactService.FailedContentBarred` | app/repository/artifacts.py:133-143 | once a row is FAILED it is the only row of its content for ever and every later upload of that content conflicts |
| `Artifacts.LeaseSince` | app/repository/artifacts.py:42-74 | a PENDING row's lease is the last one granted |
| `Artifacts.HolderChangesIff` | app/repository/artifacts.py:47-58 | a PENDING row changes its holder exactly when another uploader claims it with no lease live |
| `Artifacts.LeaseExclusive` | app/repository/artifacts.py:42-74 | in every run, from a grant until a lease duration has passed the row is settled or held by that uploader, whatever others try |
| `Artifacts.SweepHitsLiveLeaseIff` | app/repository/artifacts.py:133-143 | a sweep that fails a row it listed earlier hits a live lease if and only if one granted in between has not lapsed |
| `Artifacts.StaleSweepFailsLiveLease` | app/services/reconciler.py:19-30 | a concrete run in which a sweep fails an artifact whose upload lease is live |
| `Trainer.RunTrainer` | app/training/toy_trainer.py:49-85 | the files of the iteration from the starting point, the last one the model: with r the learning rate, the distance to the target is (1 - r) ** steps left times the initial one, so from the start or any iterate it ends where a straight run does; raises exactly for a zero checkpoint interval with steps to do |
| `Trainer.ClosedForm` | app/training/toy_trainer.py:70-71 | the law of the iteration: after n steps from zero the distance to the target is (1 - learning rate) ** n of it |
| `Trainer.EndsWith` | app/training/toy_trainer.py:66-85 | the same closed form for the last file of a run from any parameter and step |
| `Trainer.ResumeIsExact` | app/training/toy_trainer.py:49-85 | resuming at the n-th iterate reports only files a straight run would, ending with the same final model |
| `Trainer.CheckpointsSaved` | app/training/toy_trainer.py:65-80 | a resumed trainer saves exactly the checkpoints at the interval's multiples still ahead, each holding its iterate |
| `TrainingRuns.FindResumeIsNewest` | app/training/checkpoint_discovery.py:20-45 | over the ordered candidates, discovery returns the newest compatible one, and none only if none is compatible |
| `TrainingRuns.FindResumeRules` | app/training/checkpoint_discovery.py:48-80 | rule by rule: what discovery returns is UPLOADED, re-hashes, and has the run's base model and the supported format; any candidate that does is no later than it |
| `TrainingService.Registrations.RegisterCheckpoint` | app/repository/checkpoints.py:16-64 | inserts exactly under the fence with free keys; says whether it was fenced out or violated a key |
| `TrainingService.Registrations.RegisterOutput` | app/repository/training_run_outputs.py:10-47 | inserts exactly under the fence and at most once per run |
| `TrainingService.RunTrainingAttempt` | app/training/executor.py:37-102 | the verdict: transient if abandoned, success if a final file was handled, else the last error, else unknown; under the fence every handled file is uploaded and registered |
| `Supervision.JudgedOnce` | app/training/executor.py:90-100 | the lines determine the verdict |
| `TrainingProofs.TrustedCheckpointIsExact` | app/training/checkpoint_discovery.py:34-45 | in every reachable state, a registered checkpoint at step s, from whichever attempt, resumes from the s-th iterate of the uninterrupted run |
| `TrainingProofs.RegisteredIsCompatible` | app/repository/checkpoints.py:16-29 | in every reachable state a registered checkpoint passes every compatibility rule |
| `TrainingProofs.ResumesAtLatest` | app/training/checkpoint_discovery.py:34-45 | so discovery returns the run's latest registered checkpoint, if there is any |
| `TrainingProofs.BeginsWhereItResumes` | app/training/executor.py:105-116 | an attempt given a checkpoint goes on from that step's iterate, one given none from zero |
| `TrainingProofs.OutputIsStraightRun` | app/training/toy_trainer.py:49-85 | through any crashes, resumes and racing attempts, a registered output holds the parameter an uninterrupted run ends with |
| `TrainingProofs.SucceededHasOutput` | app/training/executor.py:147-179 | a SUCCEEDED training job has an output registered by the very attempt that succeeded, though the supervisor ignores being fenced out |
| `TrainingProofs.OutputKept` | app/repository/training_run_outputs.py:10-21 | a registered output is never replaced |
| `TrainingProofs.OrphanedOutputBlocksSuccess` | app/models/training_run_output.py:10-12 | an output registered by an attempt that then lost the job keeps the job from ever being SUCCEEDED |
| `TrainingProofs.RegistrationFailsIff` | app/training/executor.py:153-179 | in every reachable state: handing in a checkpoint never violates a key, and a final model's registration does if and only if its attempt still owns the job and the run already has an output |
| `TrainingProofs.CheckpointNeverClashes` | app/training/toy_trainer.py:31-47 | run, attempt and step stamped into a checkpoint file keep its key and its artifact unused |
| `TrainingScenarios.OutputOrphaned` | app/repository/training_run_outputs.py:10-21 | a concrete run: attempt 1 registers its output, its lease lapses, recovery takes the job back and attempt 2 runs |
| `TrainingScenarios.TrainingSucceeds` | app/training/executor.py:93-94 | a concrete run to a SUCCEEDED training job |
| `Metrics.StripLeftTakes` | app/evaluation/metrics.py:13-15 | stripping removes whitespace only, and all of it, at the front |
| `Metrics.StripRightTakes` | app/evaluation/metrics.py:13-15 | the same at the back |
| `Metrics.ExactMatchIff` | app/evaluation/metrics.py:13-15 | an exact match is 1 if prediction and expected text share a core with only whitespace around it, else 0 |
| `Metrics.SplitAtSpace` | app/evaluation/metrics.py:18-22 | every whitespace character separates tokens; with `Metrics.SplitOfWord` this fixes the tokens of every string |
| `Metrics.SplitOfWord` | app/evaluation/metrics.py:18-22 | a word is its own only token |
| `Metrics.SpaceIs` | app/evaluation/metrics.py:15-22 | the 29 whitespace characters |
| `Metrics.SplitOfStrip` | app/evaluation/metrics.py:13-27 | stripping does not change the whitespace tokens |
| `Metrics.SplitOfJoin` | app/evaluation/toy_evaluator.py:27-30 | splitting undoes joining |
| `Metrics.JoinAdds` | app/evaluation/toy_evaluator.py:29-30 | joining puts exactly one space between tokens |
| `Metrics.MatchesCounted` | app/evaluation/metrics.py:26 | the matches counted are the positions at which both token lists agree |
| `Metrics.TokenAccuracyIsFraction` | app/evaluation/metrics.py:18-27 | token accuracy lies in [0, 1] and is 1 exactly when the token lists agree |
| `Metrics.TokenAccuracyCounts` | app/evaluation/metrics.py:23-27 | it is the number of agreeing positions over the longer length, and 1 without tokens |
| `Metrics.ExactWithinTokens` | app/evaluation/metrics.py:13-27 | an exact match never exceeds the token accuracy |
| `Metrics.SortedIsSorted` | app/evaluation/metrics.py:35 | the sorted values are an ascending permutation |
| `Metrics.PercentileAtRank` | app/evaluation/metrics.py:38-42 | at the sample's own ranks the percentile is the sample: minimum at 0, maximum at 100, the k-th smallest in between |
| `Metrics.PercentileBetween` | app/evaluation/metrics.py:38-42 | between two ranks the percentile interpolates linearly |
| `Metrics.PercentileMonotone` | app/evaluation/metrics.py:30-42 | the percentile is monotone in p |
| `Metrics.AggregateShape` | app/evaluation/metrics.py:45-70 | every aggregated metric: name, value over the scores or the measured times, sample count |
| `Evaluator.EvaluationOrdered` | app/evaluation/metrics.py:45-70 | for every example list, model and measured times: exact_match at most token_accuracy, p50 at most p95 |
| `Evaluator.ReportedOrdered` | app/evaluation/toy_evaluator.py:69-76 | the same of the metric lines an evaluator process reports |
| `Evaluator.PredictTokens` | app/evaluation/toy_evaluator.py:22-30 | a prediction has the input's tokens, in order for a trained model, reversed otherwise |
| `Evaluator.ResultLine` | app/evaluation/toy_evaluator.py:46-67 | the line written about an example: its id, prediction, expected text, score 1 or 0 for sharing a core with it, measured time |
| `Evaluator.ModelScores` | app/evaluation/toy_evaluator.py:22-30 | a trained model scores 1 on every example expecting its input's tokens joined by single spaces, an untrained one on those expecting them reversed |
| `Evaluator.AccuracyLine` | app/evaluation/metrics.py:45-56 | the exact_match line is the number of matching examples over the sample count, the token_accuracy line the mean of the token scores |
| `Evaluator.TokenScoreAt` | app/evaluation/toy_evaluator.py:55-56 | the token score averaged for an example is its prediction's token accuracy |
| `Evaluator.LatencyLine` | app/evaluation/metrics.py:57-69 | the latency lines are mean, median and 95th percentile of the times measured |
| `Evaluator.RaisesIff` | app/evaluation/subprocess_main.py:60-64 | the process reports an error exactly when an evaluated example lacks its id or its input, else its end |
| `Evaluator.EndMeans` | app/evaluation/toy_evaluator.py:78 | only the last line ends the process, with the number of examples evaluated |
| `Evaluator.Truncate` | app/evaluation/toy_evaluator.py:39-42 | max_examples as a Python slice bound, negative ones included |
| `Evaluator.RunEvaluator` | app/evaluation/toy_evaluator.py:33-78 | the process reports results, then the aggregates, then its end; or results up to a malformed example, then an error |
| `Evaluator.ReportMeans` | app/evaluation/toy_evaluator.py:46-78 | report by report: the n-th line is the n-th example's result, metric lines carry exact values, the end is reported only when all examples were usable |
| `EvaluationService.Store.MarkStatus` | app/repository/evaluation_runs.py:15-27 | writes exactly under the fence, whatever the current status |
| `EvaluationService.Store.RecordResult` | app/repository/evaluation_results.py:14-28 | inserts exactly under the fence and only where no row has the key |
| `EvaluationService.Store.RecordMetric` | app/repository/evaluation_metrics.py:13-27 | the same for metrics |
| `EvaluationService.RunEvaluationAttempt` | app/evaluation/executor.py:44-145 | run status, tables and verdict of an attempt in each case: fenced out, unusable artifacts, abandoned, final, failed |
| `EvaluationService.UninterruptedAttemptAnswers` | app/evaluation/executor.py:102-132 | one attempt read to its end leaves the complete answer, whatever partial rows earlier attempts left |
| `EvaluationProofs.NewResultIsFirst` | app/repository/evaluation_results.py:14-28 | a stored row always belongs to the first example of its id |
| `EvaluationProofs.StoredForever` | app/repository/evaluation_results.py:14-28 | stored results and metrics are never rewritten in any run |
| `EvaluationProofs.SucceededEvaluationIsExact` | app/evaluation/executor.py:102-132 | once the job is SUCCEEDED, after any partial attempts, its run is SUCCEEDED, the stored ids are exactly the evaluated ones with single-run scores, and both accuracy metrics are stored with their exact values |
| `EvaluationProofs.RetriesConverge` | app/repository/evaluation_results.py:14-28 | two evaluations of one task, in any deployments and after any crashes, store the same predictions, scores and accuracy metrics |
| `EvaluationProofs.StoredOrdered` | app/evaluation/metrics.py:45-70 | the accuracies stored for a SUCCEEDED evaluation are in order too |
| `EvaluationScenarios.EvaluationSucceeds` | app/evaluation/executor.py:127-132 | every task whose examples are well formed can reach a SUCCEEDED job |
| `EvaluationProofs.FrozenAfterSuccess` | app/repository/evaluation_runs.py:15-27 | a run row never changes after its job is SUCCEEDED |
| `EvaluationProofs.SucceededRunReopensIff` | app/repository/evaluation_runs.py:87-112 | a SUCCEEDED run is reopened exactly by a fenced first or failing write of an attempt |
| `EvaluationProofs.ReopenedByLaterAttempt` | app/repository/evaluation_runs.py:15-27 | in every run, only a later attempt than the one that completed a SUCCEEDED run reopens it: the completing worker lost the job before finalising |
| `EvaluationScenarios.SucceededRunReopened` | app/evaluation/executor.py:87-89 | a concrete run: attempt 1 completes the run and dies, attempt 2's first write sets it back to RUNNING |
| `EvaluationProofs.MetricIsMeanOfStored` | app/repository/evaluation_metrics.py:13-27 | with distinct ids the stored exact_match metric is the mean of the stored scores |
| `EvaluationProofs.StoredInFigures` | app/repository/evaluation_results.py:14-28 | once the job is SUCCEEDED: a stored score is 1 or 0 for prediction and expected text sharing a core, the stored exact_match the share of examples that do |
| `EvaluationProofs.StoredCount` | app/repository/evaluation_results.py:14-28 | as many rows as evaluated examples if and only if their ids are distinct |

## Left out

- The generic status PATCH and soft delete (`app/services/jobs.py:42-72`, `:117-119`): they bypass leases and reservations, so leak-freedom and the attempt history do not hold with them.
- `scheduling_decisions` rows and the second transaction that writes them: diagnostic only.
- Columns nothing decides on: claimed_at, released_at, updated_at, error messages, failure domains, size_bytes, completed_at of jobs.
- training_metrics and attempt_resume_decisions rows: fenced inserts nothing reads.
- Scheduler.RunOnce: assumes the reservation keys of schedulable jobs free, which `Invariants.SchedulableKeyFree` proves of every reachable state.
- Worker.ProcessJobMessage: the executor's verdict and the refused heartbeat are parameters, and nothing interferes; `Worker.BeginAttempt` and `Worker.FinishMessage` hold on any state of the tables, so interference between them is covered there.
- TrainingService.RunTrainingAttempt: a fence that changes while the loop runs is covered by the transition system, not by this method; resume preparation is `TrainingRuns.FindResume` and the transition system's first step.
- EvaluationService.RunEvaluationAttempt: the same for the fence; whether the artifacts can be downloaded is a parameter.
- Recovery.ReclaimStaleLeases: the order in which rows are visited and the loss of a race to another process are not modelled in the method; the transition system has both.
- Relay.RelayOnce: a send that fails half-way is two separate steps of the transition system.
- Api.CancelJob: a job that leaves RUNNING between the read and the flag's UPDATE is two steps of the transition system.
- Metrics.PercentileMonotone: reals instead of floats, so rounding is not modelled; the same holds for training parameters and priorities.
- The claim that no admitted-size job starves: a pass goes on to smaller candidates after refusing a big one.
- Delivery.NoStrandedAdmission: database errors are modelled only where they lose a message (`worker/main.py:23-32`); one that interrupts a pass is a process that takes no further step.
- Kafka, boto3, subprocesses, signals and threads: a bag of messages, a map from hash to object, a list of lines and free-running heartbeat steps stand for them.
- JSON encoding of checkpoint and model files: an object is a structured value, and its hash a function of it.
- Hash collisions where a lemma lists injectivity.
- ORM identity-map and session effects other than the stale reads of admissions and cancels.
- A missing capacity row: it is taken to exist.
- Example inputs and expected outputs that are neither strings nor null; evaluators and trainers other than the toy ones.
- Routers, schemas, logging, health checks, migrations, GPU probing, lineage, version listing, orphan detection, the metrics collector.
- Quality gates and baseline resolution: small case analyses over stored metrics.
