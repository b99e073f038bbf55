/** Whole-run claims about admission, the attempt history, failure and termination of jobs. */
module Lifecycle {
  import opened Types
  import opened Rules
  import opened Transactions
  import opened Protocol
  import opened Effects
  import opened Fencing
  import opened Invariants

  // ----- stale admission -------------------------------------------------------------------

  /** Every remembered snapshot was a true reading of an earlier state. */
  lemma {:induction false} SnapshotWasTrue(cfg: Settings, run: Run, n: nat, key: Key) returns (m: nat)
    requires run.Valid(cfg) && n < |run.states| && key in run.states[n].admitReads
    ensures m < n && run.log[m].event == AdmitRead(key.job)
    ensures Schedulable(run.states[m].db, key.job, run.log[m].now)
    ensures run.states[m].db.jobs[key.job].attempt == key.attempt
  {
    m := n - 1;
    assert Step(cfg, run.states[m], run.log[m], run.states[n]);
    if key in run.states[m].admitReads {
      m := SnapshotWasTrue(cfg, run, m, key);
    }
  }

  /** An admission that goes through at step `n` rests on a reading, however old, of the very attempt
  number the job still has, and the job has at worst been cancelled since. */
  lemma StaleAdmission(cfg: Settings, run: Run, n: nat, j: JobId, a: nat) returns (m: nat)
    requires ValidSettings(cfg) && run.Valid(cfg) && n < |run.log|
    requires run.log[n].event == AdmitCommit(j, a) && Admits(cfg, run.states[n].db, j, a)
    ensures m < n && Schedulable(run.states[m].db, j, run.log[m].now)
    ensures run.states[m].db.jobs[j].attempt == a == run.states[n].db.jobs[j].attempt
    ensures run.states[n].db.jobs[j].status in {Queued, Cancelled}
  {
    assert Step(cfg, run.states[n], run.log[n], run.states[n + 1]);
    InvAlways(cfg, run, n);
    AdmitNeedsFreshAttempt(cfg, run.states[n], j, a);
    m := SnapshotWasTrue(cfg, run, n, Key(j, a));
  }

  // ----- FAILED ------------------------------------------------------------------------------

  /** In every reachable state: a dead-letter entry means FAILED, and it is for the job's last attempt;
  and a FAILED job has no entry if and only if its last attempt was LOST, which takes recovery and
  the last of the attempts allowed. */
  lemma FailedExactly(cfg: Settings, run: Run, i: nat, j: JobId)
    requires ValidSettings(cfg) && run.Valid(cfg) && i < |run.states| && j in run.states[i].db.jobs
    ensures var db := run.states[i].db; var row := db.jobs[j]; var last := Key(j, row.attempt);
            && (j in db.dlq ==> row.status.Failed? && db.dlq[j].lastAttempt == row.attempt == db.dlq[j].totalAttempts)
            && (row.status.Failed? ==>
                  && last in db.attempts
                  && (j in db.dlq <==> db.attempts[last].status.AttemptFailed?)
                  && (j !in db.dlq <==> db.attempts[last].status.AttemptLost?)
                  && (j !in db.dlq ==> row.attempt == cfg.maxAttempts))
  {
    InvAlways(cfg, run, i);
    assert Bounded(cfg, run.states[i].db.jobs[j]);
  }

  // ----- attempt history -----------------------------------------------------------------------

  predicate Finished(a: Attempt) {
    !a.status.AttemptRunning?
  }

  lemma FinishedRowKept(cfg: Settings, db: Db, e: Event, now: Time, key: Key)
    requires Placed(db) && key in db.attempts && Finished(db.attempts[key])
    ensures AttemptAfter(cfg, db, e, now, key) == Some(db.attempts[key])
  {
    assert AttemptPlaced(db.jobs[key.job], key.attempt, db.attempts[key]);
  }

  /** A finished attempt row, LOST ones included, is never written again, stale cancels or not. */
  lemma {:induction false} FinishedRowsNeverChange(cfg: Settings, run: Run, m: nat, n: nat, key: Key)
    requires ValidSettings(cfg) && run.Valid(cfg) && m <= n < |run.states|
    requires key in run.states[m].db.attempts && Finished(run.states[m].db.attempts[key])
    ensures key in run.states[n].db.attempts
    ensures run.states[n].db.attempts[key] == run.states[m].db.attempts[key]
  {
    if m < n {
      var s, en := run.states[n - 1], run.log[n - 1];
      FinishedRowsNeverChange(cfg, run, m, n - 1, key);
      InvAlways(cfg, run, n - 1);
      assert Step(cfg, s, en, run.states[n]);
      assert en.event.Create? ==> en.event.job != key.job;
      Effect(cfg, s.db, en.event, en.now, key.job, key);
      FinishedRowKept(cfg, s.db, en.event, en.now, key);
    }
  }

  /** Attempts 1..n have a finished row each; only the one in progress may have none or a running one. */
  predicate AttemptSettled(db: Db, j: JobId, k: nat) {
    Key(j, k) in db.attempts && Finished(db.attempts[Key(j, k)])
  }

  ghost predicate HistoryComplete(db: Db, j: JobId)
    requires j in db.jobs
  {
    var row := db.jobs[j];
    forall k | 1 <= k <= row.attempt && !(row.status.Running? && k == row.attempt) :: AttemptSettled(db, j, k)
  }

  /** The cancel's UPDATE finds the job no longer RUNNING, as it was when `cancel_job` read it. */
  predicate CancelTimely(db: Db, e: Event) {
    e.CancelCommit? && e.job in db.jobs ==> !db.jobs[e.job].status.Running?
  }

  lemma SettledKept(cfg: Settings, s: Sys, en: Entry, t: Sys, j: JobId, k: nat)
    requires Inv(cfg, s) && Step(cfg, s, en, t) && AttemptSettled(s.db, j, k)
    ensures AttemptSettled(t.db, j, k)
  {
    assert en.event.Create? ==> en.event.job != j;
    Effect(cfg, s.db, en.event, en.now, j, Key(j, k));
    FinishedRowKept(cfg, s.db, en.event, en.now, Key(j, k));
  }

  /** The attempt that leaves RUNNING is settled by the transaction that makes it leave. */
  lemma LeavingSettles(cfg: Settings, s: Sys, en: Entry, t: Sys, j: JobId)
    requires Inv(cfg, s) && Step(cfg, s, en, t) && CancelTimely(s.db, en.event)
    requires j in s.db.jobs && s.db.jobs[j].status.Running?
    requires j in t.db.jobs && !t.db.jobs[j].status.Running?
    ensures AttemptSettled(t.db, j, s.db.jobs[j].attempt)
  {
    var e := en.event;
    Effect(cfg, s.db, e, en.now, j, Key(j, s.db.jobs[j].attempt));
    assert e.Finalize? ==> RunnerOk(s.db, Runner(e.job, e.attempt, e.worker, true));
  }

  lemma HistoryStep(cfg: Settings, s: Sys, en: Entry, t: Sys, j: JobId)
    requires Inv(cfg, s) && Step(cfg, s, en, t) && CancelTimely(s.db, en.event)
    requires j in s.db.jobs && HistoryComplete(s.db, j)
    ensures j in t.db.jobs && HistoryComplete(t.db, j)
  {
    StepLater(cfg, s.db, en.event, en.now, j);
    var row, row' := s.db.jobs[j], t.db.jobs[j];
    AttemptGrowth(cfg, s, en, t, j);
    forall k | 1 <= k <= row'.attempt && !(row'.status.Running? && k == row'.attempt)
      ensures AttemptSettled(t.db, j, k)
    {
      if row.status.Running? && k == row.attempt {
        LeavingSettles(cfg, s, en, t, j);
      } else {
        SettledKept(cfg, s, en, t, j, k);
      }
    }
  }

  lemma AttemptGrowth(cfg: Settings, s: Sys, en: Entry, t: Sys, j: JobId)
    requires Inv(cfg, s) && Step(cfg, s, en, t) && j in s.db.jobs && j in t.db.jobs
    ensures t.db.jobs[j].attempt == s.db.jobs[j].attempt
         || (t.db.jobs[j].attempt == s.db.jobs[j].attempt + 1 && t.db.jobs[j].status.Running?
             && !s.db.jobs[j].status.Running?)
  {
    Effect(cfg, s.db, en.event, en.now, j, Key(j, 0));
  }

  /** Gapless history in every run whose cancels are timely. */
  lemma {:induction false} HistoryAlways(cfg: Settings, run: Run, i: nat, j: JobId)
    requires ValidSettings(cfg) && run.Valid(cfg) && i < |run.states| && j in run.states[i].db.jobs
    requires forall n | 0 <= n < i :: CancelTimely(run.states[n].db, run.log[n].event)
    ensures HistoryComplete(run.states[i].db, j)
  {
    if i > 0 {
      var s, en := run.states[i - 1], run.log[i - 1];
      assert Step(cfg, s, en, run.states[i]);
      InvAlways(cfg, run, i - 1);
      if j in s.db.jobs {
        HistoryAlways(cfg, run, i - 1, j);
        HistoryStep(cfg, s, en, run.states[i], j);
      } else if en.event.Create? && en.event.job == j {
      } else {
        Effect(cfg, s.db, en.event, en.now, j, Key(j, 0));
      }
    }
  }

  /** The condition is exact: a cancel keeps the history complete if and only if it is timely. */
  lemma CancelKeepsHistoryIff(cfg: Settings, s: Sys, en: Entry, t: Sys)
    requires Inv(cfg, s) && Step(cfg, s, en, t) && en.event.CancelCommit?
    requires en.event.job in s.db.jobs && HistoryComplete(s.db, en.event.job)
    ensures en.event.job in t.db.jobs
    ensures HistoryComplete(t.db, en.event.job) <==> CancelTimely(s.db, en.event)
  {
    var j := en.event.job;
    StepLater(cfg, s.db, en.event, en.now, j);
    if CancelTimely(s.db, en.event) {
      HistoryStep(cfg, s, en, t, j);
    } else {
      var k := s.db.jobs[j].attempt;
      Effect(cfg, s.db, en.event, en.now, j, Key(j, k));
      assert Bounded(cfg, s.db.jobs[j]);
      assert t.db.jobs[j].attempt == k && 1 <= k && t.db.jobs[j].status.Cancelled?;
      assert !AttemptSettled(t.db, j, k);
    }
  }

  // ----- the untimely cancel happens ------------------------------------------------------------

  const SMALL := Overrides(Some(1), Some(1), Some(0))

  /** A job is created and read, by a scheduler and by a canceller. */
  lemma CreatedAndRead(cfg: Settings, s: Sys) returns (run: Run)
    requires Init(s)
    ensures run.Valid(cfg) && run.states[0] == s && |run.log| == 3
    ensures var t := run.states[3];
            && t.clock == s.clock && Key(0, 0) in t.cancelReads && Key(0, 0) in t.admitReads
            && 0 in t.db.jobs && t.db.jobs[0] == NewJob(50, SMALL, s.clock)
            && t.db == s.db.(jobs := t.db.jobs)
  {
    run := Run([s], []);
    run := Extended(cfg, run, Create(0, 50, SMALL), s.clock);
    run := Extended(cfg, run, CancelRead(0), s.clock);
    run := Extended(cfg, run, AdmitRead(0), s.clock);
  }

  /** Then it is admitted. */
  lemma ReadThenAdmitted(cfg: Settings, s: Sys) returns (run: Run)
    requires Init(s) && Resources(1, 1, 0).Within(s.db.capacity.total)
    ensures run.Valid(cfg) && run.states[0] == s && |run.log| == 4
    ensures var t := run.states[4];
            && t.clock == s.clock && Key(0, 0) in t.cancelReads && t.db.attempts == map[]
            && 0 in t.db.jobs && t.db.jobs[0] == NewJob(50, SMALL, s.clock) && HasActive(t.db, Key(0, 1))
            && t.db.outbox == [OutboxRow(0, None)]
  {
    run := CreatedAndRead(cfg, s);
    assert Admits(cfg, run.states[3].db, 0, 0);
    run := Extended(cfg, run, AdmitCommit(0, 0), s.clock);
  }

  /** A worker takes it up meanwhile. */
  lemma ReadThenStarted(cfg: Settings, s: Sys) returns (run: Run)
    requires Init(s) && Resources(1, 1, 0).Within(s.db.capacity.total)
    ensures run.Valid(cfg) && run.states[0] == s && |run.log| == 7
    ensures var t := run.states[7];
            && t.clock == s.clock && Key(0, 0) in t.cancelReads
            && Fence(t.db, 0, "w", 1)
            && Key(0, 1) in t.db.attempts && t.db.attempts[Key(0, 1)].status.AttemptRunning?
  {
    run := ReadThenAdmitted(cfg, s);
    run := Extended(cfg, run, RelaySend(0), s.clock);
    run := Extended(cfg, run, Consume(0, "w", true), s.clock);
    run := Extended(cfg, run, StartAttempt(0, 1, "w"), s.clock);
  }

  /** Concretely: a cancel that read the job QUEUED commits after a worker has claimed it.  The job is
  CANCELLED and its attempt row stays RUNNING. */
  lemma StaleCancelBreaksHistory(cfg: Settings, s: Sys) returns (run: Run)
    requires Init(s) && Resources(1, 1, 0).Within(s.db.capacity.total)
    ensures run.Valid(cfg) && run.states[0] == s && |run.log| == 8
    ensures 0 in run.states[8].db.jobs && run.states[8].db.jobs[0].status.Cancelled?
    ensures !HistoryComplete(run.states[8].db, 0)
  {
    run := ReadThenStarted(cfg, s);
    var t := run.states[7].db;
    CancelSources();
    CancelEffect(cfg, t, 0, 0, s.clock, 0, Key(0, 1));
    run := Extended(cfg, run, CancelCommit(0, 0), s.clock);
    assert !AttemptSettled(run.states[8].db, 0, 1);
  }

  // ----- bounded lifecycle ------------------------------------------------------------------------

  function Phase(row: Job, reserved: bool): nat {
    match row.status
    case Running => 4
    case Queued => if reserved then 2 else 3
    case Cancelled => if reserved then 0 else 1
    case _ => 0
  }

  /** Lexicographic measure (attempts left, phase), as one number. */
  function Fuel(cfg: Settings, row: Job, reserved: bool): int {
    5 * (cfg.maxAttempts - row.attempt) + Phase(row, reserved)
  }

  function JobFuel(cfg: Settings, db: Db, j: JobId): int
    requires j in db.jobs
  {
    Fuel(cfg, db.jobs[j], NextKey(db, j) in db.reservations)
  }

  lemma FuelRange(cfg: Settings, row: Job, reserved: bool)
    requires Bounded(cfg, row)
    ensures 0 <= Fuel(cfg, row, reserved) <= 5 * cfg.maxAttempts + 3
  {
  }

  /** The event is an admission, claim, finalisation, reclaim or cancel of `j` that takes effect. */
  predicate Moves(cfg: Settings, db: Db, e: Event, now: Time, j: JobId) {
    match e
    case AdmitCommit(i, a) => i == j && Admits(cfg, db, i, a)
    case Consume(i, _, _) => i == j && Claimable(db, i, now)
    case Finalize(i, k, w, _, _) => i == j && Fence(db, i, w, k)
    case Reclaim(i, _, _) => i == j && Stale(db, i, now)
    case CancelCommit(i, _) => i == j && Cancellable(db, i)
    case _ => false
  }

  /** On single rows: an effective event of `j` burns fuel and no event adds any. */
  lemma FuelRow(cfg: Settings, db: Db, e: Event, now: Time, j: JobId)
    requires j in db.jobs && Bounded(cfg, db.jobs[j])
    requires e.AdmitCommit? && Moves(cfg, db, e, now, j) ==>
               e.read == db.jobs[j].attempt && (db.jobs[j].status.Queued? || db.jobs[j].status.Cancelled?)
    ensures var row' := RowAfter(cfg, db, e, now, j);
            var reserved' := ReservationAfter(cfg, db, e, now, Key(j, row'.attempt + 1)).Some?;
            Fuel(cfg, row', reserved') <= JobFuel(cfg, db, j) - if Moves(cfg, db, e, now, j) then 1 else 0
  {
    CancelSources();
  }

  /** An admission that takes effect rests on the attempt number the job still has. */
  lemma AdmissionFresh(cfg: Settings, s: Sys, e: Event, now: Time, j: JobId)
    requires Inv(cfg, s) && Enabled(cfg, s, e, now) && e.AdmitCommit? && Moves(cfg, s.db, e, now, j)
    ensures j in s.db.jobs && e.read == s.db.jobs[j].attempt
    ensures s.db.jobs[j].status.Queued? || s.db.jobs[j].status.Cancelled?
  {
    AdmitNeedsFreshAttempt(cfg, s, j, e.read);
  }

  lemma FuelDb(cfg: Settings, db: Db, e: Event, now: Time, j: JobId)
    requires j in db.jobs && Bounded(cfg, db.jobs[j]) && (e.Create? ==> e.job !in db.jobs)
    requires e.AdmitCommit? && Moves(cfg, db, e, now, j) ==>
               e.read == db.jobs[j].attempt && (db.jobs[j].status.Queued? || db.jobs[j].status.Cancelled?)
    ensures var db' := DbAfter(cfg, db, e, now);
            j in db'.jobs && JobFuel(cfg, db', j) <= JobFuel(cfg, db, j) - if Moves(cfg, db, e, now, j) then 1 else 0
  {
    Effect(cfg, db, e, now, j, Key(j, RowAfter(cfg, db, e, now, j).attempt + 1));
    FuelRow(cfg, db, e, now, j);
  }

  lemma FuelStep(cfg: Settings, s: Sys, en: Entry, t: Sys, j: JobId)
    requires Inv(cfg, s) && Step(cfg, s, en, t) && j in s.db.jobs
    ensures j in t.db.jobs
    ensures JobFuel(cfg, t.db, j) <= JobFuel(cfg, s.db, j) - if Moves(cfg, s.db, en.event, en.now, j) then 1 else 0
  {
    assert Bounded(cfg, s.db.jobs[j]);
    if en.event.AdmitCommit? && Moves(cfg, s.db, en.event, en.now, j) {
      AdmissionFresh(cfg, s, en.event, en.now, j);
    }
    FuelDb(cfg, s.db, en.event, en.now, j);
  }

  lemma FuelStepOf(cfg: Settings, run: Run, n: nat, j: JobId)
    requires ValidSettings(cfg) && run.Valid(cfg) && n < |run.log| && j in run.states[n].db.jobs
    ensures j in run.states[n + 1].db.jobs
    ensures JobFuel(cfg, run.states[n + 1].db, j) <=
            JobFuel(cfg, run.states[n].db, j) - if Moves(cfg, run.states[n].db, run.log[n].event, run.log[n].now, j) then 1 else 0
  {
    InvAlways(cfg, run, n);
    assert Step(cfg, run.states[n], run.log[n], run.states[n + 1]);
    FuelStep(cfg, run.states[n], run.log[n], run.states[n + 1], j);
  }

  /** How many such events the log holds from position `m` up to `n`. */
  ghost function MoveCount(cfg: Settings, run: Run, m: nat, n: nat, j: JobId): nat
    requires m <= n <= |run.log| < |run.states|
    decreases n
  {
    if m == n then 0
    else MoveCount(cfg, run, m, n - 1, j)
         + if Moves(cfg, run.states[n - 1].db, run.log[n - 1].event, run.log[n - 1].now, j) then 1 else 0
  }

  lemma {:induction false} FuelSpent(cfg: Settings, run: Run, m: nat, n: nat, j: JobId)
    requires ValidSettings(cfg) && run.Valid(cfg) && m <= n < |run.states| && j in run.states[m].db.jobs
    ensures j in run.states[n].db.jobs
    ensures MoveCount(cfg, run, m, n, j) + JobFuel(cfg, run.states[n].db, j) <= JobFuel(cfg, run.states[m].db, j)
  {
    if m < n {
      FuelSpent(cfg, run, m, n - 1, j);
      FuelStepOf(cfg, run, n - 1, j);
    }
  }

  lemma JobFuelRange(cfg: Settings, run: Run, i: nat, j: JobId)
    requires ValidSettings(cfg) && run.Valid(cfg) && i < |run.states| && j in run.states[i].db.jobs
    ensures 0 <= JobFuel(cfg, run.states[i].db, j) <= 5 * cfg.maxAttempts + 3
    ensures run.states[i].db.jobs[j].attempt <= cfg.maxAttempts
  {
    InvAlways(cfg, run, i);
    FuelRange(cfg, run.states[i].db.jobs[j], NextKey(run.states[i].db, j) in run.states[i].db.reservations);
  }

  /** However long the run and whatever interleaves, a job takes at most `5 * max_attempts + 3`
  effective admissions, claims, finalisations, reclaims and cancels. */
  lemma BoundedLifecycle(cfg: Settings, run: Run, m: nat, n: nat, j: JobId)
    requires ValidSettings(cfg) && run.Valid(cfg) && m <= n < |run.states| && j in run.states[m].db.jobs
    ensures MoveCount(cfg, run, m, n, j) <= 5 * cfg.maxAttempts + 3
    ensures j in run.states[n].db.jobs && run.states[n].db.jobs[j].attempt <= cfg.maxAttempts
  {
    FuelSpent(cfg, run, m, n, j);
    JobFuelRange(cfg, run, m, j);
    JobFuelRange(cfg, run, n, j);
  }
}
