/** What holds in every reachable state, however stale the readings commits rest on. */
module Invariants {
  import opened Types
  import opened Transactions
  import opened Protocol
  import opened Effects
  import opened Fencing

  // ----- one job ------------------------------------------------------------------------

  ghost predicate Bounded(cfg: Settings, row: Job) {
    && row.attempt <= cfg.maxAttempts
    && !row.status.Pending?
    && (row.status.Queued? ==> row.attempt < cfg.maxAttempts)
    && (row.status.Running? ==> 1 <= row.attempt && row.leaseOwner.Some? && row.leaseExpires.Some?)
  }

  /** Every attempt ever claimed used a reservation, and reservation rows are never deleted. */
  ghost predicate ClaimsReserved(db: Db, j: JobId)
    requires j in db.jobs
  {
    forall k | 1 <= k <= db.jobs[j].attempt :: Key(j, k) in db.reservations
  }

  /** A reservation is for a past or current attempt, or for the next one of a job not running; while
  the job is queued the latter is still ACTIVE. */
  predicate ReservationPlaced(row: Job, k: nat, r: Reservation) {
    || 1 <= k <= row.attempt
    || (k == row.attempt + 1 && ((row.status.Queued? && r.active) || row.status.Cancelled?))
  }

  predicate AttemptPlaced(row: Job, k: nat, a: Attempt) {
    1 <= k <= row.attempt && (row.status.Running? && k == row.attempt ==> a.status.AttemptRunning?)
  }

  ghost predicate Placed(db: Db) {
    && (forall key :: key in db.reservations ==>
          key.job in db.jobs && ReservationPlaced(db.jobs[key.job], key.attempt, db.reservations[key]))
    && (forall key :: key in db.attempts ==>
          key.job in db.jobs && AttemptPlaced(db.jobs[key.job], key.attempt, db.attempts[key]))
  }

  /** FAILED at attempt `k`, exactly: dead-lettered under that number, the attempt row FAILED too, or
  reclaimed with no attempt left, the attempt row LOST and no dead-letter entry. */
  predicate Explained(cfg: Settings, k: nat, dead: Option<DlqEntry>, last: Option<Attempt>) {
    match dead
    case Some(entry) => entry.lastAttempt == k && entry.totalAttempts == k && last.Some? && last.value.status.AttemptFailed?
    case None => k >= cfg.maxAttempts && last.Some? && last.value.status.AttemptLost?
  }

  predicate FailedExplained(cfg: Settings, db: Db, j: JobId)
    requires j in db.jobs
  {
    Explained(cfg, db.jobs[j].attempt, Lookup(db.dlq, j), Lookup(db.attempts, Key(j, db.jobs[j].attempt)))
  }

  ghost predicate FailuresExplained(cfg: Settings, db: Db) {
    && (forall j :: j in db.dlq ==> j in db.jobs && db.jobs[j].status.Failed?)
    && (forall j :: j in db.jobs && db.jobs[j].status.Failed? ==> FailedExplained(cfg, db, j))
  }

  // ----- what processes remember ------------------------------------------------------------

  /** All that is left of a snapshot "QUEUED at attempt a", however old. */
  predicate SnapshotOk(db: Db, key: Key) {
    && key.job in db.jobs
    && key.attempt <= db.jobs[key.job].attempt
    && (key.attempt == db.jobs[key.job].attempt ==>
          db.jobs[key.job].status.Queued? || db.jobs[key.job].status.Cancelled?)
  }

  ghost predicate SnapshotsOk(s: Sys) {
    && (forall key :: key in s.admitReads ==>
          && SnapshotOk(s.db, key)
          && (s.db.jobs[key.job].attempt == key.attempt && s.db.jobs[key.job].status.Queued? ==>
                Due(s.db.jobs[key.job], s.clock)))
    && (forall key :: key in s.cancelReads ==> SnapshotOk(s.db, key))
  }

  predicate RunnerOk(db: Db, r: Runner) {
    && r.job in db.jobs
    && 1 <= r.attempt <= db.jobs[r.job].attempt
    && (r.started ==> Key(r.job, r.attempt) in db.attempts)
  }

  ghost predicate Inv(cfg: Settings, s: Sys) {
    && (forall j :: j in s.db.jobs ==> Bounded(cfg, s.db.jobs[j]) && ClaimsReserved(s.db, j))
    && Placed(s.db)
    && FailuresExplained(cfg, s.db)
    && SnapshotsOk(s)
    && (forall r :: r in s.runners ==> RunnerOk(s.db, r))
  }

  // ----- preservation ---------------------------------------------------------------------

  lemma BoundedRow(cfg: Settings, db: Db, e: Event, now: Time, j: JobId)
    requires j in db.jobs && Bounded(cfg, db.jobs[j])
    ensures Bounded(cfg, RowAfter(cfg, db, e, now, j))
  {
  }

  lemma BoundedStep(cfg: Settings, s: Sys, en: Entry, t: Sys, j: JobId)
    requires ValidSettings(cfg) && Inv(cfg, s) && Step(cfg, s, en, t) && j in t.db.jobs
    ensures Bounded(cfg, t.db.jobs[j])
  {
    if !(en.event.Create? && en.event.job == j) {
      Effect(cfg, s.db, en.event, en.now, j, Key(j, 0));
      BoundedRow(cfg, s.db, en.event, en.now, j);
    }
  }

  lemma ClaimsReservedStep(cfg: Settings, s: Sys, en: Entry, t: Sys, j: JobId, k: nat)
    requires Inv(cfg, s) && Step(cfg, s, en, t) && j in t.db.jobs && 1 <= k <= t.db.jobs[j].attempt
    ensures Key(j, k) in t.db.reservations
  {
    if !(en.event.Create? && en.event.job == j) {
      Effect(cfg, s.db, en.event, en.now, j, Key(j, k));
      assert ClaimsReserved(s.db, j);
    }
  }

  /** A commit resting on the snapshot (QUEUED, attempt `a`) goes through only if the job is still
  at attempt `a`, and then it is QUEUED or CANCELLED: a claim since would have used up the key. */
  lemma AdmitNeedsFreshAttempt(cfg: Settings, s: Sys, j: JobId, a: nat)
    requires Inv(cfg, s) && Key(j, a) in s.admitReads && Admits(cfg, s.db, j, a)
    ensures s.db.jobs[j].attempt == a
    ensures s.db.jobs[j].status.Queued? || s.db.jobs[j].status.Cancelled?
  {
    assert SnapshotOk(s.db, Key(j, a));
    assert ClaimsReserved(s.db, j);
  }

  lemma ReservationPlacedStep(cfg: Settings, s: Sys, en: Entry, t: Sys, key: Key)
    requires ValidSettings(cfg) && Inv(cfg, s) && Step(cfg, s, en, t) && key in t.db.reservations
    ensures key.job in t.db.jobs && ReservationPlaced(t.db.jobs[key.job], key.attempt, t.db.reservations[key])
  {
    var e := en.event;
    assert e.Create? ==> key in s.db.reservations && key.job != e.job;
    Effect(cfg, s.db, e, en.now, key.job, key);
    if key !in s.db.reservations {
      AdmitNeedsFreshAttempt(cfg, s, e.job, e.read);
    }
  }

  lemma AttemptPlacedRow(cfg: Settings, db: Db, e: Event, now: Time, key: Key)
    requires key.job in db.jobs && key in db.attempts && Placed(db)
    ensures AttemptAfter(cfg, db, e, now, key).Some?
    ensures AttemptPlaced(RowAfter(cfg, db, e, now, key.job), key.attempt, AttemptAfter(cfg, db, e, now, key).value)
  {
    assert AttemptPlaced(db.jobs[key.job], key.attempt, db.attempts[key]);
  }

  lemma AttemptPlacedStep(cfg: Settings, s: Sys, en: Entry, t: Sys, key: Key)
    requires Inv(cfg, s) && Step(cfg, s, en, t) && key in t.db.attempts
    ensures key.job in t.db.jobs && AttemptPlaced(t.db.jobs[key.job], key.attempt, t.db.attempts[key])
  {
    var e := en.event;
    assert e.Create? ==> key in s.db.attempts && key.job != e.job;
    Effect(cfg, s.db, e, en.now, key.job, key);
    if key in s.db.attempts {
      AttemptPlacedRow(cfg, s.db, e, en.now, key);
    } else if e.StartAttempt? {
      assert RunnerOk(s.db, Runner(e.job, e.attempt, e.worker, false));
    }
  }

  lemma DeadLetterStep(cfg: Settings, s: Sys, en: Entry, t: Sys, j: JobId)
    requires Inv(cfg, s) && Step(cfg, s, en, t) && j in t.db.dlq
    ensures j in t.db.jobs && t.db.jobs[j].status.Failed?
  {
    assert en.event.Create? ==> j in s.db.dlq && j != en.event.job;
    Effect(cfg, s.db, en.event, en.now, j, Key(j, 0));
  }

  lemma FailureRow(cfg: Settings, db: Db, e: Event, now: Time, j: JobId)
    requires j in db.jobs && FailuresExplained(cfg, db) && RowAfter(cfg, db, e, now, j).status.Failed?
    requires e.Finalize? ==> Key(e.job, e.attempt) in db.attempts
    ensures var k := RowAfter(cfg, db, e, now, j).attempt;
            Explained(cfg, k, DlqAfter(cfg, db, e, now, j), AttemptAfter(cfg, db, e, now, Key(j, k)))
  {
  }

  lemma NewJobsQueued(cfg: Settings, s: Sys, en: Entry, t: Sys, j: JobId)
    requires Step(cfg, s, en, t) && j in t.db.jobs && j !in s.db.jobs
    ensures t.db.jobs[j].status.Queued?
  {
    if !en.event.Create? || en.event.job != j {
      Effect(cfg, s.db, en.event, en.now, j, Key(j, 0));
    }
  }

  lemma FailureStep(cfg: Settings, s: Sys, en: Entry, t: Sys, j: JobId)
    requires Step(cfg, s, en, t) && FailuresExplained(cfg, s.db) && j in s.db.jobs && j in t.db.jobs && t.db.jobs[j].status.Failed?
    requires forall r :: r in s.runners ==> RunnerOk(s.db, r)
    ensures FailedExplained(cfg, t.db, j)
  {
    var e := en.event;
    assert e.Finalize? ==> RunnerOk(s.db, Runner(e.job, e.attempt, e.worker, true));
    Effect(cfg, s.db, en.event, en.now, j, Key(j, t.db.jobs[j].attempt));
    FailureRow(cfg, s.db, en.event, en.now, j);
  }

  lemma SnapshotStep(cfg: Settings, s: Sys, en: Entry, t: Sys, key: Key)
    requires ValidSettings(cfg) && Inv(cfg, s) && Step(cfg, s, en, t)
    requires key in t.admitReads || key in t.cancelReads
    ensures SnapshotOk(t.db, key)
    ensures key in t.admitReads && t.db.jobs[key.job].attempt == key.attempt && t.db.jobs[key.job].status.Queued? ==>
              Due(t.db.jobs[key.job], t.clock)
  {
    if key in s.admitReads || key in s.cancelReads {
      StepLater(cfg, s.db, en.event, en.now, key.job);
    } else {
      assert t.db == s.db;
    }
  }

  lemma RunnerStep(cfg: Settings, s: Sys, en: Entry, t: Sys, r: Runner)
    requires ValidSettings(cfg) && Inv(cfg, s) && Step(cfg, s, en, t) && r in t.runners
    ensures RunnerOk(t.db, r)
  {
    Effect(cfg, s.db, en.event, en.now, r.job, Key(r.job, r.attempt));
    if r in s.runners {
      StepLater(cfg, s.db, en.event, en.now, r.job);
    } else if en.event.StartAttempt? {
      assert RunnerOk(s.db, Runner(r.job, r.attempt, r.worker, false));
    }
  }

  /** The dead-letter key of a job being finalised is free, so that INSERT cannot fail. */
  lemma DeadLetterKeyFree(cfg: Settings, s: Sys, j: JobId, w: WorkerId, k: nat)
    requires Inv(cfg, s) && Fence(s.db, j, w, k)
    ensures j !in s.db.dlq
  {
  }

  /** So an admission of a schedulable job never collides with a used-up reservation key. */
  lemma SchedulableKeyFree(cfg: Settings, s: Sys, j: JobId, now: Time)
    requires Inv(cfg, s) && Schedulable(s.db, j, now)
    ensures NextKey(s.db, j) !in s.db.reservations
  {
  }

  lemma InvStep(cfg: Settings, s: Sys, en: Entry, t: Sys)
    requires ValidSettings(cfg) && Inv(cfg, s) && Step(cfg, s, en, t)
    ensures Inv(cfg, t)
  {
    forall j | j in t.db.jobs ensures Bounded(cfg, t.db.jobs[j]) && ClaimsReserved(t.db, j) {
      BoundedStep(cfg, s, en, t, j);
      forall k | 1 <= k <= t.db.jobs[j].attempt ensures Key(j, k) in t.db.reservations {
        ClaimsReservedStep(cfg, s, en, t, j, k);
      }
    }
    forall key | key in t.db.reservations
      ensures key.job in t.db.jobs && ReservationPlaced(t.db.jobs[key.job], key.attempt, t.db.reservations[key])
    {
      ReservationPlacedStep(cfg, s, en, t, key);
    }
    forall key | key in t.db.attempts
      ensures key.job in t.db.jobs && AttemptPlaced(t.db.jobs[key.job], key.attempt, t.db.attempts[key])
    {
      AttemptPlacedStep(cfg, s, en, t, key);
    }
    assert Placed(t.db);
    forall j | j in t.db.dlq ensures j in t.db.jobs && t.db.jobs[j].status.Failed? {
      DeadLetterStep(cfg, s, en, t, j);
    }
    forall j | j in t.db.jobs && t.db.jobs[j].status.Failed? ensures FailedExplained(cfg, t.db, j) {
      if j !in s.db.jobs {
        NewJobsQueued(cfg, s, en, t, j);
      } else {
        FailureStep(cfg, s, en, t, j);
      }
    }
    assert FailuresExplained(cfg, t.db);
    forall key | key in t.admitReads || key in t.cancelReads
      ensures SnapshotOk(t.db, key)
      ensures key in t.admitReads && t.db.jobs[key.job].attempt == key.attempt && t.db.jobs[key.job].status.Queued? ==>
                Due(t.db.jobs[key.job], t.clock)
    {
      SnapshotStep(cfg, s, en, t, key);
    }
    assert SnapshotsOk(t);
    forall r | r in t.runners ensures RunnerOk(t.db, r) {
      RunnerStep(cfg, s, en, t, r);
    }
  }

  /** Every reachable state satisfies the invariant. */
  lemma {:induction false} InvAlways(cfg: Settings, run: Run, i: nat)
    requires run.Valid(cfg) && ValidSettings(cfg) && i < |run.states|
    ensures Inv(cfg, run.states[i])
  {
    if i > 0 {
      InvAlways(cfg, run, i - 1);
      assert Step(cfg, run.states[i - 1], run.log[i - 1], run.states[i]);
      InvStep(cfg, run.states[i - 1], run.log[i - 1], run.states[i]);
    }
  }
}
