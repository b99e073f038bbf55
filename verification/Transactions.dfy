/** What each committed transaction does to the shared tables, as functions on `Db` values.

Every statement is a conditional UPDATE or INSERT: when its WHERE clause matches no row, the
function returns the tables it was given. */
module Transactions {
  import opened Types
  import opened Rules

  // ----- predicates the WHERE clauses share ------------------------------------------

  /** The fencing predicate: `w` owns attempt `k` of job `j` and the job is RUNNING. */
  predicate Fence(db: Db, j: JobId, w: WorkerId, k: nat) {
    j in db.jobs && FenceRow(db.jobs[j], w, k)
  }

  predicate FenceRow(row: Job, w: WorkerId, k: nat) {
    row.status.Running? && row.leaseOwner == Some(w) && row.attempt == k
  }

  predicate Due(row: Job, now: Time) {
    row.nextRetry.None? || row.nextRetry.value <= now
  }

  predicate LeaseExpired(row: Job, now: Time) {
    row.leaseExpires.Some? && row.leaseExpires.value < now
  }

  predicate HasActive(db: Db, key: Key) {
    key in db.reservations && db.reservations[key].active
  }

  function NextKey(db: Db, j: JobId): Key
    requires j in db.jobs
  {
    Key(j, db.jobs[j].attempt + 1)
  }

  /** The eligibility the scheduler checks on a snapshot of the job. */
  predicate Schedulable(db: Db, j: JobId, now: Time) {
    && j in db.jobs
    && db.jobs[j].status.Queued?
    && !db.jobs[j].cancelRequested
    && Due(db.jobs[j], now)
    && !HasActive(db, NextKey(db, j))
  }

  predicate Claimable(db: Db, j: JobId, now: Time) {
    && j in db.jobs
    && db.jobs[j].status.Queued?
    && !db.jobs[j].cancelRequested
    && Due(db.jobs[j], now)
    && HasActive(db, NextKey(db, j))
  }

  predicate Stale(db: Db, j: JobId, now: Time) {
    j in db.jobs && db.jobs[j].status.Running? && LeaseExpired(db.jobs[j], now)
  }

  // ----- jobs -------------------------------------------------------------------------

  function NewJob(priority: int, overrides: Overrides, now: Time): Job {
    Job(Queued, 0, false, None, None, None, priority, now, overrides)
  }

  function CreateTx(db: Db, j: JobId, priority: int, overrides: Overrides, now: Time): Db {
    db.(jobs := db.jobs[j := NewJob(priority, overrides, now)])
  }

  function ClaimedRow(cfg: Settings, row: Job, w: WorkerId, now: Time): Job {
    row.(status := Running, leaseOwner := Some(w), leaseExpires := Some(now + cfg.leaseDuration),
         attempt := row.attempt + 1, nextRetry := None)
  }

  function ClaimTx(cfg: Settings, db: Db, j: JobId, w: WorkerId, now: Time): Db {
    if Claimable(db, j, now) then
      db.(jobs := db.jobs[j := ClaimedRow(cfg, db.jobs[j], w, now)])
    else db
  }

  function HeartbeatTx(cfg: Settings, db: Db, j: JobId, w: WorkerId, k: nat, now: Time): Db {
    if Fence(db, j, w, k) then
      db.(jobs := db.jobs[j := db.jobs[j].(leaseExpires := Some(now + cfg.leaseDuration))])
    else db
  }

  function RequestCancelTx(db: Db, j: JobId): Db {
    if j in db.jobs && db.jobs[j].status.Running? then
      db.(jobs := db.jobs[j := db.jobs[j].(cancelRequested := true)])
    else db
  }

  function ClearRetryTx(db: Db, j: JobId): Db {
    if j in db.jobs then db.(jobs := db.jobs[j := db.jobs[j].(nextRetry := None)]) else db
  }

  // ----- capacity, reservations, attempts ------------------------------------------------

  predicate Fits(cap: Capacity, r: Resources) {
    cap.inUse.Plus(r).Within(cap.total)
  }

  function ReleaseTx(db: Db, key: Key): Db {
    if HasActive(db, key) then
      var row := db.reservations[key];
      db.(reservations := db.reservations[key := row.(active := false)],
          capacity := db.capacity.(inUse := db.capacity.inUse.Minus(row.held)))
    else db
  }

  function FinishAttemptTx(db: Db, key: Key, status: AttemptStatus, c: Option<Classification>, now: Time): Db {
    if key in db.attempts then
      db.(attempts := db.attempts[key :=
        db.attempts[key].(status := status, finishedAt := Some(now), classification := c)])
    else db
  }

  function LostRow(db: Db, key: Key, seenOwner: WorkerId, now: Time): Attempt {
    if key in db.attempts then
      db.attempts[key].(status := AttemptLost, finishedAt := Some(now), classification := Some(Transient))
    else Attempt(seenOwner, AttemptLost, now, Some(now), Some(Transient))
  }

  function MarkLostTx(db: Db, key: Key, seenOwner: WorkerId, now: Time): Db {
    db.(attempts := db.attempts[key := LostRow(db, key, seenOwner, now)])
  }

  // ----- worker ------------------------------------------------------------------------

  /** Inserting the attempt row after a claim; a row already under that key is an integrity error. */
  function StartAttemptTx(db: Db, key: Key, w: WorkerId, now: Time): Db {
    if key in db.attempts then db
    else db.(attempts := db.attempts[key := Attempt(w, AttemptRunning, now, None, None)])
  }

  function FinalStatus(cfg: Settings, k: nat, outcome: Outcome): Status {
    match outcome
    case CancelSeen => Cancelled
    case Success => Succeeded
    case Failure(c) => if IsRetryable(c, k, cfg.maxAttempts) then Queued else Failed
  }

  function FinalAttemptStatus(outcome: Outcome): AttemptStatus {
    match outcome
    case CancelSeen => AttemptCancelled
    case Success => AttemptSucceeded
    case Failure(_) => AttemptFailed
  }

  function FinalRow(cfg: Settings, row: Job, k: nat, outcome: Outcome, retryAt: Time): Job {
    row.(status := FinalStatus(cfg, k, outcome), leaseOwner := None, leaseExpires := None,
         nextRetry := if FinalStatus(cfg, k, outcome).Queued? then Some(retryAt) else row.nextRetry)
  }

  /** The job, attempt and dead-letter writes of a finalisation. */
  function FinalizedRows(cfg: Settings, db: Db, j: JobId, k: nat, outcome: Outcome,
                         now: Time, retryAt: Time): Db
    requires j in db.jobs
  {
    var c := if outcome.Failure? then Some(outcome.classification) else None;
    var db1 := db.(jobs := db.jobs[j := FinalRow(cfg, db.jobs[j], k, outcome, retryAt)]);
    var db2 := FinishAttemptTx(db1, Key(j, k), FinalAttemptStatus(outcome), c, now);
    if FinalStatus(cfg, k, outcome).Failed?
    then db2.(dlq := db2.dlq[j := DlqEntry(k, outcome.classification, k)])
    else db2
  }

  /** The worker's last transaction for attempt `k`; rolled back when the fence does not hold. */
  function FinalizeTx(cfg: Settings, db: Db, j: JobId, w: WorkerId, k: nat, outcome: Outcome,
                      now: Time, retryAt: Time): Db
  {
    if Fence(db, j, w, k) then ReleaseTx(FinalizedRows(cfg, db, j, k, outcome, now, retryAt), Key(j, k))
    else db
  }

  // ----- recovery ----------------------------------------------------------------------

  function ReclaimedStatus(cfg: Settings, row: Job): Status {
    if row.cancelRequested then Cancelled
    else if row.attempt >= cfg.maxAttempts then Failed
    else Queued
  }

  function ReclaimedRow(cfg: Settings, row: Job, retryAt: Time): Job {
    row.(leaseOwner := None, leaseExpires := None, status := ReclaimedStatus(cfg, row),
         nextRetry := if ReclaimedStatus(cfg, row).Queued? then Some(retryAt) else None)
  }

  /** The job and attempt writes of a reclaim. */
  function ReclaimedRows(cfg: Settings, db: Db, j: JobId, now: Time, retryAt: Time, seenOwner: WorkerId): Db
    requires j in db.jobs
  {
    MarkLostTx(db.(jobs := db.jobs[j := ReclaimedRow(cfg, db.jobs[j], retryAt)]),
               Key(j, db.jobs[j].attempt), seenOwner, now)
  }

  /** Reclaim, mark LOST and release, in one transaction. */
  function ReclaimTx(cfg: Settings, db: Db, j: JobId, now: Time, retryAt: Time, seenOwner: WorkerId): Db {
    if Stale(db, j, now)
    then ReleaseTx(ReclaimedRows(cfg, db, j, now, retryAt, seenOwner), Key(j, db.jobs[j].attempt))
    else db
  }

  // ----- scheduler ---------------------------------------------------------------------

  function OrDefault(o: Option<nat>, d: int): int {
    match o
    case Some(v) => v
    case None => d
  }

  function Request(cfg: Settings, row: Job): Resources {
    Resources(OrDefault(row.overrides.cpu, cfg.defaultRequest.cpu),
              OrDefault(row.overrides.memoryMb, cfg.defaultRequest.memoryMb),
              OrDefault(row.overrides.gpu, cfg.defaultRequest.gpu))
  }

  /** Whether the admission transaction for attempt `a + 1` goes through: the conditional capacity
  UPDATE matches and the reservation's primary key is free. */
  predicate Admits(cfg: Settings, db: Db, j: JobId, a: nat) {
    && j in db.jobs
    && Fits(db.capacity, Request(cfg, db.jobs[j]))
    && Key(j, a + 1) !in db.reservations
  }

  function AdmitTx(cfg: Settings, db: Db, j: JobId, a: nat): Db {
    if !Admits(cfg, db, j, a) then db
    else
      var r := Request(cfg, db.jobs[j]);
      db.(capacity := db.capacity.(inUse := db.capacity.inUse.Plus(r)),
          reservations := db.reservations[Key(j, a + 1) := Reservation(r, true)],
          outbox := db.outbox + [OutboxRow(j, None)])
  }

  // ----- API ---------------------------------------------------------------------------

  predicate Cancellable(db: Db, j: JobId) {
    j in db.jobs && db.jobs[j].status in SourcesFor(Cancelled)
  }

  function CancelledRow(db: Db, j: JobId): Db
    requires j in db.jobs
  {
    db.(jobs := db.jobs[j := db.jobs[j].(status := Cancelled)])
  }

  /** `cancel_job`'s update, releasing the reservation after the attempt number it read. */
  function CancelTx(db: Db, j: JobId, a: nat): Db {
    if Cancellable(db, j) then ReleaseTx(CancelledRow(db, j), Key(j, a + 1)) else db
  }

  // ----- outbox ------------------------------------------------------------------------

  function InsertEventTx(db: Db, j: JobId): Db {
    db.(outbox := db.outbox + [OutboxRow(j, None)])
  }

  function MarkPublishedTx(db: Db, i: nat, now: Time): Db {
    if i < |db.outbox| then db.(outbox := db.outbox[i := db.outbox[i].(publishedAt := Some(now))]) else db
  }
}
