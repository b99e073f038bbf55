/** The rows of the platform's Postgres tables and the settings every process reads.

Times are exact reals (seconds on one clock).  `nat` stands for the UUID of a job. */
module Types {
  datatype Option<+T> = None | Some(value: T)

  type JobId = nat
  type WorkerId = string
  type Time = real

  /** A CPU / memory / GPU vector. */
  datatype Resources = Resources(cpu: int, memoryMb: int, gpu: int) {
    function Plus(r: Resources): Resources {
      Resources(cpu + r.cpu, memoryMb + r.memoryMb, gpu + r.gpu)
    }

    function Minus(r: Resources): Resources {
      Resources(cpu - r.cpu, memoryMb - r.memoryMb, gpu - r.gpu)
    }

    /** At most `r` in every dimension. */
    predicate Within(r: Resources) {
      cpu <= r.cpu && memoryMb <= r.memoryMb && gpu <= r.gpu
    }
  }

  const NOTHING := Resources(0, 0, 0)

  datatype Status = Pending | Queued | Running | Succeeded | Failed | Cancelled

  predicate Terminal(s: Status) {
    s.Succeeded? || s.Failed? || s.Cancelled?
  }

  datatype Classification = Transient | Permanent | Unknown

  /** The resource figures a job's configuration may carry; absent ones fall back to the settings. */
  datatype Overrides = Overrides(cpu: Option<nat>, memoryMb: Option<nat>, gpu: Option<nat>)

  datatype Job = Job(
    status: Status,
    attempt: nat,
    cancelRequested: bool,
    leaseOwner: Option<WorkerId>,
    leaseExpires: Option<Time>,
    nextRetry: Option<Time>,
    priority: int,
    createdAt: Time,
    overrides: Overrides)

  /** Composite key of `attempts` and `reservations`. */
  datatype Key = Key(job: JobId, attempt: nat)

  datatype AttemptStatus =
    AttemptRunning | AttemptSucceeded | AttemptFailed | AttemptCancelled | AttemptLost

  datatype Attempt = Attempt(
    worker: WorkerId,
    status: AttemptStatus,
    startedAt: Time,
    finishedAt: Option<Time>,
    classification: Option<Classification>)

  datatype Reservation = Reservation(held: Resources, active: bool)

  datatype Capacity = Capacity(total: Resources, inUse: Resources)

  datatype OutboxRow = OutboxRow(job: JobId, publishedAt: Option<Time>)

  datatype DlqEntry = DlqEntry(lastAttempt: nat, classification: Classification, totalAttempts: nat)

  /** One committed state of the tables the five processes share. */
  datatype Db = Db(
    jobs: map<JobId, Job>,
    attempts: map<Key, Attempt>,
    reservations: map<Key, Reservation>,
    capacity: Capacity,
    outbox: seq<OutboxRow>,
    dlq: map<JobId, DlqEntry>)

  datatype Settings = Settings(
    maxAttempts: nat,
    leaseDuration: Time,
    defaultRequest: Resources,
    agingRate: real,
    priorityCeiling: int,
    maxAdmissionsPerPass: nat)

  /** What the deployment is assumed to configure. */
  ghost predicate ValidSettings(cfg: Settings) {
    && cfg.maxAttempts >= 1
    && cfg.leaseDuration >= 0.0
    && NOTHING.Within(cfg.defaultRequest)
    && cfg.agingRate >= 0.0
  }

  /** How an executor run ended, and what the worker then saw of the cancel flag. */
  datatype Outcome = CancelSeen | Success | Failure(classification: Classification)
}
