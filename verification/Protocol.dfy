/** The five kinds of process as one transition system.

`Sys` is the committed tables together with what processes remember between two transactions:
the snapshots schedulers and cancellers have read (kept for ever, so a commit may rest on an
arbitrarily old one), the outbox rows relays have sent, the workers inside an attempt, and the
broker's bag of messages.  Any number of processes of each kind interleave; a crash is simply a
process that takes no further step. */
module Protocol {
  import opened Types
  import opened Transactions

  /** A worker past its claim; `started` once its attempt row is inserted. */
  datatype Runner = Runner(job: JobId, attempt: nat, worker: WorkerId, started: bool)

  datatype Sys = Sys(
    db: Db,
    clock: Time,
    broker: multiset<JobId>,
    sent: set<nat>,
    runners: set<Runner>,
    admitReads: set<Key>,
    cancelReads: set<Key>)

  datatype Event =
    | Create(job: JobId, priority: int, overrides: Overrides)
    | CancelRead(job: JobId)
    | CancelCommit(job: JobId, read: nat)
    | RequestCancel(job: JobId)
    | AdmitRead(job: JobId)
    | AdmitCommit(job: JobId, read: nat)
    | RelaySend(row: nat)
    | RelayMark(row: nat)
    | Consume(job: JobId, worker: WorkerId, acked: bool)
    | Lose(job: JobId)
    | StartAttempt(job: JobId, attempt: nat, worker: WorkerId)
    | Heartbeat(job: JobId, attempt: nat, worker: WorkerId)
    | Finalize(job: JobId, attempt: nat, worker: WorkerId, outcome: Outcome, retryAt: Time)
    | Reclaim(job: JobId, retryAt: Time, seenOwner: WorkerId)
    | DispatchInsert(job: JobId)
    | DispatchClear(job: JobId)

  ghost predicate Enabled(cfg: Settings, s: Sys, e: Event, now: Time) {
    match e
    case Create(j, _, _) => j !in s.db.jobs
    case CancelRead(j) => j in s.db.jobs && s.db.jobs[j].status.Queued?
    case CancelCommit(j, a) => Key(j, a) in s.cancelReads
    case AdmitRead(j) => Schedulable(s.db, j, now)
    case AdmitCommit(j, a) => Key(j, a) in s.admitReads
    case RelaySend(i) => i < |s.db.outbox|
    case RelayMark(i) => i in s.sent
    case Consume(j, _, _) => j in s.broker
    // handling raised before the claim committed, and the offset is committed all the same
    case Lose(j) => j in s.broker
    case StartAttempt(j, k, w) => Runner(j, k, w, false) in s.runners
    case Finalize(j, k, w, outcome, _) =>
      && Runner(j, k, w, true) in s.runners
      // the flag is never reset, so a worker that saw it set finds it still set
      && (outcome.CancelSeen? ==> j in s.db.jobs && s.db.jobs[j].cancelRequested)
    case DispatchInsert(j) => j in s.db.jobs
    case _ => true
  }

  function DbAfter(cfg: Settings, db: Db, e: Event, now: Time): Db {
    match e
    case Create(j, priority, overrides) => CreateTx(db, j, priority, overrides, now)
    case CancelCommit(j, a) => CancelTx(db, j, a)
    case RequestCancel(j) => RequestCancelTx(db, j)
    case AdmitCommit(j, a) => AdmitTx(cfg, db, j, a)
    case RelayMark(i) => MarkPublishedTx(db, i, now)
    case Consume(j, w, _) => ClaimTx(cfg, db, j, w, now)
    case StartAttempt(j, k, w) => StartAttemptTx(db, Key(j, k), w, now)
    case Heartbeat(j, k, w) => HeartbeatTx(cfg, db, j, w, k, now)
    case Finalize(j, k, w, outcome, retryAt) => FinalizeTx(cfg, db, j, w, k, outcome, now, retryAt)
    case Reclaim(j, retryAt, seenOwner) => ReclaimTx(cfg, db, j, now, retryAt, seenOwner)
    case DispatchInsert(j) => InsertEventTx(db, j)
    case DispatchClear(j) => ClearRetryTx(db, j)
    case _ => db
  }

  function RunnersAfter(s: Sys, e: Event, now: Time): set<Runner> {
    match e
    case Consume(j, w, _) =>
      if Claimable(s.db, j, now) then s.runners + {Runner(j, s.db.jobs[j].attempt + 1, w, false)} else s.runners
    case StartAttempt(j, k, w) =>
      s.runners - {Runner(j, k, w, false)} + (if Key(j, k) in s.db.attempts then {} else {Runner(j, k, w, true)})
    case Finalize(j, k, w, _, _) => s.runners - {Runner(j, k, w, true)}
    case _ => s.runners
  }

  function Apply(cfg: Settings, s: Sys, e: Event, now: Time): Sys {
    Sys(
      DbAfter(cfg, s.db, e, now),
      now,
      match e
      case RelaySend(i) => if i < |s.db.outbox| then s.broker + multiset{s.db.outbox[i].job} else s.broker
      case Consume(j, _, acked) => if acked then s.broker - multiset{j} else s.broker
      case Lose(j) => s.broker - multiset{j}
      case _ => s.broker,
      if e.RelaySend? then s.sent + {e.row} else s.sent,
      RunnersAfter(s, e, now),
      if e.AdmitRead? && e.job in s.db.jobs then s.admitReads + {Key(e.job, s.db.jobs[e.job].attempt)} else s.admitReads,
      if e.CancelRead? && e.job in s.db.jobs then s.cancelReads + {Key(e.job, s.db.jobs[e.job].attempt)} else s.cancelReads)
  }

  ghost predicate Init(s: Sys) {
    && s.db.jobs == map[] && s.db.attempts == map[] && s.db.reservations == map[] && s.db.dlq == map[]
    && s.db.outbox == []
    && s.db.capacity.inUse == NOTHING && NOTHING.Within(s.db.capacity.total)
    && s.broker == multiset{} && s.sent == {} && s.runners == {}
    && s.admitReads == {} && s.cancelReads == {}
  }

  datatype Entry = Entry(event: Event, now: Time)

  ghost predicate Step(cfg: Settings, s: Sys, en: Entry, t: Sys) {
    s.clock <= en.now && Enabled(cfg, s, en.event, en.now) && t == Apply(cfg, s, en.event, en.now)
  }

  /** A finite run: `log[i]` takes `states[i]` to `states[i + 1]`. */
  datatype Run = Run(states: seq<Sys>, log: seq<Entry>) {
    ghost predicate Valid(cfg: Settings) {
      && |states| == |log| + 1
      && Init(states[0])
      && forall i {:trigger log[i]} | 0 <= i < |log| :: Step(cfg, states[i], log[i], states[i + 1])
    }
  }

  /** One more step at the end of a run. */
  lemma Extended(cfg: Settings, run: Run, e: Event, now: Time) returns (longer: Run)
    requires run.Valid(cfg) && run.states[|run.log|].clock <= now && Enabled(cfg, run.states[|run.log|], e, now)
    ensures longer.Valid(cfg) && longer.states[0] == run.states[0]
    ensures longer.log == run.log + [Entry(e, now)]
    ensures longer.states == run.states + [Apply(cfg, run.states[|run.log|], e, now)]
  {
    longer := Run(run.states + [Apply(cfg, run.states[|run.log|], e, now)], run.log + [Entry(e, now)]);
    forall i | 0 <= i < |longer.log| ensures Step(cfg, longer.states[i], longer.log[i], longer.states[i + 1]) {
      assert i < |run.log| ==> longer.log[i] == run.log[i];
    }
  }
}
