/** The transition system seen one row at a time: what an event does to one job, one reservation,
one attempt row and one dead-letter entry.  Later proofs argue about single rows only. */
module Effects {
  import opened Types
  import opened Rules
  import opened Transactions
  import opened Protocol

  function Lookup<K, V>(m: map<K, V>, k: K): Option<V> {
    if k in m then Some(m[k]) else None
  }

  function RowAfter(cfg: Settings, db: Db, e: Event, now: Time, j: JobId): Job
    requires j in db.jobs
  {
    var row := db.jobs[j];
    match e
    case CancelCommit(i, _) =>
      if i == j && (row.status.Queued? || row.status.Running?) then row.(status := Cancelled) else row
    case RequestCancel(i) =>
      if i == j && row.status.Running? then row.(cancelRequested := true) else row
    case Consume(i, w, _) =>
      if i == j && Claimable(db, j, now) then ClaimedRow(cfg, row, w, now) else row
    case Heartbeat(i, k, w) =>
      if i == j && FenceRow(row, w, k) then row.(leaseExpires := Some(now + cfg.leaseDuration)) else row
    case Finalize(i, k, w, outcome, retryAt) =>
      if i == j && FenceRow(row, w, k) then FinalRow(cfg, row, k, outcome, retryAt) else row
    case Reclaim(i, retryAt, _) =>
      if i == j && row.status.Running? && LeaseExpired(row, now) then ReclaimedRow(cfg, row, retryAt) else row
    case DispatchClear(i) =>
      if i == j then row.(nextRetry := None) else row
    case _ => row
  }

  function Released(r: Option<Reservation>): Option<Reservation> {
    match r
    case Some(row) => Some(row.(active := false))
    case None => None
  }

  /** The event, if effective, releases the reservation under `key`. */
  predicate Releases(db: Db, e: Event, now: Time, key: Key) {
    match e
    case CancelCommit(i, a) => key == Key(i, a + 1) && Cancellable(db, i)
    case Finalize(i, k, w, _, _) => key == Key(i, k) && Fence(db, i, w, k)
    case Reclaim(i, _, _) => Stale(db, i, now) && key == Key(i, db.jobs[i].attempt)
    case _ => false
  }

  function ReservationAfter(cfg: Settings, db: Db, e: Event, now: Time, key: Key): Option<Reservation> {
    if e.AdmitCommit? && key == Key(e.job, e.read + 1) && Admits(cfg, db, e.job, e.read)
    then Some(Reservation(Request(cfg, db.jobs[e.job]), true))
    else if Releases(db, e, now, key) then Released(Lookup(db.reservations, key))
    else Lookup(db.reservations, key)
  }

  function AttemptAfter(cfg: Settings, db: Db, e: Event, now: Time, key: Key): Option<Attempt> {
    var was := Lookup(db.attempts, key);
    match e
    case StartAttempt(i, k, w) =>
      if key == Key(i, k) && was.None? then Some(Attempt(w, AttemptRunning, now, None, None)) else was
    case Finalize(i, k, w, outcome, _) =>
      if key == Key(i, k) && Fence(db, i, w, k) && was.Some? then
        Some(was.value.(status := FinalAttemptStatus(outcome), finishedAt := Some(now),
                        classification := if outcome.Failure? then Some(outcome.classification) else None))
      else was
    case Reclaim(i, _, seenOwner) =>
      if Stale(db, i, now) && key == Key(i, db.jobs[i].attempt) then Some(LostRow(db, key, seenOwner, now)) else was
    case _ => was
  }

  function DlqAfter(cfg: Settings, db: Db, e: Event, now: Time, j: JobId): Option<DlqEntry> {
    if e.Finalize? && e.job == j && Fence(db, j, e.worker, e.attempt) && FinalStatus(cfg, e.attempt, e.outcome).Failed?
    then Some(DlqEntry(e.attempt, e.outcome.classification, e.attempt))
    else Lookup(db.dlq, j)
  }

  function OutboxAfter(cfg: Settings, db: Db, e: Event, now: Time): seq<OutboxRow> {
    match e
    case AdmitCommit(j, a) => if Admits(cfg, db, j, a) then db.outbox + [OutboxRow(j, None)] else db.outbox
    case DispatchInsert(j) => db.outbox + [OutboxRow(j, None)]
    case RelayMark(i) =>
      if i < |db.outbox| then db.outbox[i := db.outbox[i].(publishedAt := Some(now))] else db.outbox
    case _ => db.outbox
  }

  // ----- the projections are exact --------------------------------------------------------

  lemma ReleaseOnly(db: Db, key: Key, other: Key)
    ensures ReleaseTx(db, key) == db.(reservations := ReleaseTx(db, key).reservations, capacity := ReleaseTx(db, key).capacity)
    ensures Lookup(ReleaseTx(db, key).reservations, other) ==
            if other == key then Released(Lookup(db.reservations, key)) else Lookup(db.reservations, other)
  {
    if HasActive(db, key) {
    } else if key in db.reservations {
      assert db.reservations[key] == db.reservations[key].(active := false);
    }
  }

  lemma CancelEffect(cfg: Settings, db: Db, i: JobId, a: nat, now: Time, j: JobId, key: Key)
    ensures var e := CancelCommit(i, a); var db' := DbAfter(cfg, db, e, now);
            && (j in db.jobs <==> j in db'.jobs) && (j in db.jobs ==> db'.jobs[j] == RowAfter(cfg, db, e, now, j))
            && Lookup(db'.reservations, key) == ReservationAfter(cfg, db, e, now, key)
            && db' == db.(jobs := db'.jobs, reservations := db'.reservations, capacity := db'.capacity)
  {
    CancelSources();
    if Cancellable(db, i) {
      ReleaseOnly(CancelledRow(db, i), Key(i, a + 1), key);
    }
  }

  lemma FinalizedEffect(cfg: Settings, db: Db, e: Event, now: Time, j: JobId, key: Key)
    requires e.Finalize? && Fence(db, e.job, e.worker, e.attempt)
    ensures var db' := FinalizedRows(cfg, db, e.job, e.attempt, e.outcome, now, e.retryAt);
            && (j in db.jobs <==> j in db'.jobs) && (j in db.jobs ==> db'.jobs[j] == RowAfter(cfg, db, e, now, j))
            && Lookup(db'.attempts, key) == AttemptAfter(cfg, db, e, now, key)
            && Lookup(db'.dlq, j) == DlqAfter(cfg, db, e, now, j)
            && db' == db.(jobs := db'.jobs, attempts := db'.attempts, dlq := db'.dlq)
  {
  }

  lemma FinalizeEffect(cfg: Settings, db: Db, e: Event, now: Time, j: JobId, key: Key)
    requires e.Finalize?
    ensures var db' := DbAfter(cfg, db, e, now);
            && (j in db.jobs <==> j in db'.jobs) && (j in db.jobs ==> db'.jobs[j] == RowAfter(cfg, db, e, now, j))
            && Lookup(db'.reservations, key) == ReservationAfter(cfg, db, e, now, key)
            && Lookup(db'.attempts, key) == AttemptAfter(cfg, db, e, now, key)
            && Lookup(db'.dlq, j) == DlqAfter(cfg, db, e, now, j)
            && db'.outbox == db.outbox
  {
    if Fence(db, e.job, e.worker, e.attempt) {
      FinalizedEffect(cfg, db, e, now, j, key);
      ReleaseOnly(FinalizedRows(cfg, db, e.job, e.attempt, e.outcome, now, e.retryAt), Key(e.job, e.attempt), key);
    }
  }

  lemma ReclaimEffect(cfg: Settings, db: Db, e: Event, now: Time, j: JobId, key: Key)
    requires e.Reclaim?
    ensures var db' := DbAfter(cfg, db, e, now);
            && (j in db.jobs <==> j in db'.jobs) && (j in db.jobs ==> db'.jobs[j] == RowAfter(cfg, db, e, now, j))
            && Lookup(db'.reservations, key) == ReservationAfter(cfg, db, e, now, key)
            && Lookup(db'.attempts, key) == AttemptAfter(cfg, db, e, now, key)
            && db'.dlq == db.dlq && db'.outbox == db.outbox
  {
    if Stale(db, e.job, now) {
      ReleaseOnly(ReclaimedRows(cfg, db, e.job, now, e.retryAt, e.seenOwner), Key(e.job, db.jobs[e.job].attempt), key);
      assert LostRow(db.(jobs := db.jobs[e.job := ReclaimedRow(cfg, db.jobs[e.job], e.retryAt)]),
                     Key(e.job, db.jobs[e.job].attempt), e.seenOwner, now)
          == LostRow(db, Key(e.job, db.jobs[e.job].attempt), e.seenOwner, now);
    }
  }

  predicate Plain(e: Event) {
    !e.CancelCommit? && !e.Finalize? && !e.Reclaim?
  }

  lemma PlainRow(cfg: Settings, db: Db, e: Event, now: Time, j: JobId)
    requires Plain(e) && (e.Create? ==> e.job != j)
    ensures var db' := DbAfter(cfg, db, e, now);
            (j in db.jobs <==> j in db'.jobs) && (j in db.jobs ==> db'.jobs[j] == RowAfter(cfg, db, e, now, j))
  {
  }

  lemma PlainReservation(cfg: Settings, db: Db, e: Event, now: Time, key: Key)
    requires Plain(e)
    ensures Lookup(DbAfter(cfg, db, e, now).reservations, key) == ReservationAfter(cfg, db, e, now, key)
  {
  }

  lemma PlainTables(cfg: Settings, db: Db, e: Event, now: Time, key: Key)
    requires Plain(e)
    ensures var db' := DbAfter(cfg, db, e, now);
            && Lookup(db'.attempts, key) == AttemptAfter(cfg, db, e, now, key)
            && db'.dlq == db.dlq
            && db'.outbox == OutboxAfter(cfg, db, e, now)
  {
  }

  /** Everything at once: the tables after the event, read at job `j` and at `key`. */
  lemma Effect(cfg: Settings, db: Db, e: Event, now: Time, j: JobId, key: Key)
    requires e.Create? ==> e.job != j
    ensures var db' := DbAfter(cfg, db, e, now);
            && (j in db.jobs <==> j in db'.jobs) && (j in db.jobs ==> db'.jobs[j] == RowAfter(cfg, db, e, now, j))
            && Lookup(db'.reservations, key) == ReservationAfter(cfg, db, e, now, key)
            && Lookup(db'.attempts, key) == AttemptAfter(cfg, db, e, now, key)
            && Lookup(db'.dlq, j) == DlqAfter(cfg, db, e, now, j)
            && db'.outbox == OutboxAfter(cfg, db, e, now)
  {
    match e
    case CancelCommit(i, a) => CancelEffect(cfg, db, i, a, now, j, key);
    case Finalize(_, _, _, _, _) => FinalizeEffect(cfg, db, e, now, j, key);
    case Reclaim(_, _, _) => ReclaimEffect(cfg, db, e, now, j, key);
    case _ =>
      PlainRow(cfg, db, e, now, j);
      PlainReservation(cfg, db, e, now, key);
      PlainTables(cfg, db, e, now, key);
  }
}
