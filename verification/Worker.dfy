/** The worker's side of an attempt. */
module Worker {
  import opened Types
  import opened Rules
  import opened Transactions
  import opened Repository

  datatype Result = NotClaimed | Claimed | FencedOut | IntegrityError

  /** Claim, then insert the attempt row: two transactions. */
  method BeginAttempt(db: Database, cfg: Settings, j: JobId, w: WorkerId, now: Time)
    returns (attempt: Option<nat>, started: bool)
    modifies db`jobs, db`attempts
    ensures attempt.Some? <==> Claimable(old(db.View()), j, now)
    ensures var claimed := ClaimTx(cfg, old(db.View()), j, w, now);
            db.View() == if attempt.Some? then StartAttemptTx(claimed, Key(j, attempt.value), w, now) else claimed
    ensures attempt.Some? ==> Fence(db.View(), j, w, attempt.value)
    ensures started <==> attempt.Some? && Key(j, attempt.value) !in old(db.attempts)
  {
    started := false;
    attempt := db.Claim(cfg, j, w, now);
    if attempt.Some? {
      started := db.InsertAttempt(Key(j, attempt.value), w, now);
    }
  }

  /** The dead-letter INSERT of this finalisation would violate its primary key. */
  predicate DeadLetterClash(cfg: Settings, db: Db, j: JobId, k: nat, outcome: Outcome) {
    FinalStatus(cfg, k, outcome).Failed? && j in db.dlq
  }

  /** The final transaction, branch by branch; everything written is undone where the fence fails or a
  key is violated. */
  method EndAttempt(db: Database, cfg: Settings, j: JobId, w: WorkerId, k: nat, outcome: Outcome,
                    b: Backoff, now: Time, u: real) returns (r: Result)
    modifies db
    ensures r == if !Fence(old(db.View()), j, w, k) then FencedOut
                 else if DeadLetterClash(cfg, old(db.View()), j, k, outcome) then IntegrityError else Claimed
    ensures db.View() == if r.Claimed? then FinalizeTx(cfg, old(db.View()), j, w, k, outcome, now, b.NextRetryAt(k, now, u)) else old(db.View())
  {
    var key, jobs, attempts := Key(j, k), db.jobs, db.attempts;
    var finalized: bool;
    var violated := false;
    match outcome {
      case CancelSeen =>
        finalized := db.FinalizeAttempt(j, w, k, Cancelled, None);
        db.FinishAttempt(key, AttemptCancelled, None, now);
      case Success =>
        finalized := db.FinalizeAttempt(j, w, k, Succeeded, None);
        db.FinishAttempt(key, AttemptSucceeded, None, now);
      case Failure(c) =>
        if IsRetryable(c, k, cfg.maxAttempts) {
          finalized := db.FinalizeAttempt(j, w, k, Queued, Some(b.NextRetryAt(k, now, u)));
          db.FinishAttempt(key, AttemptFailed, Some(c), now);
        } else {
          finalized := db.FinalizeAttempt(j, w, k, Failed, None);
          db.FinishAttempt(key, AttemptFailed, Some(c), now);
          if finalized {
            var inserted := db.InsertDlq(j, DlqEntry(k, c, k));
            violated := !inserted;
          }
        }
    }
    if finalized && !violated {
      db.ReleaseHeld(key);
      r := Claimed;
    } else {
      db.jobs, db.attempts := jobs, attempts;  // rollback
      r := if violated then IntegrityError else FencedOut;
    }
  }

  // ----- what a finished message leaves behind, column by column ----------------------------------------

  /** The job's row after attempt `k` ended with `executed`, the flag having been set or not. */
  predicate JobEnds(cfg: Settings, before: Job, after: Job, k: nat, executed: Outcome, retryAt: Time) {
    && after.attempt == before.attempt && after.leaseOwner.None? && after.leaseExpires.None?
    && after.cancelRequested == before.cancelRequested
    && (if before.cancelRequested then after.status == Cancelled
        else match executed
             case CancelSeen => after.status == Cancelled
             case Success => after.status == Succeeded
             case Failure(c) => after.status == if c != Permanent && k < cfg.maxAttempts then Queued else Failed)
    && after.nextRetry == if after.status == Queued then Some(retryAt) else before.nextRetry
  }

  /** Its attempt row. */
  predicate AttemptEnds(flagged: bool, before: Attempt, after: Attempt, executed: Outcome, now: Time) {
    && after.worker == before.worker && after.startedAt == before.startedAt && after.finishedAt == Some(now)
    && if flagged then after.status == AttemptCancelled && after.classification == None
       else match executed
            case CancelSeen => after.status == AttemptCancelled && after.classification == None
            case Success => after.status == AttemptSucceeded && after.classification == None
            case Failure(c) => after.status == AttemptFailed && after.classification == Some(c)
  }

  lemma EndedJob(cfg: Settings, row: Job, k: nat, executed: Outcome, retryAt: Time)
    requires row.status.Running?
    ensures JobEnds(cfg, row, FinalRow(cfg, row, k, if row.cancelRequested then CancelSeen else executed, retryAt), k, executed, retryAt)
  {
  }

  lemma EndedAttempt(row: Attempt, flagged: bool, executed: Outcome, now: Time)
    ensures var outcome := if flagged then CancelSeen else executed;
            var c := if outcome.Failure? then Some(outcome.classification) else None;
            AttemptEnds(flagged, row, row.(status := FinalAttemptStatus(outcome), finishedAt := Some(now), classification := c),
                        executed, now)
  {
  }

  lemma EndedTables(cfg: Settings, db: Db, j: JobId, w: WorkerId, k: nat, outcome: Outcome, now: Time, retryAt: Time)
    requires Fence(db, j, w, k)
    ensures var db' := FinalizeTx(cfg, db, j, w, k, outcome, now, retryAt); var key := Key(j, k);
            var c := if outcome.Failure? then Some(outcome.classification) else None;
            && db'.jobs == db.jobs[j := FinalRow(cfg, db.jobs[j], k, outcome, retryAt)]
            && db'.attempts == if key in db.attempts
                               then db.attempts[key := db.attempts[key].(status := FinalAttemptStatus(outcome), finishedAt := Some(now),
                                                                         classification := c)]
                               else db.attempts
  {
  }

  lemma EndedRows(cfg: Settings, db: Db, j: JobId, w: WorkerId, k: nat, executed: Outcome, now: Time, retryAt: Time)
    requires Fence(db, j, w, k)
    ensures var outcome := if db.jobs[j].cancelRequested then CancelSeen else executed;
            var db' := FinalizeTx(cfg, db, j, w, k, outcome, now, retryAt); var key := Key(j, k);
            && j in db'.jobs && db'.jobs == db.jobs[j := db'.jobs[j]] && JobEnds(cfg, db.jobs[j], db'.jobs[j], k, executed, retryAt)
            && (key in db.attempts ==>
                  && key in db'.attempts && db'.attempts == db.attempts[key := db'.attempts[key]]
                  && AttemptEnds(db.jobs[j].cancelRequested, db.attempts[key], db'.attempts[key], executed, now))
            && (key !in db.attempts ==> db'.attempts == db.attempts)
  {
    var flagged, key := db.jobs[j].cancelRequested, Key(j, k);
    EndedTables(cfg, db, j, w, k, if flagged then CancelSeen else executed, now, retryAt);
    EndedJob(cfg, db.jobs[j], k, executed, retryAt);
    if key in db.attempts {
      EndedAttempt(db.attempts[key], flagged, executed, now);
    }
  }

  lemma ReleasedLedger(db: Db, key: Key)
    ensures var db' := ReleaseTx(db, key);
            && db'.reservations == (if key in db.reservations
                                    then db.reservations[key := db.reservations[key].(active := false)] else db.reservations)
            && db'.capacity == (if key in db.reservations && db.reservations[key].active
                                then db.capacity.(inUse := db.capacity.inUse.Minus(db.reservations[key].held)) else db.capacity)
  {
    assert key in db.reservations && !db.reservations[key].active ==>
      db.reservations[key].(active := false) == db.reservations[key];
  }

  lemma EndedLedger(cfg: Settings, db: Db, j: JobId, w: WorkerId, k: nat, outcome: Outcome, now: Time, retryAt: Time)
    requires Fence(db, j, w, k)
    ensures var db' := FinalizeTx(cfg, db, j, w, k, outcome, now, retryAt); var key := Key(j, k);
            && db'.reservations == (if key in db.reservations
                                    then db.reservations[key := db.reservations[key].(active := false)] else db.reservations)
            && db'.capacity == (if key in db.reservations && db.reservations[key].active
                                then db.capacity.(inUse := db.capacity.inUse.Minus(db.reservations[key].held)) else db.capacity)
            && db'.outbox == db.outbox
            && db'.dlq == if j in db'.jobs && db'.jobs[j].status == Failed then db.dlq[j := DlqEntry(k, outcome.classification, k)]
                          else db.dlq
  {
    ReleasedLedger(FinalizedRows(cfg, db, j, k, outcome, now, retryAt), Key(j, k));
  }

  /** Everything after the executor returned, whatever happened to the tables meanwhile.  A cancel
  requested by then wins over any verdict. */
  method FinishMessage(db: Database, cfg: Settings, j: JobId, w: WorkerId, k: nat, executed: Outcome, abandoned: bool,
                       b: Backoff, now: Time, u: real) returns (r: Result)
    modifies db
    ensures r.Claimed? || r.FencedOut? || r.IntegrityError?
    ensures r.FencedOut? <==> abandoned || !(j in old(db.jobs) && old(db.jobs)[j].status == Running
                                             && old(db.jobs)[j].leaseOwner == Some(w) && old(db.jobs)[j].attempt == k)
    ensures r.IntegrityError? <==> !r.FencedOut? && j in old(db.dlq) && !old(db.jobs)[j].cancelRequested
                                   && executed.Failure? && !(executed.classification != Permanent && k < cfg.maxAttempts)
    ensures !r.Claimed? ==> db.View() == old(db.View())
    ensures r.Claimed? ==>
      var key, flagged := Key(j, k), old(db.jobs)[j].cancelRequested;
      && j in db.jobs && db.jobs == old(db.jobs)[j := db.jobs[j]]
      && JobEnds(cfg, old(db.jobs)[j], db.jobs[j], k, executed, b.NextRetryAt(k, now, u))
      && (key in old(db.attempts) ==>
            && key in db.attempts && db.attempts == old(db.attempts)[key := db.attempts[key]]
            && AttemptEnds(flagged, old(db.attempts)[key], db.attempts[key], executed, now))
      && (key !in old(db.attempts) ==> db.attempts == old(db.attempts))
      && db.reservations == (if key in old(db.reservations)
                             then old(db.reservations)[key := old(db.reservations)[key].(active := false)]
                             else old(db.reservations))
      && db.capacity == (if key in old(db.reservations) && old(db.reservations)[key].active
                         then old(db.capacity).(inUse := old(db.capacity).inUse.Minus(old(db.reservations)[key].held))
                         else old(db.capacity))
      && db.outbox == old(db.outbox)
      && db.dlq == if db.jobs[j].status == Failed && executed.Failure?
                   then old(db.dlq)[j := DlqEntry(k, executed.classification, k)] else old(db.dlq)
    // a cancel requested by then ends the attempt CANCELLED
    ensures r.Claimed? && old(db.jobs)[j].cancelRequested ==> db.jobs[j].status == Cancelled && db.dlq == old(db.dlq)
    ensures r.Claimed? && old(db.jobs)[j].cancelRequested && Key(j, k) in old(db.attempts) ==>
      Key(j, k) in db.attempts && db.attempts[Key(j, k)].status == AttemptCancelled
    // without one the verdict decides
    ensures r.Claimed? && !old(db.jobs)[j].cancelRequested ==>
      && (db.jobs[j].status == Succeeded <==> executed.Success?)
      && (db.jobs[j].status == Cancelled <==> executed.CancelSeen?)
      && (db.jobs[j].status == Queued <==> executed.Failure? && executed.classification != Permanent && k < cfg.maxAttempts)
      && (db.jobs[j].status == Failed <==> executed.Failure? && !(executed.classification != Permanent && k < cfg.maxAttempts))
      && (db.jobs[j].status == Queued ==> db.jobs[j].nextRetry == Some(b.NextRetryAt(k, now, u)) && db.dlq == old(db.dlq))
      && (db.jobs[j].status == Failed ==> db.dlq == old(db.dlq)[j := DlqEntry(k, executed.classification, k)])
      && (Key(j, k) in old(db.attempts) ==> Key(j, k) in db.attempts && db.attempts[Key(j, k)].finishedAt == Some(now))
    ensures r.Claimed? && !old(db.jobs)[j].cancelRequested && Key(j, k) in old(db.attempts) ==>
      && Key(j, k) in db.attempts
      && (db.attempts[Key(j, k)].status == AttemptSucceeded <==> executed.Success?)
      && (db.attempts[Key(j, k)].status == AttemptFailed <==> executed.Failure?)
      && (executed.Failure? ==> db.attempts[Key(j, k)].classification == Some(executed.classification))
  {
    if abandoned {
      return FencedOut;
    }
    ghost var before := db.View();
    var outcome := if j in db.jobs && db.jobs[j].cancelRequested then CancelSeen else executed;
    r := EndAttempt(db, cfg, j, w, k, outcome, b, now, u);
    if r.Claimed? {
      EndedRows(cfg, before, j, w, k, executed, now, b.NextRetryAt(k, now, u));
      EndedLedger(cfg, before, j, w, k, outcome, now, b.NextRetryAt(k, now, u));
    }
  }

  /** One message handled without interference.  `executed` is the executor's verdict, `abandoned`
  whether a heartbeat was refused meanwhile. */
  method ProcessJobMessage(db: Database, cfg: Settings, j: JobId, w: WorkerId, executed: Outcome,
                           abandoned: bool, b: Backoff, now: Time, u: real) returns (r: Result)
    requires !executed.CancelSeen?
    modifies db
    ensures r.NotClaimed? <==> !Claimable(old(db.View()), j, now)
    ensures r.NotClaimed? ==> db.View() == old(db.View())
    ensures Claimable(old(db.View()), j, now) ==>
      var row, k := old(db.jobs)[j], old(db.jobs[j].attempt) + 1;
      && r == (if Key(j, k) in old(db.attempts) then IntegrityError
               else if abandoned then FencedOut
               else if executed.Failure? && j in old(db.dlq) && !(executed.classification != Permanent && k < cfg.maxAttempts)
               then IntegrityError else Claimed)
      && j in db.jobs && db.jobs == old(db.jobs)[j := db.jobs[j]]
      && Key(j, k) in db.attempts && db.attempts == old(db.attempts)[Key(j, k) := db.attempts[Key(j, k)]]
      && (Key(j, k) in old(db.attempts) ==> db.attempts == old(db.attempts))
      && (r.Claimed? ==>
            && JobEnds(cfg, row.(attempt := k, nextRetry := None), db.jobs[j], k, executed, b.NextRetryAt(k, now, u))
            && AttemptEnds(false, Attempt(w, AttemptRunning, now, None, None), db.attempts[Key(j, k)], executed, now))
      && (!r.Claimed? ==>
            db.jobs[j] == row.(status := Running, attempt := k, leaseOwner := Some(w),
                               leaseExpires := Some(now + cfg.leaseDuration), nextRetry := None))
  {
    var attempt, started := BeginAttempt(db, cfg, j, w, now);
    if attempt.None? {
      return NotClaimed;
    }
    if !started {
      return IntegrityError;
    }
    r := FinishMessage(db, cfg, j, w, attempt.value, executed, abandoned, b, now, u);
  }
}
