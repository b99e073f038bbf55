/** The tables as one mutable store, and the repository functions that run SQL against it. */
module Repository {
  import opened Types
  import opened Transactions

  class Database {
    var jobs: map<JobId, Job>
    var attempts: map<Key, Attempt>
    var reservations: map<Key, Reservation>
    var capacity: Capacity
    var outbox: seq<OutboxRow>
    var dlq: map<JobId, DlqEntry>

    constructor (total: Resources)
      ensures View() == Db(map[], map[], map[], Capacity(total, NOTHING), [], map[])
    {
      jobs, attempts, reservations, dlq := map[], map[], map[], map[];
      capacity, outbox := Capacity(total, NOTHING), [];
    }

    /** The committed state as a value; every transaction is specified by a function on it. */
    ghost function View(): Db
      reads this
    {
      Db(jobs, attempts, reservations, capacity, outbox, dlq)
    }

    // ----- jobs -----------------------------------------------------------------------------

    method CreateAndEnqueue(j: JobId, priority: int, overrides: Overrides, now: Time)
      modifies this`jobs
      ensures View() == CreateTx(old(View()), j, priority, overrides, now)
      ensures j in jobs && jobs == old(jobs)[j := jobs[j]]
      ensures jobs[j].status == Queued && jobs[j].attempt == 0 && !jobs[j].cancelRequested && jobs[j].leaseOwner.None?
      ensures jobs[j].leaseExpires.None? && jobs[j].nextRetry.None?
      ensures jobs[j].priority == priority && jobs[j].createdAt == now && jobs[j].overrides == overrides
    {
      var row := Job(Pending, 0, false, None, None, None, priority, now, overrides);
      row := row.(status := Queued);
      jobs := jobs[j := row];
    }

    /** UPDATE ... WHERE status IN valid_from; the answer says whether a row matched. */
    method ConditionalTransition(j: JobId, validFrom: set<Status>, to: Status) returns (applied: bool)
      modifies this`jobs
      ensures applied <==> j in old(jobs) && old(jobs)[j].status in validFrom
      ensures jobs == if applied then old(jobs)[j := old(jobs)[j].(status := to)] else old(jobs)
    {
      applied := j in jobs && jobs[j].status in validFrom;
      if applied {
        jobs := jobs[j := jobs[j].(status := to)];
      }
    }

    method SetCancelRequested(j: JobId) returns (applied: bool)
      modifies this`jobs
      ensures View() == RequestCancelTx(old(View()), j)
      ensures applied <==> j in old(jobs) && old(jobs)[j].status.Running?
      ensures jobs == if applied then old(jobs)[j := old(jobs)[j].(cancelRequested := true)] else old(jobs)
    {
      applied := j in jobs && jobs[j].status.Running?;
      if applied {
        jobs := jobs[j := jobs[j].(cancelRequested := true)];
      }
    }

    method Claim(cfg: Settings, j: JobId, w: WorkerId, now: Time) returns (attempt: Option<nat>)
      modifies this`jobs
      ensures View() == ClaimTx(cfg, old(View()), j, w, now)
      ensures attempt.Some? <==> Claimable(old(View()), j, now)
      ensures attempt.Some? ==> Fence(View(), j, w, attempt.value)
      // the WHERE clause and the SET list, column by column
      ensures attempt.Some? <==>
        && j in old(jobs) && old(jobs)[j].status == Queued && !old(jobs)[j].cancelRequested
        && (old(jobs)[j].nextRetry.Some? ==> old(jobs)[j].nextRetry.value <= now)
        && Key(j, old(jobs)[j].attempt + 1) in reservations && reservations[Key(j, old(jobs)[j].attempt + 1)].active
      ensures attempt.None? ==> jobs == old(jobs)
      ensures attempt.Some? ==>
        && attempt.value == old(jobs)[j].attempt + 1
        && jobs == old(jobs)[j := old(jobs)[j].(status := Running, attempt := attempt.value, leaseOwner := Some(w),
                                                leaseExpires := Some(now + cfg.leaseDuration), nextRetry := None)]
    {
      attempt := None;
      if j in jobs {
        var row := jobs[j];
        var next := Key(j, row.attempt + 1);
        var reserved := next in reservations && reservations[next].active;
        var due := row.nextRetry.None? || row.nextRetry.value <= now;
        if row.status == Queued && !row.cancelRequested && due && reserved {
          jobs := jobs[j := row.(status := Running, leaseOwner := Some(w),
                                 leaseExpires := Some(now + cfg.leaseDuration),
                                 attempt := row.attempt + 1, nextRetry := None)];
          attempt := Some(row.attempt + 1);
        }
      }
    }

    method Heartbeat(cfg: Settings, j: JobId, w: WorkerId, k: nat, now: Time) returns (renewed: bool)
      modifies this`jobs
      ensures View() == HeartbeatTx(cfg, old(View()), j, w, k, now)
      ensures renewed <==> Fence(old(View()), j, w, k)
      ensures jobs == if renewed then old(jobs)[j := old(jobs)[j].(leaseExpires := Some(now + cfg.leaseDuration))] else old(jobs)
    {
      renewed := Fences(j, w, k);
      if renewed {
        jobs := jobs[j := jobs[j].(leaseExpires := Some(now + cfg.leaseDuration))];
      }
    }

    /** The EXISTS subquery every fenced write shares. */
    method Fences(j: JobId, w: WorkerId, k: nat) returns (holds: bool)
      ensures holds <==> Fence(View(), j, w, k)
      ensures holds <==> j in jobs && jobs[j].status == Running && jobs[j].leaseOwner == Some(w) && jobs[j].attempt == k
    {
      holds := j in jobs && jobs[j].status == Running && jobs[j].leaseOwner == Some(w) && jobs[j].attempt == k;
    }

    method FinalizeAttempt(j: JobId, w: WorkerId, k: nat, to: Status, retryAt: Option<Time>)
      returns (finalized: bool)
      modifies this`jobs
      ensures finalized <==> Fence(old(View()), j, w, k)
      ensures jobs == if finalized
                      then old(jobs)[j := old(jobs)[j].(status := to, leaseOwner := None, leaseExpires := None,
                             nextRetry := if retryAt.Some? then retryAt else old(jobs)[j].nextRetry)]
                      else old(jobs)
    {
      finalized := Fences(j, w, k);
      if finalized {
        var row := jobs[j].(status := to, leaseOwner := None, leaseExpires := None);
        if retryAt.Some? {
          row := row.(nextRetry := retryAt);
        }
        jobs := jobs[j := row];
      }
    }

    /** Recovery's reclaim, branching on the cancel flag and the attempts left in one statement. */
    method ReclaimStale(cfg: Settings, j: JobId, now: Time, retryAt: Time) returns (lost: Option<nat>)
      modifies this`jobs
      ensures lost.Some? <==> Stale(old(View()), j, now)
      ensures lost.Some? <==> j in old(jobs) && old(jobs)[j].status == Running && old(jobs)[j].leaseExpires.Some?
                              && old(jobs)[j].leaseExpires.value < now
      ensures lost.Some? ==>
        && j in jobs && jobs[j].leaseOwner.None? && jobs[j].leaseExpires.None? && jobs[j].attempt == old(jobs)[j].attempt
        && jobs[j].cancelRequested == old(jobs)[j].cancelRequested
        && jobs[j].status == (if old(jobs)[j].cancelRequested then Cancelled
                              else if old(jobs)[j].attempt >= cfg.maxAttempts then Failed else Queued)
        && jobs[j].nextRetry == (if jobs[j].status == Queued then Some(retryAt) else None)
      ensures lost.Some? ==> lost.value == old(jobs)[j].attempt
      ensures jobs == if lost.Some? then old(jobs)[j := ReclaimedRow(cfg, old(jobs)[j], retryAt)] else old(jobs)
    {
      lost := None;
      if j in jobs && jobs[j].status == Running && jobs[j].leaseExpires.Some? && jobs[j].leaseExpires.value < now {
        var row := jobs[j].(leaseOwner := None, leaseExpires := None);
        if row.cancelRequested {
          row := row.(status := Cancelled, nextRetry := None);
        } else if row.attempt >= cfg.maxAttempts {
          row := row.(status := Failed, nextRetry := None);
        } else {
          row := row.(status := Queued, nextRetry := Some(retryAt));
        }
        jobs := jobs[j := row];
        lost := Some(row.attempt);
      }
    }

    method ClearRetryDispatched(j: JobId)
      modifies this`jobs
      ensures View() == ClearRetryTx(old(View()), j)
      ensures jobs == if j in old(jobs) then old(jobs)[j := old(jobs)[j].(nextRetry := None)] else old(jobs)
    {
      if j in jobs {
        jobs := jobs[j := jobs[j].(nextRetry := None)];
      }
    }

    // ----- capacity -------------------------------------------------------------------------

    method TryReserve(r: Resources) returns (reserved: bool)
      modifies this`capacity
      ensures reserved <==> Fits(old(capacity), r)
      ensures reserved <==>
        && old(capacity).inUse.cpu + r.cpu <= old(capacity).total.cpu
        && old(capacity).inUse.memoryMb + r.memoryMb <= old(capacity).total.memoryMb
        && old(capacity).inUse.gpu + r.gpu <= old(capacity).total.gpu
      ensures reserved ==>
        && capacity.inUse.cpu == old(capacity).inUse.cpu + r.cpu
        && capacity.inUse.memoryMb == old(capacity).inUse.memoryMb + r.memoryMb
        && capacity.inUse.gpu == old(capacity).inUse.gpu + r.gpu
      ensures capacity == if reserved then old(capacity).(inUse := old(capacity).inUse.Plus(r)) else old(capacity)
    {
      var c := capacity;
      reserved := c.inUse.cpu + r.cpu <= c.total.cpu && c.inUse.memoryMb + r.memoryMb <= c.total.memoryMb
               && c.inUse.gpu + r.gpu <= c.total.gpu;
      if reserved {
        capacity := c.(inUse := Resources(c.inUse.cpu + r.cpu, c.inUse.memoryMb + r.memoryMb, c.inUse.gpu + r.gpu));
      }
    }

    method ReleaseCapacity(r: Resources)
      modifies this`capacity
      ensures capacity == old(capacity).(inUse := old(capacity).inUse.Minus(r))
      ensures capacity.inUse.cpu == old(capacity).inUse.cpu - r.cpu
      ensures capacity.inUse.memoryMb == old(capacity).inUse.memoryMb - r.memoryMb
      ensures capacity.inUse.gpu == old(capacity).inUse.gpu - r.gpu
    {
      capacity := capacity.(inUse := Resources(capacity.inUse.cpu - r.cpu, capacity.inUse.memoryMb - r.memoryMb,
                                               capacity.inUse.gpu - r.gpu));
    }

    // ----- reservations -----------------------------------------------------------------------

    /** `inserted` is false where the composite primary key makes the INSERT fail. */
    method InsertReservation(key: Key, r: Resources) returns (inserted: bool)
      modifies this`reservations
      ensures inserted <==> key !in old(reservations)
      ensures reservations == if inserted then old(reservations)[key := Reservation(r, true)] else old(reservations)
    {
      inserted := key !in reservations;
      if inserted {
        reservations := reservations[key := Reservation(r, true)];
      }
    }

    /** ACTIVE -> RELEASED; only the caller that wins the transition gets the row back. */
    method ReleaseReservation(key: Key) returns (released: Option<Reservation>)
      modifies this`reservations
      ensures released.Some? <==> key in old(reservations) && old(reservations)[key].active
      ensures released.Some? ==> released.value == old(reservations)[key].(active := false)
      ensures reservations == if released.Some? then old(reservations)[key := released.value] else old(reservations)
    {
      released := None;
      if key in reservations && reservations[key].active {
        var row := reservations[key].(active := false);
        reservations := reservations[key := row];
        released := Some(row);
      }
    }

    /** `_release_reservation`: capacity comes back only with the row just released. */
    method ReleaseHeld(key: Key)
      modifies this`reservations, this`capacity
      ensures View() == ReleaseTx(old(View()), key)
      ensures reservations == if key in old(reservations)
        then old(reservations)[key := old(reservations)[key].(active := false)] else old(reservations)
      ensures capacity == if key in old(reservations) && old(reservations)[key].active
        then old(capacity).(inUse := old(capacity).inUse.Minus(old(reservations)[key].held)) else old(capacity)
    {
      var released := ReleaseReservation(key);
      if released.Some? {
        ReleaseCapacity(released.value.held);
      }
    }

    // ----- attempts ---------------------------------------------------------------------------

    method InsertAttempt(key: Key, w: WorkerId, now: Time) returns (inserted: bool)
      modifies this`attempts
      ensures View() == StartAttemptTx(old(View()), key, w, now)
      ensures inserted <==> key !in old(attempts)
      ensures attempts == if inserted then old(attempts)[key := Attempt(w, AttemptRunning, now, None, None)] else old(attempts)
    {
      inserted := key !in attempts;
      if inserted {
        attempts := attempts[key := Attempt(w, AttemptRunning, now, None, None)];
      }
    }

    method FinishAttempt(key: Key, status: AttemptStatus, c: Option<Classification>, now: Time)
      modifies this`attempts
      ensures View() == FinishAttemptTx(old(View()), key, status, c, now)
      ensures attempts == if key in old(attempts)
        then old(attempts)[key := old(attempts)[key].(status := status, finishedAt := Some(now), classification := c)]
        else old(attempts)
    {
      if key in attempts {
        attempts := attempts[key := attempts[key].(status := status, finishedAt := Some(now), classification := c)];
      }
    }

    /** Insert or update: the worker may have died before inserting its row. */
    method MarkLost(key: Key, seenOwner: WorkerId, now: Time)
      modifies this`attempts
      ensures View() == MarkLostTx(old(View()), key, seenOwner, now)
      ensures key in attempts && attempts == old(attempts)[key := attempts[key]]
      ensures attempts[key].status == AttemptLost && attempts[key].finishedAt == Some(now)
      ensures attempts[key].classification == Some(Transient)
      ensures if key in old(attempts)
        then attempts[key].worker == old(attempts)[key].worker && attempts[key].startedAt == old(attempts)[key].startedAt
        else attempts[key].worker == seenOwner && attempts[key].startedAt == now
    {
      if key in attempts {
        attempts := attempts[key := attempts[key].(status := AttemptLost, finishedAt := Some(now),
                                                   classification := Some(Transient))];
      } else {
        attempts := attempts[key := Attempt(seenOwner, AttemptLost, now, Some(now), Some(Transient))];
      }
    }

    // ----- dlq and outbox -----------------------------------------------------------------------

    /** `inserted` is false where the primary key makes the INSERT fail. */
    method InsertDlq(j: JobId, entry: DlqEntry) returns (inserted: bool)
      modifies this`dlq
      ensures inserted <==> j !in old(dlq)
      ensures dlq == if inserted then old(dlq)[j := entry] else old(dlq)
    {
      inserted := j !in dlq;
      if inserted {
        dlq := dlq[j := entry];
      }
    }

    method InsertEvent(j: JobId)
      modifies this`outbox
      ensures View() == InsertEventTx(old(View()), j)
      ensures outbox == old(outbox) + [OutboxRow(j, None)]
    {
      outbox := outbox + [OutboxRow(j, None)];
    }

    method MarkPublished(i: nat, now: Time)
      modifies this`outbox
      ensures View() == MarkPublishedTx(old(View()), i, now)
      ensures |outbox| == |old(outbox)| && forall r :: 0 <= r < |outbox| ==>
        outbox[r] == if r == i then old(outbox)[r].(publishedAt := Some(now)) else old(outbox)[r]
    {
      if i < |outbox| {
        outbox := outbox[i := outbox[i].(publishedAt := Some(now))];
      }
    }
  }
}
