/** How one job row can change over a run, and what that makes of the fencing token. */
module Fencing {
  import opened Types
  import opened Transactions
  import opened Protocol
  import opened Effects

  /** `b` can be a later state of row `a`.  RUNNING at an attempt is entered once: a row RUNNING at
  the attempt `a` already has was RUNNING in `a`, under the same owner. */
  predicate Later(a: Job, b: Job) {
    && a.attempt <= b.attempt
    && (a.cancelRequested ==> b.cancelRequested)
    && b.priority == a.priority && b.createdAt == a.createdAt && b.overrides == a.overrides
    && (Terminal(a.status) ==> b.status == a.status && b.attempt == a.attempt)
    && (a.attempt == b.attempt && b.status.Running? ==> a.status.Running? && a.leaseOwner == b.leaseOwner)
    && (a.attempt == b.attempt && a.status.Queued? ==> b.status.Queued? || b.status.Cancelled?)
    // a backoff is only ever set by leaving RUNNING
    && (a.attempt == b.attempt && a.status.Queued? && b.status.Queued? ==>
          b.nextRetry == a.nextRetry || b.nextRetry.None?)
  }

  lemma LaterTransitive(a: Job, b: Job, c: Job)
    requires Later(a, b) && Later(b, c)
    ensures Later(a, c)
  {
  }

  /** One transaction moves every existing job row to a later one. */
  lemma StepLater(cfg: Settings, db: Db, e: Event, now: Time, j: JobId)
    requires j in db.jobs && (e.Create? ==> e.job !in db.jobs)
    ensures j in DbAfter(cfg, db, e, now).jobs
    ensures Later(db.jobs[j], DbAfter(cfg, db, e, now).jobs[j])
  {
    Effect(cfg, db, e, now, j, Key(j, 0));
  }

  lemma {:induction false} LaterAlong(cfg: Settings, run: Run, m: nat, n: nat, j: JobId)
    requires run.Valid(cfg) && m <= n < |run.states| && j in run.states[m].db.jobs
    ensures j in run.states[n].db.jobs
    ensures Later(run.states[m].db.jobs[j], run.states[n].db.jobs[j])
  {
    if m < n {
      LaterAlong(cfg, run, m, n - 1, j);
      assert Step(cfg, run.states[n - 1], run.log[n - 1], run.states[n]);
      StepLater(cfg, run.states[n - 1].db, run.log[n - 1].event, run.log[n - 1].now, j);
      LaterTransitive(run.states[m].db.jobs[j], run.states[n - 1].db.jobs[j], run.states[n].db.jobs[j]);
    }
  }

  /** Only a finalisation with a successful outcome makes a job SUCCEEDED. */
  lemma BecomesSucceeded(cfg: Settings, db: Db, e: Event, now: Time, j: JobId)
    requires j in db.jobs && (e.Create? ==> e.job !in db.jobs)
    ensures var db' := DbAfter(cfg, db, e, now);
            && j in db'.jobs
            && (db'.jobs[j].status.Succeeded? && !db.jobs[j].status.Succeeded? ==>
                  && e.Finalize? && e.job == j && e.outcome.Success? && Fence(db, j, e.worker, e.attempt)
                  && db'.jobs[j].attempt == e.attempt)
            && (db.jobs[j].status.Succeeded? ==> db'.jobs[j].status.Succeeded? && db'.jobs[j].attempt == db.jobs[j].attempt)
  {
    Effect(cfg, db, e, now, j, Key(j, 0));
  }

  // ----- fencing over whole runs --------------------------------------------------------

  /** Once attempt `k` has been claimed and `(w, k)` does not hold the fence, it never will again:
  no stale heartbeat, finalisation or fenced insert can land, even if worker ids are reused. */
  lemma FenceLostForever(cfg: Settings, run: Run, m: nat, n: nat, j: JobId, w: WorkerId, k: nat)
    requires run.Valid(cfg) && m <= n < |run.states|
    requires j in run.states[m].db.jobs && k <= run.states[m].db.jobs[j].attempt
    requires !Fence(run.states[m].db, j, w, k)
    ensures !Fence(run.states[n].db, j, w, k)
  {
    LaterAlong(cfg, run, m, n, j);
  }

  /** An attempt is RUNNING under its owner for one contiguous interval. */
  lemma OneInterval(cfg: Settings, run: Run, i: nat, m: nat, n: nat, j: JobId, w: WorkerId, k: nat)
    requires run.Valid(cfg) && i <= m <= n < |run.states|
    requires Fence(run.states[i].db, j, w, k) && Fence(run.states[n].db, j, w, k)
    ensures Fence(run.states[m].db, j, w, k)
  {
    LaterAlong(cfg, run, i, m, j);
    LaterAlong(cfg, run, m, n, j);
  }

  /** No two workers ever own the same attempt, at the same time or at different times. */
  lemma OneOwner(cfg: Settings, run: Run, m: nat, n: nat, j: JobId, w: WorkerId, w': WorkerId, k: nat)
    requires run.Valid(cfg) && m <= n < |run.states|
    requires Fence(run.states[m].db, j, w, k) && Fence(run.states[n].db, j, w', k)
    ensures w == w'
  {
    LaterAlong(cfg, run, m, n, j);
  }

  ghost predicate ClaimAt(run: Run, i: nat, j: JobId)
    requires |run.states| == |run.log| + 1 && i < |run.log|
  {
    && run.log[i].event.Consume? && run.log[i].event.job == j
    && Claimable(run.states[i].db, j, run.log[i].now)
  }

  /** Each attempt number is handed out at most once: later claims get strictly larger ones. */
  lemma ClaimsIncrease(cfg: Settings, run: Run, m: nat, n: nat, j: JobId)
    requires run.Valid(cfg) && m < n < |run.log| && ClaimAt(run, m, j) && ClaimAt(run, n, j)
    ensures j in run.states[m + 1].db.jobs && j in run.states[n + 1].db.jobs
    ensures run.states[m + 1].db.jobs[j].attempt < run.states[n + 1].db.jobs[j].attempt
  {
    assert Step(cfg, run.states[m], run.log[m], run.states[m + 1]);
    assert Step(cfg, run.states[n], run.log[n], run.states[n + 1]);
    LaterAlong(cfg, run, m + 1, n, j);
  }
}
