/** What becomes of a requested cancel. */
module Cancellation {
  import opened Types
  import opened Transactions
  import opened Protocol
  import opened Effects

  predicate Flagged(db: Db, j: JobId) {
    j in db.jobs && db.jobs[j].cancelRequested
  }

  predicate CancelsJob(e: Event, j: JobId) {
    e.CancelCommit? && e.job == j
  }

  /** A finalisation that takes effect ends CANCELLED if and only if its worker saw the flag, whether
  the flag was set or not. */
  lemma FinalizationCancelsIff(cfg: Settings, s: Sys, en: Entry, t: Sys)
    requires Step(cfg, s, en, t) && en.event.Finalize? && Fence(s.db, en.event.job, en.event.worker, en.event.attempt)
    ensures en.event.job in t.db.jobs
    ensures t.db.jobs[en.event.job].status.Cancelled? <==> en.event.outcome.CancelSeen?
  {
    Effect(cfg, s.db, en.event, en.now, en.event.job, Key(en.event.job, 0));
  }

  /** A RUNNING job whose cancel was requested leaves RUNNING as CANCELLED, unless a worker finalises it
  on a re-read older than the request. */
  lemma FlaggedEndsCancelledIff(cfg: Settings, s: Sys, en: Entry, t: Sys, j: JobId)
    requires Step(cfg, s, en, t) && Flagged(s.db, j) && s.db.jobs[j].status.Running?
    requires j in t.db.jobs && !t.db.jobs[j].status.Running?
    ensures t.db.jobs[j].status.Cancelled? <==> !(en.event.Finalize? && !en.event.outcome.CancelSeen?)
  {
    Effect(cfg, s.db, en.event, en.now, j, Key(j, 0));
  }

  lemma FlaggedQueuedStep(cfg: Settings, s: Sys, en: Entry, t: Sys, j: JobId)
    requires Step(cfg, s, en, t) && Flagged(s.db, j) && (s.db.jobs[j].status.Queued? || s.db.jobs[j].status.Cancelled?)
    ensures Flagged(t.db, j) && t.db.jobs[j].attempt == s.db.jobs[j].attempt
    ensures t.db.jobs[j].status == if CancelsJob(en.event, j) then Cancelled else s.db.jobs[j].status
  {
    assert !(en.event.Create? && en.event.job == j);
    Effect(cfg, s.db, en.event, en.now, j, Key(j, 0));
  }

  /** A QUEUED job whose cancel was requested is stranded: no claim, retry or recovery ever moves it, and
  it leaves QUEUED, for CANCELLED, if and only if someone cancels it again. */
  lemma {:induction false} FlaggedQueuedStuckIff(cfg: Settings, run: Run, m: nat, n: nat, j: JobId)
    requires run.Valid(cfg) && m <= n < |run.states| && Flagged(run.states[m].db, j) && run.states[m].db.jobs[j].status.Queued?
    ensures Flagged(run.states[n].db, j) && run.states[n].db.jobs[j].attempt == run.states[m].db.jobs[j].attempt
    ensures run.states[n].db.jobs[j].status ==
            if exists i :: m <= i < n && CancelsJob(run.log[i].event, j) then Cancelled else Queued
  {
    if m < n {
      FlaggedQueuedStuckIff(cfg, run, m, n - 1, j);
      assert Step(cfg, run.states[n - 1], run.log[n - 1], run.states[n]);
      FlaggedQueuedStep(cfg, run.states[n - 1], run.log[n - 1], run.states[n], j);
    }
  }
}
