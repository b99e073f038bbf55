/** Leases against the clock: which reclaims can take effect. */
module Leases {
  import opened Types
  import opened Transactions
  import opened Protocol
  import opened Effects
  import opened Invariants

  /** The event gives `(w, k)` a fresh lease on job `j`: its claim, or a heartbeat that matches. */
  predicate Renews(db: Db, e: Event, now: Time, j: JobId, w: WorkerId, k: nat) {
    match e
    case Consume(i, w', _) => i == j && w' == w && Claimable(db, j, now) && db.jobs[j].attempt + 1 == k
    case Heartbeat(i, k', w') => i == j && w' == w && k' == k && Fence(db, j, w, k)
    case _ => false
  }

  ghost predicate RenewsAt(run: Run, i: nat, j: JobId, w: WorkerId, k: nat)
    requires |run.states| == |run.log| + 1 && i < |run.log|
  {
    Renews(run.states[i].db, run.log[i].event, run.log[i].now, j, w, k)
  }

  lemma LeaseRow(cfg: Settings, db: Db, e: Event, now: Time, j: JobId, w: WorkerId, k: nat)
    requires j in db.jobs && FenceRow(RowAfter(cfg, db, e, now, j), w, k)
    ensures if Renews(db, e, now, j, w, k)
            then RowAfter(cfg, db, e, now, j).leaseExpires == Some(now + cfg.leaseDuration)
            else Fence(db, j, w, k) && RowAfter(cfg, db, e, now, j).leaseExpires == db.jobs[j].leaseExpires
  {
  }

  lemma LeaseStep(cfg: Settings, s: Sys, en: Entry, t: Sys, j: JobId, w: WorkerId, k: nat)
    requires Step(cfg, s, en, t) && Fence(t.db, j, w, k)
    ensures if Renews(s.db, en.event, en.now, j, w, k)
            then t.db.jobs[j].leaseExpires == Some(en.now + cfg.leaseDuration)
            else Fence(s.db, j, w, k) && t.db.jobs[j].leaseExpires == s.db.jobs[j].leaseExpires
  {
    if j !in s.db.jobs {
      NewJobsQueued(cfg, s, en, t, j);
    } else {
      Effect(cfg, s.db, en.event, en.now, j, Key(j, 0));
      LeaseRow(cfg, s.db, en.event, en.now, j, w, k);
    }
  }

  /** An owner's lease always runs from its last renewal, its claim being the first. */
  lemma {:induction false} LeaseRunsFromLastRenewal(cfg: Settings, run: Run, n: nat, j: JobId, w: WorkerId, k: nat)
    returns (r: nat)
    requires run.Valid(cfg) && n < |run.states| && Fence(run.states[n].db, j, w, k)
    ensures r < n && RenewsAt(run, r, j, w, k)
    ensures forall i :: r < i < n ==> !RenewsAt(run, i, j, w, k)
    ensures run.states[n].db.jobs[j].leaseExpires == Some(run.log[r].now + cfg.leaseDuration)
  {
    r := n - 1;
    assert Step(cfg, run.states[r], run.log[r], run.states[n]);
    LeaseStep(cfg, run.states[r], run.log[r], run.states[n], j, w, k);
    if !RenewsAt(run, r, j, w, k) {
      r := LeaseRunsFromLastRenewal(cfg, run, n - 1, j, w, k);
    }
  }

  /** A reclaim of an owned attempt takes effect if and only if more than a lease duration has passed
  since the owner's last renewal. */
  lemma ReclaimIffLapsed(cfg: Settings, run: Run, n: nat, j: JobId, w: WorkerId, k: nat) returns (r: nat)
    requires ValidSettings(cfg) && run.Valid(cfg) && n < |run.log| && run.log[n].event.Reclaim?
    requires run.log[n].event.job == j && Fence(run.states[n].db, j, w, k)
    ensures r < n && RenewsAt(run, r, j, w, k) && forall i :: r < i < n ==> !RenewsAt(run, i, j, w, k)
    ensures !Fence(run.states[n + 1].db, j, w, k) <==> run.log[n].now > run.log[r].now + cfg.leaseDuration
  {
    r := LeaseRunsFromLastRenewal(cfg, run, n, j, w, k);
    assert Step(cfg, run.states[n], run.log[n], run.states[n + 1]);
    Effect(cfg, run.states[n].db, run.log[n].event, run.log[n].now, j, Key(j, 0));
  }

  /** At every entry of the log up to `n`, the owner last renewed at most a lease duration before. */
  ghost predicate Punctual(cfg: Settings, run: Run, n: nat, j: JobId, w: WorkerId, k: nat)
    requires |run.states| == |run.log| + 1 && n <= |run.log|
  {
    forall i :: 0 <= i < n && Fence(run.states[i].db, j, w, k) ==> RecentlyRenewed(cfg, run, i, j, w, k)
  }

  ghost predicate RecentlyRenewed(cfg: Settings, run: Run, i: nat, j: JobId, w: WorkerId, k: nat)
    requires |run.states| == |run.log| + 1 && i < |run.log|
  {
    exists r :: 0 <= r < i && RenewsAt(run, r, j, w, k) && run.log[i].now <= run.log[r].now + cfg.leaseDuration
  }

  /** A live worker is never reclaimed: a punctual owner leaves its attempt only by finalising it
  itself or by a cancellation. */
  lemma PunctualOwnerNeverReclaimed(cfg: Settings, run: Run, n: nat, j: JobId, w: WorkerId, k: nat)
    requires ValidSettings(cfg) && run.Valid(cfg) && n < |run.log| && Punctual(cfg, run, n + 1, j, w, k)
    requires Fence(run.states[n].db, j, w, k) && !Fence(run.states[n + 1].db, j, w, k)
    ensures var e := run.log[n].event;
            || (e.CancelCommit? && e.job == j)
            || (e.Finalize? && e.job == j && e.attempt == k && e.worker == w)
  {
    var e := run.log[n].event;
    assert Step(cfg, run.states[n], run.log[n], run.states[n + 1]);
    Effect(cfg, run.states[n].db, e, run.log[n].now, j, Key(j, 0));
    if e.Reclaim? && e.job == j {
      var r := ReclaimIffLapsed(cfg, run, n, j, w, k);
      assert RecentlyRenewed(cfg, run, n, j, w, k);
      var r' :| 0 <= r' < n && RenewsAt(run, r', j, w, k) && run.log[n].now <= run.log[r'].now + cfg.leaseDuration;
      ClockMonotone(cfg, run, r', r);
    }
  }

  lemma {:induction false} ClockMonotone(cfg: Settings, run: Run, i: nat, k: nat)
    requires run.Valid(cfg) && i <= k < |run.log|
    ensures run.log[i].now <= run.log[k].now
  {
    if i < k {
      ClockMonotone(cfg, run, i, k - 1);
      assert Step(cfg, run.states[k - 1], run.log[k - 1], run.states[k]);
      assert Step(cfg, run.states[k], run.log[k], run.states[k + 1]);
    }
  }
}
