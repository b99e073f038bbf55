/** Concrete runs: the states the theorems warn of are reachable.  They concern job 0, worker "w" and a
request of one CPU and one megabyte. */
module Scenarios {
  import opened Types
  import opened Transactions
  import opened Protocol
  import opened Effects
  import opened Delivery
  import opened Cancellation

  const SMALL := Overrides(Some(1), Some(1), Some(0))
  const UNIT := Resources(1, 1, 0)

  predicate Roomy(s: Sys) {
    UNIT.Within(s.db.capacity.total)
  }

  ghost predicate Unattempted(db: Db, k: nat) {
    forall i :: i > k ==> Key(0, i) !in db.reservations && Key(0, i) !in db.attempts
  }

  /** The job is QUEUED after `k` attempts and free to be admitted at `now`. */
  ghost predicate Idle(s: Sys, k: nat, now: Time) {
    s.clock <= now && IdleDb(s.db, k, now)
  }

  predicate QueuedAt(db: Db, k: nat, now: Time) {
    && 0 in db.jobs
    && var row := db.jobs[0];
       row.status.Queued? && row.attempt == k && !row.cancelRequested && Due(row, now) && row.overrides == SMALL
  }

  ghost predicate IdleDb(db: Db, k: nat, now: Time) {
    UNIT.Within(db.capacity.total) && db.capacity.inUse == NOTHING && Unattempted(db, k) && QueuedAt(db, k, now)
  }

  /** The same job with its next attempt reserved and its message unsent. */
  ghost predicate Admitted(s: Sys, k: nat, now: Time) {
    s.clock <= now && AdmittedDb(s.db, k, now)
  }

  ghost predicate AdmittedDb(db: Db, k: nat, now: Time) {
    && UNIT.Within(db.capacity.total) && db.capacity.inUse == UNIT && Unattempted(db, k + 1) && QueuedAt(db, k, now)
    && Key(0, k + 1) !in db.attempts
    && Key(0, k + 1) in db.reservations && db.reservations[Key(0, k + 1)] == Reservation(UNIT, true)
    && db.outbox != [] && db.outbox[|db.outbox| - 1].job == 0
  }

  /** Worker "w" is inside attempt `k`, claimed at `now`. */
  ghost predicate Working(cfg: Settings, s: Sys, k: nat, now: Time) {
    && s.clock == now && Roomy(s) && s.db.capacity.inUse == UNIT && Unattempted(s.db, k)
    && Fence(s.db, 0, "w", k) && Runner(0, k, "w", true) in s.runners
    && !s.db.jobs[0].cancelRequested && s.db.jobs[0].overrides == SMALL
    && s.db.jobs[0].leaseExpires == Some(now + cfg.leaseDuration)
    && Key(0, k) in s.db.attempts && s.db.attempts[Key(0, k)].status.AttemptRunning?
    && Key(0, k) in s.db.reservations && s.db.reservations[Key(0, k)] == Reservation(UNIT, true)
    && 0 !in s.db.dlq
  }

  /** The state the run ends in. */
  function Last(run: Run): Sys
    requires run.states != []
  {
    run.states[|run.states| - 1]
  }

  /** `longer` goes on from where `run` ends, without finalising anything. */
  ghost predicate GoesOn(run: Run, longer: Run) {
    && run.states <= longer.states && run.log <= longer.log
    && forall i :: |run.log| <= i < |longer.log| ==> !longer.log[i].event.Finalize?
  }

  lemma ExtendedQuietly(cfg: Settings, start: Run, run: Run, e: Event, now: Time) returns (longer: Run)
    requires run.Valid(cfg) && start.Valid(cfg) && GoesOn(start, run) && Last(run).clock <= now && Enabled(cfg, Last(run), e, now)
    requires !e.Finalize?
    ensures longer.Valid(cfg) && GoesOn(start, longer) && Last(longer) == Apply(cfg, Last(run), e, now)
    ensures longer.states[0] == run.states[0] && |longer.log| == |run.log| + 1
  {
    longer := Extended(cfg, run, e, now);
  }

  // ----- one state to the next ----------------------------------------------------------------------------

  lemma AfterRead(cfg: Settings, s: Sys, k: nat, now: Time)
    requires Idle(s, k, now)
    ensures Enabled(cfg, s, AdmitRead(0), now)
    ensures var t := Apply(cfg, s, AdmitRead(0), now);
            Idle(t, k, now) && Key(0, k) in t.admitReads && t.db == s.db && t.sent == s.sent && t.broker == s.broker
  {
  }

  lemma UnitRequest(cfg: Settings, row: Job)
    requires row.overrides == SMALL
    ensures Request(cfg, row) == UNIT
  {
  }

  lemma CommitGoesThrough(cfg: Settings, db: Db, k: nat, now: Time)
    requires IdleDb(db, k, now)
    ensures AdmitTx(cfg, db, 0, k) ==
      db.(capacity := db.capacity.(inUse := UNIT), reservations := db.reservations[Key(0, k + 1) := Reservation(UNIT, true)],
          outbox := db.outbox + [OutboxRow(0, None)])
  {
    UnitRequest(cfg, db.jobs[0]);
    assert Key(0, k + 1) !in db.reservations;
  }

  lemma CommitAdmits(db: Db, k: nat, now: Time)
    requires IdleDb(db, k, now)
    ensures AdmittedDb(db.(capacity := db.capacity.(inUse := UNIT),
                           reservations := db.reservations[Key(0, k + 1) := Reservation(UNIT, true)],
                           outbox := db.outbox + [OutboxRow(0, None)]), k, now)
  {
  }

  lemma AfterCommit(cfg: Settings, s: Sys, k: nat, now: Time)
    requires Idle(s, k, now) && Key(0, k) in s.admitReads
    ensures Enabled(cfg, s, AdmitCommit(0, k), now)
    ensures var t := Apply(cfg, s, AdmitCommit(0, k), now);
            Admitted(t, k, now) && t.db.outbox == s.db.outbox + [OutboxRow(0, None)] && t.db.dlq == s.db.dlq
            && t.sent == s.sent && t.broker == s.broker
  {
    CommitGoesThrough(cfg, s.db, k, now);
    CommitAdmits(s.db, k, now);
  }

  lemma AfterSend(cfg: Settings, s: Sys, k: nat, now: Time)
    requires Admitted(s, k, now)
    ensures var e := RelaySend(|s.db.outbox| - 1); var t := Apply(cfg, s, e, now);
            && Enabled(cfg, s, e, now) && Admitted(t, k, now) && 0 in t.broker && t.db == s.db
            && |s.db.outbox| - 1 in t.sent && t.broker == s.broker + multiset{0}
  {
  }

  lemma AfterConsume(cfg: Settings, s: Sys, k: nat, now: Time)
    requires Admitted(s, k, now) && 0 in s.broker
    ensures Enabled(cfg, s, Consume(0, "w", true), now)
    ensures var t := Apply(cfg, s, Consume(0, "w", true), now);
            && t.clock == now && Fence(t.db, 0, "w", k + 1) && Runner(0, k + 1, "w", false) in t.runners
            && t.db.jobs[0] == ClaimedRow(cfg, s.db.jobs[0], "w", now)
            && t.db == s.db.(jobs := t.db.jobs)
  {
    assert Claimable(s.db, 0, now);
  }

  lemma AfterStart(cfg: Settings, s: Sys, k: nat, now: Time)
    requires s.clock == now && Fence(s.db, 0, "w", k) && Runner(0, k, "w", false) in s.runners && Key(0, k) !in s.db.attempts
    ensures var e := StartAttempt(0, k, "w"); var t := Apply(cfg, s, e, now);
            && Enabled(cfg, s, e, now) && t.clock == now && Runner(0, k, "w", true) in t.runners
            && t.db == s.db.(attempts := s.db.attempts[Key(0, k) := Attempt("w", AttemptRunning, now, None, None)])
  {
  }

  // ----- runs ---------------------------------------------------------------------------------------------

  lemma Created(cfg: Settings, s: Sys) returns (run: Run)
    requires Init(s) && Roomy(s)
    ensures run.Valid(cfg) && run.states[0] == s && |run.log| == 1
    ensures Idle(Last(run), 0, s.clock) && Last(run).db.dlq == map[] && Last(run).clock == s.clock
    ensures Last(run).sent == {} && Last(run).broker == multiset{} && Last(run).db.outbox == []
    ensures run.log[0] == Entry(Create(0, 50, SMALL), s.clock)
  {
    run := Run([s], []);
    run := Extended(cfg, run, Create(0, 50, SMALL), s.clock);
  }

  lemma Admission(cfg: Settings, run: Run, k: nat, now: Time) returns (longer: Run)
    requires run.Valid(cfg) && Idle(Last(run), k, now)
    ensures longer.Valid(cfg) && GoesOn(run, longer) && Admitted(Last(longer), k, now) && |longer.log| == |run.log| + 2
    ensures Last(longer).db.dlq == Last(run).db.dlq && Last(longer).db.outbox == Last(run).db.outbox + [OutboxRow(0, None)]
    ensures Last(longer).sent == Last(run).sent && Last(longer).broker == Last(run).broker
  {
    AfterRead(cfg, Last(run), k, now);
    longer := ExtendedQuietly(cfg, run, run, AdmitRead(0), now);
    AfterCommit(cfg, Last(longer), k, now);
    longer := ExtendedQuietly(cfg, run, longer, AdmitCommit(0, k), now);
  }

  lemma Delivered(cfg: Settings, start: Run, run: Run, k: nat, now: Time) returns (longer: Run)
    requires run.Valid(cfg) && start.Valid(cfg) && GoesOn(start, run) && Admitted(Last(run), k, now)
    ensures longer.Valid(cfg) && GoesOn(start, longer) && Admitted(Last(longer), k, now) && 0 in Last(longer).broker
    ensures Last(longer).db == Last(run).db && |longer.log| == |run.log| + 1
  {
    AfterSend(cfg, Last(run), k, now);
    longer := ExtendedQuietly(cfg, start, run, RelaySend(|Last(run).db.outbox| - 1), now);
  }

  lemma Claimed(cfg: Settings, start: Run, run: Run, k: nat, now: Time) returns (longer: Run)
    requires run.Valid(cfg) && start.Valid(cfg) && GoesOn(start, run) && Admitted(Last(run), k, now) && 0 in Last(run).broker
    requires 0 !in Last(run).db.dlq
    ensures longer.Valid(cfg) && GoesOn(start, longer) && Working(cfg, Last(longer), k + 1, now)
    ensures |longer.log| == |run.log| + 2
  {
    AfterConsume(cfg, Last(run), k, now);
    longer := ExtendedQuietly(cfg, start, run, Consume(0, "w", true), now);
    AfterStart(cfg, Last(longer), k + 1, now);
    longer := ExtendedQuietly(cfg, start, longer, StartAttempt(0, k + 1, "w"), now);
  }

  /** From an idle job to its next attempt under way. */
  lemma TakenUp(cfg: Settings, run: Run, k: nat, now: Time) returns (longer: Run)
    requires run.Valid(cfg) && Idle(Last(run), k, now) && 0 !in Last(run).db.dlq
    ensures longer.Valid(cfg) && GoesOn(run, longer) && Working(cfg, Last(longer), k + 1, now)
    ensures |longer.log| == |run.log| + 5
  {
    longer := Admission(cfg, run, k, now);
    longer := Delivered(cfg, run, longer, k, now);
    longer := Claimed(cfg, run, longer, k, now);
  }

  /** The lease of attempt `k` runs out at this time. */
  function Lapse(cfg: Settings, now: Time): Time {
    now + cfg.leaseDuration + 1.0
  }

  lemma ReclaimGoesThrough(cfg: Settings, s: Sys, k: nat, now: Time)
    requires Working(cfg, s, k, now)
    ensures var at := Lapse(cfg, now); var db := s.db; var db' := ReclaimTx(cfg, db, 0, at, at, "w");
            && db'.jobs == db.jobs[0 := ReclaimedRow(cfg, db.jobs[0], at)]
            && db'.attempts == db.attempts[Key(0, k) := LostRow(db, Key(0, k), "w", at)]
            && db'.reservations == db.reservations[Key(0, k) := Reservation(UNIT, false)]
            && db'.capacity == db.capacity.(inUse := NOTHING) && db'.dlq == db.dlq
  {
    assert Stale(s.db, 0, Lapse(cfg, now));
  }

  /** Recovery takes an attempt back that was not the last one allowed. */
  lemma Reclaimed(cfg: Settings, start: Run, run: Run, k: nat, now: Time) returns (longer: Run)
    requires ValidSettings(cfg) && run.Valid(cfg) && start.Valid(cfg) && GoesOn(start, run)
    requires Working(cfg, Last(run), k, now) && k < cfg.maxAttempts
    ensures longer.Valid(cfg) && GoesOn(start, longer) && Idle(Last(longer), k, Lapse(cfg, now)) && 0 !in Last(longer).db.dlq
    ensures |longer.log| == |run.log| + 1
  {
    ReclaimGoesThrough(cfg, Last(run), k, now);
    assert Unattempted(Last(run).db, k);
    longer := ExtendedQuietly(cfg, start, run, Reclaim(0, Lapse(cfg, now), "w"), Lapse(cfg, now));
  }

  // ----- what recovery fails has no dead-letter entry ------------------------------------------------------

  /** With one attempt allowed: the worker dies inside it, its lease lapses and recovery fails the job. */
  lemma RecoveryFailsWithoutDeadLetter(cfg: Settings, s: Sys) returns (run: Run)
    requires ValidSettings(cfg) && cfg.maxAttempts == 1 && Init(s) && Roomy(s)
    ensures run.Valid(cfg) && run.states[0] == s && |run.log| == 7
    ensures 0 in Last(run).db.jobs && Last(run).db.jobs[0].status.Failed? && 0 !in Last(run).db.dlq
  {
    run := Created(cfg, s);
    run := TakenUp(cfg, run, 0, s.clock);
    ReclaimGoesThrough(cfg, Last(run), 1, s.clock);
    run := ExtendedQuietly(cfg, run, run, Reclaim(0, Lapse(cfg, s.clock), "w"), Lapse(cfg, s.clock));
  }

  // ----- a requested cancel that strands its job -------------------------------------------------------------

  lemma Requested(cfg: Settings, run: Run, k: nat, now: Time) returns (longer: Run)
    requires run.Valid(cfg) && Working(cfg, Last(run), k, now)
    ensures longer.Valid(cfg) && Last(longer).clock == now && Fence(Last(longer).db, 0, "w", k) && Flagged(Last(longer).db, 0)
    ensures Runner(0, k, "w", true) in Last(longer).runners && |longer.log| == |run.log| + 1
    ensures longer.states[0] == run.states[0] && longer.log[|run.log|].event == RequestCancel(0)
  {
    longer := Extended(cfg, run, RequestCancel(0), now);
  }

  /** The worker re-reads the flag, the cancel is requested, the worker finalises a transient failure on
  what it read: the job is QUEUED again, and with its flag set it can never be claimed. */
  lemma RequestedCancelStrands(cfg: Settings, s: Sys) returns (run: Run)
    requires ValidSettings(cfg) && cfg.maxAttempts > 1 && Init(s) && Roomy(s)
    ensures run.Valid(cfg) && run.states[0] == s && |run.log| == 8 && run.log[6].event == RequestCancel(0)
    ensures Flagged(Last(run).db, 0) && Last(run).db.jobs[0].status.Queued?
  {
    run := Created(cfg, s);
    run := TakenUp(cfg, run, 0, s.clock);
    run := Requested(cfg, run, 1, s.clock);
    var e := Finalize(0, 1, "w", Failure(Transient), s.clock);
    FinalizeEffect(cfg, Last(run).db, e, s.clock, 0, Key(0, 1));
    run := Extended(cfg, run, e, s.clock);
  }

  // ----- the lost message happens ---------------------------------------------------------------------------

  lemma Published(cfg: Settings, run: Run, now: Time) returns (longer: Run)
    requires run.Valid(cfg) && Admitted(Last(run), 0, now)
    requires Last(run).db.outbox == [OutboxRow(0, None)] && Last(run).broker == multiset{}
    ensures longer.Valid(cfg) && |longer.log| == |run.log| + 2 && longer.states[0] == run.states[0]
    ensures Admitted(Last(longer), 0, now) && Last(longer).broker == multiset{0}
    ensures Last(longer).db.outbox == [OutboxRow(0, Some(now))]
  {
    AfterSend(cfg, Last(run), 0, now);
    longer := Extended(cfg, run, RelaySend(0), now);
    longer := Extended(cfg, longer, RelayMark(0), now);
  }

  /** A worker's database error before the claim costs an admitted job its only message: its row is
  published, no message is left, and its reservation stays. */
  lemma LostMessageStrands(cfg: Settings, s: Sys) returns (run: Run)
    requires Init(s) && Roomy(s)
    ensures run.Valid(cfg) && run.states[0] == s && |run.log| == 6 && run.log[5].event == Lose(0)
    ensures Waiting(Last(run).db, 0) && 0 !in Last(run).broker
    ensures forall r :: 0 <= r < |Last(run).db.outbox| ==> Last(run).db.outbox[r].publishedAt.Some?
  {
    run := Created(cfg, s);
    run := Admission(cfg, run, 0, s.clock);
    run := Published(cfg, run, s.clock);
    run := Extended(cfg, run, Lose(0), s.clock);
  }
}
