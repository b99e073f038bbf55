/** The recovery process: stale-lease reclamation and retry dispatch. */
module Recovery {
  import opened Types
  import opened Rules
  import opened Transactions
  import opened Protocol
  import opened Effects
  import opened Conservation
  import opened Repository

  ghost function StaleJobs(db: Db, now: Time): set<JobId> {
    set j | j in db.jobs && Stale(db, j, now)
  }

  ghost function DueJobs(db: Db, now: Time): set<JobId> {
    set j | j in db.jobs && db.jobs[j].status.Queued? && db.jobs[j].nextRetry.Some? && db.jobs[j].nextRetry.value <= now
  }

  /** When a reclaimed job may be retried: the backoff for the attempt after the lost one. */
  function RetryAt(b: Backoff, row: Job, now: Time, u: real): Time {
    b.NextRetryAt(row.attempt + 1, now, u)
  }

  /** The key is that of the attempt `done` jobs were running. */
  predicate Fenced(db: Db, done: set<JobId>, key: Key) {
    key.job in done && key.job in db.jobs && key.attempt == db.jobs[key.job].attempt
  }

  /** The row of job `i` once the jobs of `done` are reclaimed. */
  function RowOnce(cfg: Settings, b: Backoff, draw: JobId -> real, now: Time, db: Db, done: set<JobId>, i: JobId): Job
    requires i in db.jobs
  {
    if i in done then ReclaimedRow(cfg, db.jobs[i], RetryAt(b, db.jobs[i], now, draw(i))) else db.jobs[i]
  }

  /** `db'` is `db` with exactly the jobs of `done` reclaimed: each job row, each attempt row and each
  reservation told apart, with no mention of the order in which the jobs were taken. */
  ghost predicate ReclaimedExactly(cfg: Settings, b: Backoff, draw: JobId -> real, now: Time, db: Db, db': Db, done: set<JobId>) {
    && db'.jobs.Keys == db.jobs.Keys
    && (forall j | j in db.jobs :: db'.jobs[j] == RowOnce(cfg, b, draw, now, db, done, j))
    && (forall key :: Lookup(db'.attempts, key) ==
          if Fenced(db, done, key) then Some(LostRow(db, key, Owner(db, key.job), now)) else Lookup(db.attempts, key))
    && (forall key :: Lookup(db'.reservations, key) ==
          if Fenced(db, done, key) then Released(Lookup(db.reservations, key)) else Lookup(db.reservations, key))
    && db'.outbox == db.outbox && db'.dlq == db.dlq
  }

  function Owner(db: Db, j: JobId): WorkerId {
    if j in db.jobs && db.jobs[j].leaseOwner.Some? then db.jobs[j].leaseOwner.value else "unknown"
  }

  lemma ReclaimedJob(cfg: Settings, b: Backoff, draw: JobId -> real, now: Time, db: Db, mid: Db, done: set<JobId>, e: Event, j: JobId, i: JobId)
    requires ReclaimedExactly(cfg, b, draw, now, db, mid, done) && j !in done && j in db.jobs && Stale(db, j, now)
    requires e == Reclaim(j, RetryAt(b, db.jobs[j], now, draw(j)), Owner(db, j))
    ensures var db' := ReclaimTx(cfg, mid, j, now, e.retryAt, e.seenOwner);
            && (i in db'.jobs <==> i in db.jobs)
            && (i in db.jobs ==> db'.jobs[i] == RowOnce(cfg, b, draw, now, db, done + {j}, i))
  {
    ReclaimEffect(cfg, mid, e, now, i, Key(i, 0));
  }

  lemma ReclaimedKey(cfg: Settings, b: Backoff, draw: JobId -> real, now: Time, db: Db, mid: Db, done: set<JobId>, e: Event, j: JobId, key: Key)
    requires ReclaimedExactly(cfg, b, draw, now, db, mid, done) && j !in done && j in db.jobs && Stale(db, j, now)
    requires e == Reclaim(j, RetryAt(b, db.jobs[j], now, draw(j)), Owner(db, j))
    ensures var db' := ReclaimTx(cfg, mid, j, now, e.retryAt, e.seenOwner);
            && Lookup(db'.attempts, key) ==
                 (if Fenced(db, done + {j}, key) then Some(LostRow(db, key, Owner(db, key.job), now)) else Lookup(db.attempts, key))
            && Lookup(db'.reservations, key) ==
                 (if Fenced(db, done + {j}, key) then Released(Lookup(db.reservations, key)) else Lookup(db.reservations, key))
  {
    ReclaimEffect(cfg, mid, e, now, j, key);
    assert Lookup(mid.attempts, key) ==
      if Fenced(db, done, key) then Some(LostRow(db, key, Owner(db, key.job), now)) else Lookup(db.attempts, key);
  }

  lemma ReclaimOneMore(cfg: Settings, b: Backoff, draw: JobId -> real, now: Time, db: Db, mid: Db, done: set<JobId>, j: JobId)
    requires ReclaimedExactly(cfg, b, draw, now, db, mid, done) && j !in done && j in db.jobs && Stale(db, j, now)
    ensures ReclaimedExactly(cfg, b, draw, now, db,
              ReclaimTx(cfg, mid, j, now, RetryAt(b, db.jobs[j], now, draw(j)), Owner(db, j)), done + {j})
  {
    var e := Reclaim(j, RetryAt(b, db.jobs[j], now, draw(j)), Owner(db, j));
    var db' := ReclaimTx(cfg, mid, j, now, e.retryAt, e.seenOwner);
    forall i
      ensures i in db'.jobs <==> i in db.jobs
      ensures i in db.jobs ==> db'.jobs[i] == RowOnce(cfg, b, draw, now, db, done + {j}, i)
    {
      ReclaimedJob(cfg, b, draw, now, db, mid, done, e, j, i);
    }
    forall key
      ensures Lookup(db'.attempts, key) ==
        if Fenced(db, done + {j}, key) then Some(LostRow(db, key, Owner(db, key.job), now)) else Lookup(db.attempts, key)
      ensures Lookup(db'.reservations, key) ==
        if Fenced(db, done + {j}, key) then Released(Lookup(db.reservations, key)) else Lookup(db.reservations, key)
    {
      ReclaimedKey(cfg, b, draw, now, db, mid, done, e, j, key);
    }
    ReclaimEffect(cfg, mid, e, now, j, Key(j, 0));
  }

  /** One transaction of the pass: reclaim, mark LOST, release. */
  method ReclaimJob(db: Database, cfg: Settings, j: JobId, now: Time, retryAt: Time, seenOwner: WorkerId)
    returns (reclaimed: bool)
    modifies db
    ensures db.View() == ReclaimTx(cfg, old(db.View()), j, now, retryAt, seenOwner)
    ensures reclaimed <==> Stale(old(db.View()), j, now)
  {
    var lost := db.ReclaimStale(cfg, j, now, retryAt);
    reclaimed := lost.Some?;
    if reclaimed {
      db.MarkLost(Key(j, lost.value), seenOwner, now);
      db.ReleaseHeld(Key(j, lost.value));
    }
  }

  method ListStaleLeases(db: Database, now: Time) returns (ids: set<JobId>)
    ensures ids == StaleJobs(db.View(), now)
  {
    var jobs := db.jobs;
    ids := set j | j in jobs && jobs[j].status == Running && jobs[j].leaseExpires.Some?
                    && jobs[j].leaseExpires.value < now;
  }

  /** One turn of the reclaim loop, for a job row read when the pass began. */
  method ReclaimListed(db: Database, cfg: Settings, b: Backoff, draw: JobId -> real, now: Time, j: JobId, row: Job,
                       ghost before: Db, ghost done: set<JobId>)
    returns (reclaimed: bool)
    requires j in before.jobs && row == before.jobs[j] && Stale(before, j, now) && j !in done
    requires ReclaimedExactly(cfg, b, draw, now, before, db.View(), done)
    modifies db
    ensures ReclaimedExactly(cfg, b, draw, now, before, db.View(), done + {j})
    ensures reclaimed
    ensures old(Conserved(db.View())) ==> Conserved(db.View())
  {
    ghost var mid := db.View();
    var retryAt := RetryAt(b, row, now, draw(j));
    var owner := if row.leaseOwner.Some? then row.leaseOwner.value else "unknown";
    reclaimed := ReclaimJob(db, cfg, j, now, retryAt, owner);
    ReclaimOneMore(cfg, b, draw, now, before, mid, done, j);
    if Conserved(mid) {
      ReclaimConserves(cfg, mid, j, now, retryAt, owner);
    }
  }

  lemma NoStaleLeft(cfg: Settings, b: Backoff, draw: JobId -> real, now: Time, db: Db, db': Db)
    requires ReclaimedExactly(cfg, b, draw, now, db, db', StaleJobs(db, now))
    ensures StaleJobs(db', now) == {}
  {
  }

  /** The job's lease had lapsed. */
  predicate Lapsed(row: Job, now: Time) {
    row.status == Running && row.leaseExpires.Some? && row.leaseExpires.value < now
  }

  /** What became of job `j`, column by column. */
  lemma ReclaimedPlainly(cfg: Settings, b: Backoff, draw: JobId -> real, now: Time, db: Db, db': Db, j: JobId)
    requires ReclaimedExactly(cfg, b, draw, now, db, db', StaleJobs(db, now)) && j in db.jobs
    ensures j in db'.jobs && db'.jobs[j].attempt == db.jobs[j].attempt
    ensures !Lapsed(db.jobs[j], now) ==> db'.jobs[j] == db.jobs[j]
    ensures Lapsed(db.jobs[j], now) ==>
      var row, row', key := db.jobs[j], db'.jobs[j], Key(j, db.jobs[j].attempt);
      && row'.leaseOwner.None? && row'.leaseExpires.None? && row'.cancelRequested == row.cancelRequested
      && row'.status == (if row.cancelRequested then Cancelled else if row.attempt >= cfg.maxAttempts then Failed else Queued)
      && row'.nextRetry == (if row'.status == Queued then Some(b.NextRetryAt(row.attempt + 1, now, draw(j))) else None)
      && key in db'.attempts && db'.attempts[key].status == AttemptLost && db'.attempts[key].finishedAt == Some(now)
      && db'.attempts[key].worker == (if key in db.attempts then db.attempts[key].worker
                                      else if row.leaseOwner.Some? then row.leaseOwner.value else "unknown")
      && (key in db'.reservations ==> !db'.reservations[key].active)
  {
    var key := Key(j, db.jobs[j].attempt);
    assert Lookup(db'.attempts, key) ==
      if Fenced(db, StaleJobs(db, now), key) then Some(LostRow(db, key, Owner(db, key.job), now)) else Lookup(db.attempts, key);
    assert Lookup(db'.reservations, key) ==
      if Fenced(db, StaleJobs(db, now), key) then Released(Lookup(db.reservations, key)) else Lookup(db.reservations, key);
  }

  /** Rows of other jobs and other attempts stay. */
  lemma OthersStay(cfg: Settings, b: Backoff, draw: JobId -> real, now: Time, db: Db, db': Db, key: Key)
    requires ReclaimedExactly(cfg, b, draw, now, db, db', StaleJobs(db, now))
    requires !(key.job in db.jobs && Lapsed(db.jobs[key.job], now) && key.attempt == db.jobs[key.job].attempt)
    ensures Lookup(db'.attempts, key) == Lookup(db.attempts, key)
    ensures Lookup(db'.reservations, key) == Lookup(db.reservations, key)
  {
  }

  lemma AllReclaimedPlainly(cfg: Settings, b: Backoff, draw: JobId -> real, now: Time, db: Db, db': Db)
    requires ReclaimedExactly(cfg, b, draw, now, db, db', StaleJobs(db, now))
    ensures StaleJobs(db, now) == set j | j in db.jobs && Lapsed(db.jobs[j], now)
    ensures db'.jobs.Keys == db.jobs.Keys
    ensures forall j :: j in db.jobs && !Lapsed(db.jobs[j], now) ==> db'.jobs[j] == db.jobs[j]
    ensures forall j :: j in db.jobs && Lapsed(db.jobs[j], now) ==>
      var row := db.jobs[j];
      && db'.jobs[j].leaseOwner.None? && db'.jobs[j].leaseExpires.None? && db'.jobs[j].attempt == row.attempt
      && db'.jobs[j].status == (if row.cancelRequested then Cancelled else if row.attempt >= cfg.maxAttempts then Failed else Queued)
      && db'.jobs[j].nextRetry == (if db'.jobs[j].status == Queued then Some(b.NextRetryAt(row.attempt + 1, now, draw(j))) else None)
      && Key(j, row.attempt) in db'.attempts && db'.attempts[Key(j, row.attempt)].status == AttemptLost
      && (Key(j, row.attempt) in db'.reservations ==> !db'.reservations[Key(j, row.attempt)].active)
  {
    forall j | j in db.jobs {
      ReclaimedPlainly(cfg, b, draw, now, db, db', j);
    }
  }

  /** The loop over the jobs listed when the pass began. */
  method ReclaimEach(db: Database, cfg: Settings, b: Backoff, draw: JobId -> real, now: Time, snapshot: map<JobId, Job>,
                     all: set<JobId>) returns (reclaimed: nat)
    requires snapshot == db.jobs && all == StaleJobs(db.View(), now)
    modifies db
    ensures reclaimed == |all|
    ensures ReclaimedExactly(cfg, b, draw, now, old(db.View()), db.View(), all)
    ensures old(Conserved(db.View())) ==> Conserved(db.View())
  {
    reclaimed := 0;
    ghost var before := db.View();
    var todo := all;
    assert all - todo == {};
    while todo != {}
      invariant todo <= all && reclaimed == |all| - |todo|
      invariant ReclaimedExactly(cfg, b, draw, now, before, db.View(), all - todo)
      invariant Conserved(before) ==> Conserved(db.View())
      decreases todo
    {
      var j :| j in todo;
      var won := ReclaimListed(db, cfg, b, draw, now, j, snapshot[j], before, all - todo);
      assert all - todo + {j} == all - (todo - {j});
      todo := todo - {j};
      if won {
        reclaimed := reclaimed + 1;
      }
    }
    assert all - todo == all;
  }

  /** A pass without interference reclaims every stale job and touches nothing else. */
  method ReclaimStaleLeases(db: Database, cfg: Settings, b: Backoff, draw: JobId -> real, now: Time) returns (reclaimed: nat)
    modifies db
    ensures ReclaimedExactly(cfg, b, draw, now, old(db.View()), db.View(), StaleJobs(old(db.View()), now))
    ensures StaleJobs(db.View(), now) == {}
    // column by column
    ensures reclaimed == |set j | j in old(db.jobs) && Lapsed(old(db.jobs)[j], now)|
    ensures db.jobs.Keys == old(db.jobs).Keys
    ensures forall j :: j in old(db.jobs) && !Lapsed(old(db.jobs)[j], now) ==> db.jobs[j] == old(db.jobs)[j]
    ensures forall j :: j in old(db.jobs) && Lapsed(old(db.jobs)[j], now) ==>
      var row := old(db.jobs)[j];
      && db.jobs[j].leaseOwner.None? && db.jobs[j].leaseExpires.None? && db.jobs[j].attempt == row.attempt
      && db.jobs[j].status == (if row.cancelRequested then Cancelled else if row.attempt >= cfg.maxAttempts then Failed else Queued)
      && db.jobs[j].nextRetry == (if db.jobs[j].status == Queued then Some(b.NextRetryAt(row.attempt + 1, now, draw(j))) else None)
      && Key(j, row.attempt) in db.attempts && db.attempts[Key(j, row.attempt)].status == AttemptLost
      && (Key(j, row.attempt) in db.reservations ==> !db.reservations[Key(j, row.attempt)].active)
    ensures old(Conserved(db.View())) ==> Conserved(db.View())
  {
    ghost var before := db.View();
    var snapshot := db.jobs;
    var ids := ListStaleLeases(db, now);
    reclaimed := ReclaimEach(db, cfg, b, draw, now, snapshot, ids);
    NoStaleLeft(cfg, b, draw, now, before, db.View());
    AllReclaimedPlainly(cfg, b, draw, now, before, db.View());
  }

  // ----- retry dispatch ---------------------------------------------------------------------------

  ghost predicate Distinct(s: seq<JobId>) {
    forall a, b :: 0 <= a < b < |s| ==> s[a] != s[b]
  }

  function Events(order: seq<JobId>): seq<OutboxRow> {
    seq(|order|, i requires 0 <= i < |order| => OutboxRow(order[i], None))
  }

  /** `db'` is `db` with one new outbox row per job of `order`, in that order, and their backoff cleared. */
  ghost predicate DispatchedExactly(db: Db, db': Db, order: seq<JobId>) {
    && Distinct(order)
    && db'.outbox == db.outbox + Events(order)
    && db'.jobs.Keys == db.jobs.Keys
    && (forall j | j in db.jobs :: db'.jobs[j] == if j in order then db.jobs[j].(nextRetry := None) else db.jobs[j])
  }

  lemma DispatchOneMore(db: Db, mid: Db, order: seq<JobId>, j: JobId)
    requires DispatchedExactly(db, mid, order) && j in db.jobs && j !in order
    ensures DispatchedExactly(db, ClearRetryTx(InsertEventTx(mid, j), j), order + [j])
  {
    assert Events(order + [j]) == Events(order) + [OutboxRow(j, None)];
  }

  method ListRetryDue(db: Database, now: Time) returns (ids: set<JobId>)
    ensures ids == DueJobs(db.View(), now)
  {
    var jobs := db.jobs;
    ids := set j | j in jobs && jobs[j].status == Queued && jobs[j].nextRetry.Some? && jobs[j].nextRetry.value <= now;
  }

  /** A pass without interference emits one event per due job and makes no job due twice. */
  method DispatchDueRetries(db: Database, now: Time) returns (dispatched: nat, ghost order: seq<JobId>)
    modifies db`jobs, db`outbox
    ensures dispatched == |order|
    ensures DispatchedExactly(old(db.View()), db.View(), order)
    ensures forall j :: j in order <==> j in DueJobs(old(db.View()), now)
    ensures forall j :: j in order <==> j in old(db.jobs) && old(db.jobs)[j].status == Queued
                                        && old(db.jobs)[j].nextRetry.Some? && old(db.jobs)[j].nextRetry.value <= now
    ensures DueJobs(db.View(), now) == {}
  {
    dispatched, order := 0, [];
    ghost var before := db.View();
    var todo := ListRetryDue(db, now);
    ghost var all := todo;
    while todo != {}
      invariant dispatched == |order|
      invariant todo <= all && forall j :: j in order <==> j in all && j !in todo
      invariant DispatchedExactly(before, db.View(), order)
      decreases todo
    {
      var j :| j in todo;
      DispatchOneMore(before, db.View(), order, j);
      db.InsertEvent(j);
      db.ClearRetryDispatched(j);
      order, dispatched := order + [j], dispatched + 1;
      todo := todo - {j};
    }
  }
}
