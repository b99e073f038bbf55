/** No admitted job is stranded: while a reservation waits for its claim, a message that will make
the claim succeed is in the outbox or at the broker, unless a worker lost the last one. */
module Delivery {
  import opened Types
  import opened Transactions
  import opened Protocol
  import opened Effects
  import opened Invariants

  /** Admitted and waiting for a worker: QUEUED, no cancel requested, next attempt reserved. */
  predicate Waiting(db: Db, j: JobId) {
    && j in db.jobs
    && db.jobs[j].status.Queued?
    && !db.jobs[j].cancelRequested
    && HasActive(db, NextKey(db, j))
  }

  predicate UnsentRow(s: Sys, i: int, j: JobId) {
    0 <= i < |s.db.outbox| && i !in s.sent && s.db.outbox[i].job == j
  }

  ghost predicate Carried(s: Sys, j: JobId) {
    j in s.broker || exists i :: UnsentRow(s, i, j)
  }

  ghost predicate OutboxOk(s: Sys) {
    && (forall i :: 0 <= i < |s.db.outbox| && s.db.outbox[i].publishedAt.Some? ==> i in s.sent)
    && (forall i :: i in s.sent ==> i < |s.db.outbox|)
  }

  ghost predicate WaitingDue(s: Sys, j: JobId) {
    Waiting(s.db, j) ==> Due(s.db.jobs[j], s.clock)
  }

  ghost predicate Delivering(s: Sys) {
    OutboxOk(s) && forall j :: j in s.db.jobs ==> WaitingDue(s, j)
  }

  /** The event makes a worker lose the only message left for `j`. */
  ghost predicate LosesLast(s: Sys, e: Event, j: JobId) {
    e.Lose? && e.job == j && s.broker[j] == 1 && !exists i :: UnsentRow(s, i, j)
  }

  /** Only an admission makes a job wait. */
  lemma WaitingBegins(cfg: Settings, s: Sys, en: Entry, t: Sys, j: JobId)
    requires Inv(cfg, s) && Step(cfg, s, en, t) && Waiting(t.db, j) && !Waiting(s.db, j)
    ensures en.event.AdmitCommit? && en.event.job == j && Admits(cfg, s.db, j, en.event.read)
    ensures s.db.jobs[j].attempt == en.event.read && s.db.jobs[j].status.Queued?
  {
    var e, key := en.event, NextKey(t.db, j);
    assert e.Create? ==> key in s.db.reservations && e.job != j;
    Effect(cfg, s.db, e, en.now, j, key);
    AttemptsMatch(cfg, s, en, t, j);
    assert key in s.db.reservations ==> ReservationPlaced(s.db.jobs[j], key.attempt, s.db.reservations[key]);
    AdmitNeedsFreshAttempt(cfg, s, e.job, e.read);
  }

  lemma QueuedRow(cfg: Settings, db: Db, e: Event, now: Time, j: JobId)
    requires j in db.jobs && RowAfter(cfg, db, e, now, j).status.Queued?
    ensures var row, row' := db.jobs[j], RowAfter(cfg, db, e, now, j);
            && row'.attempt == row.attempt && row'.cancelRequested == row.cancelRequested
            && (row.status.Queued? || row.status.Running?)
            && (row.status.Queued? ==> row'.nextRetry == row.nextRetry || row'.nextRetry.None?)
  {
  }

  lemma AttemptsMatch(cfg: Settings, s: Sys, en: Entry, t: Sys, j: JobId)
    requires Step(cfg, s, en, t) && j in s.db.jobs && j in t.db.jobs && t.db.jobs[j].status.Queued?
    requires !(en.event.Create? && en.event.job == j)
    ensures t.db.jobs[j].attempt == s.db.jobs[j].attempt
    ensures s.db.jobs[j].status.Queued? || s.db.jobs[j].status.Running?
    ensures s.db.jobs[j].cancelRequested == t.db.jobs[j].cancelRequested
    ensures s.db.jobs[j].status.Queued? ==>
              t.db.jobs[j].nextRetry == s.db.jobs[j].nextRetry || t.db.jobs[j].nextRetry.None?
  {
    Effect(cfg, s.db, en.event, en.now, j, Key(j, 0));
    QueuedRow(cfg, s.db, en.event, en.now, j);
  }

  /** An unsent row stays so until it is sent, and sending it puts its message at the broker. */
  lemma UnsentKept(cfg: Settings, s: Sys, en: Entry, t: Sys, i: int, j: JobId)
    requires Step(cfg, s, en, t) && UnsentRow(s, i, j)
    ensures if en.event == RelaySend(i) then j in t.broker else UnsentRow(t, i, j)
  {
    Effect(cfg, s.db, en.event, en.now, if en.event.Create? then en.event.job + 1 else 0, Key(0, 0));
  }

  /** A job that goes on waiting had none of its messages taken by a claim. */
  lemma BrokerKept(cfg: Settings, s: Sys, en: Entry, t: Sys, j: JobId)
    requires Step(cfg, s, en, t) && Waiting(s.db, j) && WaitingDue(s, j) && Waiting(t.db, j)
    ensures t.broker[j] >= if en.event.Lose? && en.event.job == j then s.broker[j] - 1 else s.broker[j]
  {
    var e := en.event;
    if e.Consume? && e.job == j {
      assert Claimable(s.db, j, en.now);
      Effect(cfg, s.db, e, en.now, j, Key(j, 0));
      assert false;
    }
  }

  /** While a job waits, duplicates and acknowledgements do not cost it its message: exactly the loss
  of the last one does. */
  lemma CarriedIff(cfg: Settings, s: Sys, en: Entry, t: Sys, j: JobId)
    requires Step(cfg, s, en, t) && Delivering(s) && Waiting(s.db, j) && Waiting(t.db, j) && Carried(s, j)
    ensures Carried(t, j) <==> !LosesLast(s, en.event, j)
  {
    var e := en.event;
    assert WaitingDue(s, j);
    BrokerKept(cfg, s, en, t, j);
    if i :| UnsentRow(s, i, j) {
      UnsentKept(cfg, s, en, t, i, j);
    } else if LosesLast(s, e, j) {
      assert forall i :: UnsentRow(t, i, j) ==> UnsentRow(s, i, j);
    }
  }

  lemma OutboxStep(cfg: Settings, s: Sys, en: Entry, t: Sys)
    requires Step(cfg, s, en, t) && OutboxOk(s)
    ensures OutboxOk(t)
  {
    Effect(cfg, s.db, en.event, en.now, if en.event.Create? then en.event.job + 1 else 0, Key(0, 0));
  }

  lemma DueStep(cfg: Settings, s: Sys, en: Entry, t: Sys, j: JobId)
    requires Inv(cfg, s) && Step(cfg, s, en, t) && Delivering(s)
    ensures WaitingDue(t, j)
  {
    if Waiting(t.db, j) {
      if Waiting(s.db, j) {
        assert WaitingDue(s, j);
        if !(en.event.Create? && en.event.job == j) {
          AttemptsMatch(cfg, s, en, t, j);
        }
      } else {
        WaitingBegins(cfg, s, en, t, j);
        assert Key(j, en.event.read) in s.admitReads;
        assert t.db.jobs == s.db.jobs;
      }
    }
  }

  lemma {:induction false} DeliveringAlways(cfg: Settings, run: Run, i: nat)
    requires ValidSettings(cfg) && run.Valid(cfg) && i < |run.states|
    ensures Delivering(run.states[i])
  {
    if i > 0 {
      var s, en, t := run.states[i - 1], run.log[i - 1], run.states[i];
      DeliveringAlways(cfg, run, i - 1);
      InvAlways(cfg, run, i - 1);
      assert Step(cfg, s, en, t);
      OutboxStep(cfg, s, en, t);
      forall j | j in t.db.jobs ensures WaitingDue(t, j) {
        DueStep(cfg, s, en, t, j);
      }
    }
  }

  /** No worker ever lost the only message left for `j`. */
  ghost predicate NeverLost(run: Run, i: nat, j: JobId)
    requires |run.states| == |run.log| + 1 && i <= |run.log|
  {
    forall n :: 0 <= n < i ==> !LosesLast(run.states[n], run.log[n].event, j)
  }

  lemma CarriedStep(cfg: Settings, s: Sys, en: Entry, t: Sys, j: JobId)
    requires Inv(cfg, s) && Step(cfg, s, en, t) && Delivering(s) && !LosesLast(s, en.event, j)
    requires Waiting(s.db, j) ==> Carried(s, j)
    ensures Waiting(t.db, j) ==> Carried(t, j)
  {
    if Waiting(t.db, j) {
      if Waiting(s.db, j) {
        CarriedIff(cfg, s, en, t, j);
      } else {
        WaitingBegins(cfg, s, en, t, j);
        assert UnsentRow(t, |s.db.outbox|, j);
      }
    }
  }

  lemma {:induction false} CarriedAlways(cfg: Settings, run: Run, i: nat, j: JobId)
    requires ValidSettings(cfg) && run.Valid(cfg) && i < |run.states| && NeverLost(run, i, j)
    ensures Waiting(run.states[i].db, j) ==> Carried(run.states[i], j)
  {
    if i > 0 {
      CarriedAlways(cfg, run, i - 1, j);
      DeliveringAlways(cfg, run, i - 1);
      InvAlways(cfg, run, i - 1);
      assert Step(cfg, run.states[i - 1], run.log[i - 1], run.states[i]);
      CarriedStep(cfg, run.states[i - 1], run.log[i - 1], run.states[i], j);
    }
  }

  /** Whenever a job waits whose last message no worker lost, a row for it is still unpublished or a
  message for it is at the broker. */
  lemma NoStrandedAdmission(cfg: Settings, run: Run, i: nat, j: JobId)
    requires ValidSettings(cfg) && run.Valid(cfg) && i < |run.states| && NeverLost(run, i, j)
    requires Waiting(run.states[i].db, j)
    ensures var s := run.states[i];
            || j in s.broker
            || exists r :: 0 <= r < |s.db.outbox| && s.db.outbox[r].job == j && s.db.outbox[r].publishedAt.None?
  {
    var s := run.states[i];
    CarriedAlways(cfg, run, i, j);
    DeliveringAlways(cfg, run, i);
    if j !in s.broker {
      var r :| UnsentRow(s, r, j);
      assert s.db.outbox[r].job == j && s.db.outbox[r].publishedAt.None?;
    }
  }

  /** And consuming a message for a waiting job, now or later in this state, claims its next attempt. */
  lemma ConsumingClaims(cfg: Settings, run: Run, i: nat, j: JobId, w: WorkerId, acked: bool, now: Time)
    requires ValidSettings(cfg) && run.Valid(cfg) && i < |run.states|
    requires Waiting(run.states[i].db, j) && run.states[i].clock <= now
    ensures var s := run.states[i]; var t := Apply(cfg, s, Consume(j, w, acked), now);
            Fence(t.db, j, w, s.db.jobs[j].attempt + 1) && Runner(j, s.db.jobs[j].attempt + 1, w, false) in t.runners
  {
    DeliveringAlways(cfg, run, i);
    assert WaitingDue(run.states[i], j);
    assert Claimable(run.states[i].db, j, now);
  }
}
