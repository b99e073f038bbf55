/** Leaked capacity: ACTIVE reservations no job will ever release. */
module Leaks {
  import opened Types
  import opened Rules
  import opened Transactions
  import opened Protocol
  import opened Effects
  import opened Invariants
  import opened Conservation
  import opened Lifecycle

  /** The reservation is in the hands of the attempt running, or of the next one of a queued job. */
  predicate Owned(db: Db, key: Key) {
    && key.job in db.jobs
    && var row := db.jobs[key.job];
       (row.status.Running? && key.attempt == row.attempt) || (row.status.Queued? && key.attempt == row.attempt + 1)
  }

  ghost predicate LeakFree(db: Db) {
    forall key :: HasActive(db, key) ==> Owned(db, key)
  }

  /** The reservation a job that is queued or running may hold. */
  function HeldKey(db: Db, j: JobId): Key
    requires j in db.jobs
  {
    if db.jobs[j].status.Running? then Key(j, db.jobs[j].attempt) else NextKey(db, j)
  }

  /** The admission finds the job still QUEUED; the cancel releases what the job then holds. */
  predicate Timely(cfg: Settings, db: Db, e: Event) {
    match e
    case AdmitCommit(j, a) => Admits(cfg, db, j, a) ==> db.jobs[j].status.Queued?
    case CancelCommit(j, a) =>
      Cancellable(db, j) ==> HeldKey(db, j) == Key(j, a + 1) || !HasActive(db, HeldKey(db, j))
    case _ => true
  }

  lemma OwnedKept(cfg: Settings, db: Db, e: Event, now: Time, key: Key)
    requires Owned(db, key) && Timely(cfg, db, e)
    requires HasActive(db, key) && ReservationAfter(cfg, db, e, now, key) == Some(db.reservations[key])
    ensures var row' := RowAfter(cfg, db, e, now, key.job);
            (row'.status.Running? && key.attempt == row'.attempt) || (row'.status.Queued? && key.attempt == row'.attempt + 1)
  {
    CancelSources();
  }

  lemma ActiveStep(cfg: Settings, s: Sys, en: Entry, t: Sys, key: Key)
    requires Inv(cfg, s) && Step(cfg, s, en, t) && LeakFree(s.db) && Timely(cfg, s.db, en.event)
    requires HasActive(t.db, key)
    ensures Owned(t.db, key)
  {
    var e := en.event;
    assert e.Create? ==> HasActive(s.db, key) && key.job != e.job;
    Effect(cfg, s.db, e, en.now, key.job, key);
    if HasActive(s.db, key) {
      OwnedKept(cfg, s.db, e, en.now, key);
    } else {
      AdmitNeedsFreshAttempt(cfg, s, e.job, e.read);
    }
  }

  lemma UntimelyLeaks(cfg: Settings, s: Sys, en: Entry, t: Sys)
    requires Inv(cfg, s) && Step(cfg, s, en, t) && !Timely(cfg, s.db, en.event)
    ensures !LeakFree(t.db)
  {
    var e := en.event;
    match e
    case AdmitCommit(j, a) =>
      Effect(cfg, s.db, e, en.now, j, Key(j, a + 1));
      AdmitNeedsFreshAttempt(cfg, s, j, a);
      assert HasActive(t.db, Key(j, a + 1)) && !Owned(t.db, Key(j, a + 1));
    case CancelCommit(j, a) =>
      CancelSources();
      Effect(cfg, s.db, e, en.now, j, HeldKey(s.db, j));
      assert HasActive(t.db, HeldKey(s.db, j)) && !Owned(t.db, HeldKey(s.db, j));
  }

  /** The exact condition, step by step: from a leak-free state the next one is leak-free if and
  only if the event is timely.  Claims, heartbeats, finalisations, reclaims and the rest always are. */
  lemma LeakFreeIff(cfg: Settings, s: Sys, en: Entry, t: Sys)
    requires Inv(cfg, s) && Step(cfg, s, en, t) && LeakFree(s.db)
    ensures LeakFree(t.db) <==> Timely(cfg, s.db, en.event)
  {
    if Timely(cfg, s.db, en.event) {
      forall key | HasActive(t.db, key) ensures Owned(t.db, key) {
        ActiveStep(cfg, s, en, t, key);
      }
    } else {
      UntimelyLeaks(cfg, s, en, t);
    }
  }

  lemma {:induction false} LeakFreeAlways(cfg: Settings, run: Run, i: nat)
    requires ValidSettings(cfg) && run.Valid(cfg) && i < |run.states|
    requires forall n | 0 <= n < i :: Timely(cfg, run.states[n].db, run.log[n].event)
    ensures LeakFree(run.states[i].db)
  {
    if i > 0 {
      LeakFreeAlways(cfg, run, i - 1);
      InvAlways(cfg, run, i - 1);
      assert Step(cfg, run.states[i - 1], run.log[i - 1], run.states[i]);
      LeakFreeIff(cfg, run.states[i - 1], run.log[i - 1], run.states[i]);
    }
  }

  lemma {:induction false} NoneActive(m: map<Key, Reservation>)
    requires forall k :: k in m ==> !m[k].active
    ensures SumActive(m) == NOTHING
    decreases m.Keys
  {
    if m != map[] {
      var k := Pick(m);
      assert Held(m[k]) == NOTHING;
      NoneActive(m - {k});
    }
  }

  /** When every job of a timely run is terminal, nothing is allocated any more. */
  lemma DrainedWhenTerminal(cfg: Settings, run: Run, i: nat)
    requires ValidSettings(cfg) && run.Valid(cfg) && i < |run.states|
    requires forall n | 0 <= n < i :: Timely(cfg, run.states[n].db, run.log[n].event)
    requires forall j :: j in run.states[i].db.jobs ==> Terminal(run.states[i].db.jobs[j].status)
    ensures run.states[i].db.capacity.inUse == NOTHING
  {
    var db := run.states[i].db;
    LeakFreeAlways(cfg, run, i);
    ConservedAlways(cfg, run, i);
    forall k | k in db.reservations ensures !db.reservations[k].active {
      assert HasActive(db, k) ==> Owned(db, k);
    }
    NoneActive(db.reservations);
  }

  // ----- atomic admissions and cancels -----------------------------------------------------------

  /** An admission or cancel commits right after the reading it rests on. */
  ghost predicate Atomic(run: Run, n: nat)
    requires |run.states| == |run.log| + 1 && n < |run.log|
  {
    match run.log[n].event
    case AdmitCommit(j, a) => n > 0 && run.log[n - 1].event == AdmitRead(j) && ReadAt(run.states[n - 1].db, j, a)
    case CancelCommit(j, a) => n > 0 && run.log[n - 1].event == CancelRead(j) && ReadAt(run.states[n - 1].db, j, a)
    case _ => true
  }

  predicate ReadAt(db: Db, j: JobId, a: nat) {
    j in db.jobs && db.jobs[j].attempt == a
  }

  lemma AtomicTimely(cfg: Settings, run: Run, n: nat)
    requires run.Valid(cfg) && n < |run.log| && Atomic(run, n)
    ensures Timely(cfg, run.states[n].db, run.log[n].event) && CancelTimely(run.states[n].db, run.log[n].event)
  {
    if n > 0 {
      assert Step(cfg, run.states[n - 1], run.log[n - 1], run.states[n]);
    }
  }

  /** With atomic admissions and cancels nothing ever leaks and every job's attempt history is complete,
  whatever else interleaves. */
  lemma AtomicNeverLeaks(cfg: Settings, run: Run, i: nat)
    requires ValidSettings(cfg) && run.Valid(cfg) && i < |run.states| && forall n | 0 <= n < i :: Atomic(run, n)
    ensures LeakFree(run.states[i].db)
    ensures forall j :: j in run.states[i].db.jobs ==> HistoryComplete(run.states[i].db, j)
  {
    forall n | 0 <= n < i
      ensures Timely(cfg, run.states[n].db, run.log[n].event) && CancelTimely(run.states[n].db, run.log[n].event)
    {
      AtomicTimely(cfg, run, n);
    }
    LeakFreeAlways(cfg, run, i);
    forall j | j in run.states[i].db.jobs ensures HistoryComplete(run.states[i].db, j) {
      HistoryAlways(cfg, run, i, j);
    }
  }

  // ----- the untimely admission happens --------------------------------------------------------

  /** Concretely: a job is created, a scheduler reads it, the API reads and cancels it, the
  scheduler commits.  The job is CANCELLED and its reservation stays ACTIVE. */
  lemma StaleAdmissionLeaks(cfg: Settings, s: Sys) returns (run: Run)
    requires Init(s) && Resources(1, 1, 0).Within(s.db.capacity.total)
    ensures run.Valid(cfg) && |run.log| == 5 && run.states[0] == s
    ensures 0 in run.states[5].db.jobs && run.states[5].db.jobs[0].status.Cancelled?
    ensures HasActive(run.states[5].db, Key(0, 1)) && !LeakFree(run.states[5].db)
  {
    var small := Overrides(Some(1), Some(1), Some(0));
    var t := s.clock;
    var s1 := Apply(cfg, s, Create(0, 50, small), t);
    var s2 := Apply(cfg, s1, AdmitRead(0), t);
    var s3 := Apply(cfg, s2, CancelRead(0), t);
    var s4 := Apply(cfg, s3, CancelCommit(0, 0), t);
    var s5 := Apply(cfg, s4, AdmitCommit(0, 0), t);
    CancelSources();
    assert s4.db.jobs[0].status.Cancelled? && s4.db.reservations == map[];
    assert HasActive(s5.db, Key(0, 1)) && !Owned(s5.db, Key(0, 1));
    run := Run([s, s1, s2, s3, s4, s5],
               [Entry(Create(0, 50, small), t), Entry(AdmitRead(0), t), Entry(CancelRead(0), t),
                Entry(CancelCommit(0, 0), t), Entry(AdmitCommit(0, 0), t)]);
  }
}
