/** Capacity accounting: the allocated figures equal the sum over ACTIVE reservations. */
module Conservation {
  import opened Types
  import opened Transactions
  import opened Protocol

  function Held(r: Reservation): Resources {
    if r.active then r.held else NOTHING
  }

  ghost function Pick(m: map<Key, Reservation>): (k: Key)
    requires m != map[]
    ensures k in m
  {
    var k :| k in m;
    k
  }

  /** The audit query: total held by ACTIVE rows. */
  ghost function SumActive(m: map<Key, Reservation>): Resources
    decreases m.Keys
  {
    if m == map[] then NOTHING
    else Held(m[Pick(m)]).Plus(SumActive(m - {Pick(m)}))
  }

  lemma PlusSwap(a: Resources, b: Resources, c: Resources)
    ensures a.Plus(b.Plus(c)) == b.Plus(a.Plus(c))
  {
  }

  lemma RemoveSwap(m: map<Key, Reservation>, a: Key, b: Key)
    ensures m - {a} - {b} == m - {b} - {a}
  {
  }

  lemma Overwrite(m: map<Key, Reservation>, k: Key, r: Reservation)
    ensures m[k := r] - {k} == m - {k}
  {
  }

  /** The sum does not depend on the order in which rows are visited. */
  lemma {:induction false} SumActiveTake(m: map<Key, Reservation>, k: Key)
    requires k in m
    ensures SumActive(m) == Held(m[k]).Plus(SumActive(m - {k}))
    decreases m.Keys
  {
    var k0 := Pick(m);
    if k0 != k {
      SumActiveTake(m - {k0}, k);
      SumActiveTake(m - {k}, k0);
      RemoveSwap(m, k0, k);
      PlusSwap(Held(m[k0]), Held(m[k]), SumActive(m - {k0} - {k}));
    }
  }

  lemma SumActivePut(m: map<Key, Reservation>, k: Key, r: Reservation)
    ensures SumActive(m[k := r]) == Held(r).Plus(SumActive(m - {k}))
    ensures SumActive(m) == if k in m then Held(m[k]).Plus(SumActive(m - {k})) else SumActive(m - {k})
  {
    SumActiveTake(m[k := r], k);
    Overwrite(m, k, r);
    if k in m {
      SumActiveTake(m, k);
    } else {
      assert m - {k} == m;
    }
  }

  lemma {:induction false} SumActiveNonNegative(m: map<Key, Reservation>)
    requires forall k :: k in m ==> NOTHING.Within(m[k].held)
    ensures NOTHING.Within(SumActive(m))
    decreases m.Keys
  {
    if m != map[] {
      var k := Pick(m);
      SumActiveNonNegative(m - {k});
      assert NOTHING.Within(m[k].held);
    }
  }

  /** The hard accounting invariant, meant at every commit. */
  ghost predicate Conserved(db: Db) {
    && (forall k :: k in db.reservations ==> NOTHING.Within(db.reservations[k].held))
    && db.capacity.inUse == SumActive(db.reservations)
    && NOTHING.Within(db.capacity.inUse)
    && db.capacity.inUse.Within(db.capacity.total)
  }

  lemma PlusMinus(a: Resources, b: Resources)
    ensures a.Plus(b).Minus(a) == b && NOTHING.Plus(b) == b
  {
  }

  lemma ReleasedSum(m: map<Key, Reservation>, key: Key)
    requires key in m && m[key].active
    ensures SumActive(m[key := m[key].(active := false)]) == SumActive(m).Minus(m[key].held)
  {
    SumActivePut(m, key, m[key].(active := false));
    PlusMinus(m[key].held, SumActive(m - {key}));
  }

  lemma ReleasedNonNegative(m: map<Key, Reservation>, key: Key)
    requires key in m && m[key].active && forall k :: k in m ==> NOTHING.Within(m[k].held)
    ensures NOTHING.Within(SumActive(m).Minus(m[key].held))
  {
    ReleasedSum(m, key);
    SumActiveNonNegative(m[key := m[key].(active := false)]);
  }

  lemma ReleaseConserves(db: Db, key: Key)
    requires Conserved(db)
    ensures Conserved(ReleaseTx(db, key))
    ensures !HasActive(ReleaseTx(db, key), key)
  {
    if HasActive(db, key) {
      ReleasedSum(db.reservations, key);
      ReleasedNonNegative(db.reservations, key);
    }
  }

  lemma AdmittedSum(m: map<Key, Reservation>, key: Key, r: Resources)
    requires key !in m
    ensures SumActive(m[key := Reservation(r, true)]) == SumActive(m).Plus(r)
  {
    SumActivePut(m, key, Reservation(r, true));
    assert r.Plus(SumActive(m)) == SumActive(m).Plus(r);
  }

  lemma RequestNonNegative(cfg: Settings, row: Job)
    requires ValidSettings(cfg)
    ensures NOTHING.Within(Request(cfg, row))
  {
  }

  lemma AdmitConserves(cfg: Settings, db: Db, j: JobId, a: nat)
    requires Conserved(db) && ValidSettings(cfg)
    ensures Conserved(AdmitTx(cfg, db, j, a))
  {
    if Admits(cfg, db, j, a) {
      AdmittedSum(db.reservations, Key(j, a + 1), Request(cfg, db.jobs[j]));
      RequestNonNegative(cfg, db.jobs[j]);
    }
  }

  predicate SameLedger(db: Db, db': Db) {
    db'.reservations == db.reservations && db'.capacity == db.capacity
  }

  lemma SameLedgerConserves(db: Db, db': Db)
    requires Conserved(db) && SameLedger(db, db')
    ensures Conserved(db')
  {
  }

  lemma CancelConserves(db: Db, j: JobId, a: nat)
    requires Conserved(db)
    ensures Conserved(CancelTx(db, j, a))
  {
    if Cancellable(db, j) {
      SameLedgerConserves(db, CancelledRow(db, j));
      ReleaseConserves(CancelledRow(db, j), Key(j, a + 1));
    }
  }

  lemma FinalizeConserves(cfg: Settings, db: Db, j: JobId, w: WorkerId, k: nat, outcome: Outcome,
                          now: Time, retryAt: Time)
    requires Conserved(db)
    ensures Conserved(FinalizeTx(cfg, db, j, w, k, outcome, now, retryAt))
  {
    if Fence(db, j, w, k) {
      var db1 := FinalizedRows(cfg, db, j, k, outcome, now, retryAt);
      SameLedgerConserves(db, db1);
      ReleaseConserves(db1, Key(j, k));
    }
  }

  lemma ReclaimConserves(cfg: Settings, db: Db, j: JobId, now: Time, retryAt: Time, seenOwner: WorkerId)
    requires Conserved(db)
    ensures Conserved(ReclaimTx(cfg, db, j, now, retryAt, seenOwner))
  {
    if Stale(db, j, now) {
      var db1 := ReclaimedRows(cfg, db, j, now, retryAt, seenOwner);
      SameLedgerConserves(db, db1);
      ReleaseConserves(db1, Key(j, db.jobs[j].attempt));
    }
  }

  lemma OthersKeepLedger(cfg: Settings, db: Db, e: Event, now: Time)
    requires !e.AdmitCommit? && !e.CancelCommit? && !e.Finalize? && !e.Reclaim?
    ensures SameLedger(db, DbAfter(cfg, db, e, now))
  {
  }

  /** Every transaction conserves, whatever stale reading it rests on: no hypothesis about the
  event being enabled, fenced or up to date is needed. */
  lemma EveryTransactionConserves(cfg: Settings, db: Db, e: Event, now: Time)
    requires Conserved(db) && ValidSettings(cfg)
    ensures Conserved(DbAfter(cfg, db, e, now))
  {
    match e
    case AdmitCommit(j, a) => AdmitConserves(cfg, db, j, a);
    case CancelCommit(j, a) => CancelConserves(db, j, a);
    case Finalize(j, k, w, outcome, retryAt) => FinalizeConserves(cfg, db, j, w, k, outcome, now, retryAt);
    case Reclaim(j, retryAt, seenOwner) => ReclaimConserves(cfg, db, j, now, retryAt, seenOwner);
    case _ =>
      OthersKeepLedger(cfg, db, e, now);
      SameLedgerConserves(db, DbAfter(cfg, db, e, now));
  }

  /** Conservation at every commit of every run. */
  lemma {:induction false} ConservedAlways(cfg: Settings, run: Run, i: nat)
    requires run.Valid(cfg) && ValidSettings(cfg) && i < |run.states|
    ensures Conserved(run.states[i].db)
  {
    if i > 0 {
      ConservedAlways(cfg, run, i - 1);
      assert Step(cfg, run.states[i - 1], run.log[i - 1], run.states[i]);
      EveryTransactionConserves(cfg, run.states[i - 1].db, run.log[i - 1].event, run.log[i - 1].now);
    }
  }
}
