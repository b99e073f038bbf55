/** The artifact protocol: content-addressed objects, metadata rows, uploaders and reconcilers.

Storage keys are a fixed prefix in front of the hash, so an object is addressed by its hash. */
module Artifacts {
  import opened Types

  /** Content hashes are never computed here; two are only ever compared. */
  type Hash(==)
  type ArtifactId = nat

  /** What an object holds: a trainer's JSON documents, or anything else. */
  datatype Blob =
    | CheckpointFile(param: real, step: nat, run: JobId, attempt: nat)
    | ModelFile(param: real, step: nat, run: JobId, attempt: nat)
    | Raw(bytes: seq<bv8>)

  datatype ArtifactStatus = Uploading | Uploaded | Abandoned

  /** `Uploading` is the source's PENDING, `Abandoned` its FAILED. */
  datatype Artifact = Artifact(
    contentHash: Hash,
    status: ArtifactStatus,
    uploader: Option<WorkerId>,
    leaseExpires: Option<Time>,
    createdAt: Time)

  /** Rows and objects, and what processes remember: the leases they were granted, the rows they saw
  verified or missing in storage, the rows a sweep listed, and the registered versions. */
  datatype Depot = Depot(
    rows: map<ArtifactId, Artifact>,
    objects: map<Hash, Blob>,
    granted: set<(ArtifactId, WorkerId)>,
    seenPresent: set<ArtifactId>,
    seenMissing: set<ArtifactId>,
    listed: set<ArtifactId>,
    registered: set<ArtifactId>)

  datatype Timing = Timing(uploadLease: Time, gracePeriod: Time)

  datatype ArtifactEvent =
    | CreatePending(id: ArtifactId, contentHash: Hash)
    | ClaimUpload(id: ArtifactId, uploader: WorkerId)
    | RenewUpload(id: ArtifactId, uploader: WorkerId)
    | PutObject(data: Blob)
    | LookUp(id: ArtifactId)
    | MarkUploaded(id: ArtifactId, uploader: WorkerId)
    | ListForSweep(id: ArtifactId)
    | Heal(id: ArtifactId)
    | Abandon(id: ArtifactId)
    | RegisterVersion(id: ArtifactId)

  /** Existence alone is not enough: the object is hashed again. */
  predicate Present(hash: Blob -> Hash, objects: map<Hash, Blob>, h: Hash) {
    h in objects && hash(objects[h]) == h
  }

  predicate UploadClaimable(row: Artifact, now: Time) {
    row.status.Uploading? && (row.leaseExpires.None? || row.leaseExpires.value < now)
  }

  predicate Reconcilable(tm: Timing, row: Artifact, now: Time) {
    && row.status.Uploading?
    && match row.leaseExpires
       case None => row.createdAt < now - tm.gracePeriod
       case Some(t) => t < now
  }

  predicate HashTaken(rows: map<ArtifactId, Artifact>, h: Hash) {
    exists i :: i in rows && rows[i].contentHash == h
  }

  function NewArtifact(h: Hash, now: Time): Artifact {
    Artifact(h, Uploading, None, None, now)
  }

  function RowsAfter(tm: Timing, rows: map<ArtifactId, Artifact>, e: ArtifactEvent, now: Time): map<ArtifactId, Artifact> {
    match e
    case CreatePending(id, h) =>
      if id in rows || HashTaken(rows, h) then rows else rows[id := NewArtifact(h, now)]
    case ClaimUpload(id, u) =>
      if id in rows && UploadClaimable(rows[id], now)
      then rows[id := rows[id].(uploader := Some(u), leaseExpires := Some(now + tm.uploadLease))] else rows
    case RenewUpload(id, u) =>
      if id in rows && rows[id].status.Uploading? && rows[id].uploader == Some(u)
      then rows[id := rows[id].(leaseExpires := Some(now + tm.uploadLease))] else rows
    case MarkUploaded(id, u) =>
      if id in rows && rows[id].status.Uploading? && rows[id].uploader == Some(u)
      then rows[id := rows[id].(status := Uploaded, leaseExpires := None)] else rows
    case Heal(id) =>
      if id in rows && rows[id].status.Uploading?
      then rows[id := rows[id].(status := Uploaded, leaseExpires := None)] else rows
    case Abandon(id) =>
      if id in rows && rows[id].status.Uploading?
      then rows[id := rows[id].(status := Abandoned, leaseExpires := None)] else rows
    case _ => rows
  }

  ghost predicate ArtifactEnabled(tm: Timing, d: Depot, e: ArtifactEvent, now: Time) {
    match e
    case LookUp(id) => id in d.rows
    case MarkUploaded(id, u) => (id, u) in d.granted && id in d.seenPresent
    case ListForSweep(id) => id in d.rows && Reconcilable(tm, d.rows[id], now)
    case Heal(id) => id in d.listed && id in d.seenPresent
    case Abandon(id) => id in d.listed && id in d.seenMissing
    case RegisterVersion(id) => id in d.rows && d.rows[id].status.Uploaded?
    case _ => true
  }

  function DepotAfter(hash: Blob -> Hash, tm: Timing, d: Depot, e: ArtifactEvent, now: Time): Depot {
    Depot(
      RowsAfter(tm, d.rows, e, now),
      if e.PutObject? then d.objects[hash(e.data) := e.data] else d.objects,
      if e.ClaimUpload? && e.id in d.rows && UploadClaimable(d.rows[e.id], now) then d.granted + {(e.id, e.uploader)} else d.granted,
      if e.LookUp? && e.id in d.rows && Present(hash, d.objects, d.rows[e.id].contentHash) then d.seenPresent + {e.id} else d.seenPresent,
      if e.LookUp? && e.id in d.rows && !Present(hash, d.objects, d.rows[e.id].contentHash) then d.seenMissing + {e.id} else d.seenMissing,
      if e.ListForSweep? then d.listed + {e.id} else d.listed,
      if e.RegisterVersion? then d.registered + {e.id} else d.registered)
  }

  const EMPTY_DEPOT := Depot(map[], map[], {}, {}, {}, {}, {})

  ghost predicate DepotStep(hash: Blob -> Hash, tm: Timing, d: Depot, e: ArtifactEvent, now: Time, d': Depot) {
    ArtifactEnabled(tm, d, e, now) && d' == DepotAfter(hash, tm, d, e, now)
  }

  // ----- invariant ------------------------------------------------------------------------------

  ghost predicate ObjectsAddressed(hash: Blob -> Hash, d: Depot) {
    forall h :: h in d.objects ==> hash(d.objects[h]) == h
  }

  ghost predicate DepotOk(hash: Blob -> Hash, d: Depot) {
    && ObjectsAddressed(hash, d)
    && (forall i :: i in d.seenPresent ==> i in d.rows && d.rows[i].contentHash in d.objects)
    && (forall i :: i in d.rows && d.rows[i].status.Uploaded? ==> d.rows[i].contentHash in d.objects)
    && (forall i :: i in d.registered ==> i in d.rows && d.rows[i].status.Uploaded?)
    && (forall i, k :: i in d.rows && k in d.rows && i != k ==> d.rows[i].contentHash != d.rows[k].contentHash)
  }

  /** `b` can be a later state of row `a`: the content never changes, settled rows are final. */
  predicate RowLater(a: Artifact, b: Artifact) {
    && b.contentHash == a.contentHash && b.createdAt == a.createdAt
    && (!a.status.Uploading? ==> b == a)
  }

  lemma DepotGrows(hash: Blob -> Hash, tm: Timing, d: Depot, e: ArtifactEvent, now: Time, d': Depot)
    requires DepotStep(hash, tm, d, e, now, d')
    ensures forall i :: i in d.rows ==> i in d'.rows && RowLater(d.rows[i], d'.rows[i])
    ensures forall h :: h in d.objects ==> h in d'.objects
    ensures d.registered <= d'.registered
  {
  }

  lemma UploadedNeedsObject(hash: Blob -> Hash, tm: Timing, d: Depot, e: ArtifactEvent, now: Time, d': Depot, i: ArtifactId)
    requires DepotOk(hash, d) && DepotStep(hash, tm, d, e, now, d')
    requires i in d'.rows && d'.rows[i].status.Uploaded?
    ensures d'.rows[i].contentHash in d'.objects
  {
    DepotGrows(hash, tm, d, e, now, d');
  }

  lemma HashesUnique(tm: Timing, d: Depot, e: ArtifactEvent, now: Time, i: ArtifactId, k: ArtifactId)
    requires forall i, k :: i in d.rows && k in d.rows && i != k ==> d.rows[i].contentHash != d.rows[k].contentHash
    requires i in RowsAfter(tm, d.rows, e, now) && k in RowsAfter(tm, d.rows, e, now) && i != k
    ensures RowsAfter(tm, d.rows, e, now)[i].contentHash != RowsAfter(tm, d.rows, e, now)[k].contentHash
  {
  }

  lemma DepotOkStep(hash: Blob -> Hash, tm: Timing, d: Depot, e: ArtifactEvent, now: Time, d': Depot)
    requires DepotOk(hash, d) && DepotStep(hash, tm, d, e, now, d')
    ensures DepotOk(hash, d')
  {
    DepotGrows(hash, tm, d, e, now, d');
    forall i | i in d'.rows && d'.rows[i].status.Uploaded? ensures d'.rows[i].contentHash in d'.objects {
      UploadedNeedsObject(hash, tm, d, e, now, d', i);
    }
    forall i, k | i in d'.rows && k in d'.rows && i != k ensures d'.rows[i].contentHash != d'.rows[k].contentHash {
      HashesUnique(tm, d, e, now, i, k);
    }
  }

  // ----- whole runs --------------------------------------------------------------------------------

  datatype ArtifactEntry = ArtifactEntry(event: ArtifactEvent, now: Time)

  /** Uploaders, reconcilers and registrations interleaved in any way. */
  datatype ArtifactRun = ArtifactRun(states: seq<Depot>, log: seq<ArtifactEntry>) {
    ghost predicate Valid(hash: Blob -> Hash, tm: Timing) {
      && |states| == |log| + 1
      && states[0] == EMPTY_DEPOT
      && (forall i {:trigger log[i]} | 0 <= i < |log| ::
            DepotStep(hash, tm, states[i], log[i].event, log[i].now, states[i + 1]))
      && (forall i, k :: 0 <= i <= k < |log| ==> log[i].now <= log[k].now)
    }
  }

  lemma {:induction false} DepotOkAlways(hash: Blob -> Hash, tm: Timing, run: ArtifactRun, n: nat)
    requires run.Valid(hash, tm) && n < |run.states|
    ensures DepotOk(hash, run.states[n])
  {
    if n > 0 {
      DepotOkAlways(hash, tm, run, n - 1);
      var en := run.log[n - 1];
      DepotOkStep(hash, tm, run.states[n - 1], en.event, en.now, run.states[n]);
    }
  }

  lemma {:induction false} RowLaterAlong(hash: Blob -> Hash, tm: Timing, run: ArtifactRun, m: nat, n: nat, i: ArtifactId)
    requires run.Valid(hash, tm) && m <= n < |run.states| && i in run.states[m].rows
    ensures i in run.states[n].rows && RowLater(run.states[m].rows[i], run.states[n].rows[i])
    ensures run.states[m].registered <= run.states[n].registered
  {
    if m < n {
      RowLaterAlong(hash, tm, run, m, n - 1, i);
      var en := run.log[n - 1];
      DepotGrows(hash, tm, run.states[n - 1], en.event, en.now, run.states[n]);
    }
  }

  /** UPLOADED means usable, for ever: from the commit that says UPLOADED on, and with uploaders whose
  leases lapsed and stale sweeps still about, the row never changes again and the object at its
  key hashes to the recorded content hash.  FAILED rows never change either. */
  lemma SettledForever(hash: Blob -> Hash, tm: Timing, run: ArtifactRun, m: nat, n: nat, i: ArtifactId)
    requires run.Valid(hash, tm) && m <= n < |run.states|
    requires i in run.states[m].rows && !run.states[m].rows[i].status.Uploading?
    ensures i in run.states[n].rows && run.states[n].rows[i] == run.states[m].rows[i]
    ensures run.states[m].rows[i].status.Uploaded? ==>
      Present(hash, run.states[n].objects, run.states[m].rows[i].contentHash)
  {
    RowLaterAlong(hash, tm, run, m, n, i);
    DepotOkAlways(hash, tm, run, n);
  }

  /** A registered model or dataset version refers to the same usable bytes for ever. */
  lemma RegisteredBytesForever(hash: Blob -> Hash, tm: Timing, run: ArtifactRun, m: nat, n: nat, i: ArtifactId)
    requires forall x, y :: hash(x) == hash(y) ==> x == y
    requires run.Valid(hash, tm) && m <= n < |run.states| && i in run.states[m].registered
    ensures i in run.states[m].rows && i in run.states[n].rows
    ensures var h := run.states[m].rows[i].contentHash;
            && run.states[n].rows[i].contentHash == h
            && h in run.states[m].objects && h in run.states[n].objects
            && run.states[n].objects[h] == run.states[m].objects[h]
  {
    DepotOkAlways(hash, tm, run, m);
    DepotOkAlways(hash, tm, run, n);
    SettledForever(hash, tm, run, m, n, i);
    var h := run.states[m].rows[i].contentHash;
    assert hash(run.states[n].objects[h]) == h == hash(run.states[m].objects[h]);
  }

  // ----- sweeps against live leases -------------------------------------------------------------------

  predicate LeaseLive(row: Artifact, now: Time) {
    row.status.Uploading? && row.leaseExpires.Some? && row.leaseExpires.value >= now
  }

  /** Entry `r` gives row `i` a fresh upload lease: a claim or a renewal that matches. */
  ghost predicate LeasesAt(run: ArtifactRun, r: nat, i: ArtifactId)
    requires |run.states| == |run.log| + 1 && r < |run.log|
  {
    var d, e := run.states[r], run.log[r].event;
    && i in d.rows
    && match e
       case ClaimUpload(id, _) => id == i && UploadClaimable(d.rows[i], run.log[r].now)
       case RenewUpload(id, u) => id == i && d.rows[i].status.Uploading? && d.rows[i].uploader == Some(u)
       case _ => false
  }

  /** While a row stays PENDING its lease is the one it had at `m`, or the last granted since. */
  lemma {:induction false} LeaseSince(hash: Blob -> Hash, tm: Timing, run: ArtifactRun, m: nat, n: nat, i: ArtifactId)
    returns (r: nat)
    requires run.Valid(hash, tm) && m <= n < |run.states| && i in run.states[m].rows
    requires i in run.states[n].rows && run.states[n].rows[i].status.Uploading?
    ensures r <= n
    ensures forall k :: m <= k < n && k >= r ==> !LeasesAt(run, k, i)
    ensures r <= m ==> run.states[n].rows[i].leaseExpires == run.states[m].rows[i].leaseExpires
    ensures r > m ==> LeasesAt(run, r - 1, i)
    ensures r > m ==> run.states[n].rows[i].leaseExpires == Some(run.log[r - 1].now + tm.uploadLease)
  {
    r := m;
    if m < n {
      var en := run.log[n - 1];
      RowLaterAlong(hash, tm, run, m, n - 1, i);
      DepotGrows(hash, tm, run.states[n - 1], en.event, en.now, run.states[n]);
      r := LeaseSince(hash, tm, run, m, n - 1, i);
      if LeasesAt(run, n - 1, i) {
        r := n;
      }
    }
  }

  /** The holder of a PENDING row changes exactly when another uploader claims it while no lease is live. */
  lemma HolderChangesIff(hash: Blob -> Hash, tm: Timing, d: Depot, e: ArtifactEvent, now: Time, d': Depot, i: ArtifactId)
    requires DepotStep(hash, tm, d, e, now, d') && i in d.rows && d.rows[i].status.Uploading?
    ensures i in d'.rows
    ensures d'.rows[i].uploader != d.rows[i].uploader <==>
            e.ClaimUpload? && e.id == i && d.rows[i].uploader != Some(e.uploader) && !LeaseLive(d.rows[i], now)
  {
  }

  /** The row is settled, or still held by `u` under a lease that lasts until `until` at least. */
  predicate HeldUntil(row: Artifact, u: WorkerId, until: Time) {
    row.status.Uploading? ==> row.uploader == Some(u) && row.leaseExpires.Some? && row.leaseExpires.value >= until
  }

  lemma HeldKept(hash: Blob -> Hash, tm: Timing, d: Depot, e: ArtifactEvent, now: Time, d': Depot, i: ArtifactId, u: WorkerId, until: Time)
    requires DepotStep(hash, tm, d, e, now, d') && i in d.rows && HeldUntil(d.rows[i], u, until)
    requires now <= until <= now + tm.uploadLease
    ensures i in d'.rows && HeldUntil(d'.rows[i], u, until)
  {
  }

  /** An upload lease is exclusive: from a grant to `u` at entry `r`, and as long as no more than the lease
  duration has passed since, whatever other uploaders try, the row is settled or held by `u` under a
  lease at least that long. */
  lemma {:induction false} LeaseExclusive(hash: Blob -> Hash, tm: Timing, run: ArtifactRun, r: nat, n: nat, i: ArtifactId, u: WorkerId)
    requires run.Valid(hash, tm) && tm.uploadLease >= 0.0 && r < n < |run.states|
    requires LeasesAt(run, r, i) && run.log[r].event.uploader == u
    requires forall q :: r < q < n ==> run.log[q].now <= run.log[r].now + tm.uploadLease
    ensures i in run.states[n].rows && HeldUntil(run.states[n].rows[i], u, run.log[r].now + tm.uploadLease)
    decreases n
  {
    if r < n - 1 {
      LeaseExclusive(hash, tm, run, r, n - 1, i, u);
      var en := run.log[n - 1];
      assert run.log[r].now <= en.now;
      HeldKept(hash, tm, run.states[n - 1], en.event, en.now, run.states[n], i, u, run.log[r].now + tm.uploadLease);
    }
  }

  /** Exactly when a sweep hits a live lease: it listed the row at `m` and commits at `n`; the lease is
  live at the commit if and only if one granted in between has not lapsed yet. */
  lemma SweepHitsLiveLeaseIff(hash: Blob -> Hash, tm: Timing, run: ArtifactRun, m: nat, n: nat, i: ArtifactId)
    requires run.Valid(hash, tm) && m < n < |run.log|
    requires run.log[m].event == ListForSweep(i) && run.log[n].event == Abandon(i)
    requires i in run.states[n].rows && run.states[n].rows[i].status.Uploading?
    ensures LeaseLive(run.states[n].rows[i], run.log[n].now) <==>
            exists r :: m <= r < n && LeasesAt(run, r, i) && run.log[r].now + tm.uploadLease >= run.log[n].now
    ensures i in run.states[n + 1].rows && run.states[n + 1].rows[i].status.Abandoned?
  {
    var r := LeaseSince(hash, tm, run, m, n, i);
    assert Reconcilable(tm, run.states[m].rows[i], run.log[m].now);
    assert run.log[m].now <= run.log[n].now;
    if r > m {
      assert forall k :: m <= k < n && LeasesAt(run, k, i) ==> run.log[k].now <= run.log[r - 1].now;
    }
  }

  /** One more step at the end of a run. */
  lemma Extended(hash: Blob -> Hash, tm: Timing, run: ArtifactRun, e: ArtifactEvent, now: Time) returns (longer: ArtifactRun)
    requires run.Valid(hash, tm)
    requires ArtifactEnabled(tm, run.states[|run.log|], e, now)
    requires forall i :: 0 <= i < |run.log| ==> run.log[i].now <= now
    ensures longer.Valid(hash, tm)
    ensures longer.log == run.log + [ArtifactEntry(e, now)]
    ensures longer.states == run.states + [DepotAfter(hash, tm, run.states[|run.log|], e, now)]
  {
    longer := ArtifactRun(run.states + [DepotAfter(hash, tm, run.states[|run.log|], e, now)],
                          run.log + [ArtifactEntry(e, now)]);
    forall i | 0 <= i < |longer.log|
      ensures DepotStep(hash, tm, longer.states[i], longer.log[i].event, longer.log[i].now, longer.states[i + 1])
    {
      assert i < |run.log| ==> longer.log[i] == run.log[i];
    }
  }

  const TIMING := Timing(60.0, 300.0)

  lemma LapsedUpload(hash: Blob -> Hash, h: Hash) returns (run: ArtifactRun)
    ensures run.Valid(hash, TIMING) && |run.log| == 2
    ensures forall i :: 0 <= i < 2 ==> run.log[i].now == 0.0
    ensures run.states[2].rows == map[0 := Artifact(h, Uploading, Some("a"), Some(60.0), 0.0)]
    ensures run.states[2].objects == map[]
  {
    run := ArtifactRun([EMPTY_DEPOT], []);
    run := Extended(hash, TIMING, run, CreatePending(0, h), 0.0);
    assert run.states[1].rows == map[0 := NewArtifact(h, 0.0)] && run.states[1].objects == map[];
    run := Extended(hash, TIMING, run, ClaimUpload(0, "a"), 0.0);
  }

  /** A sweep that commits on an old listing can fail a row whose lease is live: it lists the lapsed
  row, a second uploader claims it, the sweep fails it. */
  lemma StaleSweepFailsLiveLease(hash: Blob -> Hash, h: Hash) returns (run: ArtifactRun)
    ensures run.Valid(hash, TIMING) && |run.log| == 6
    ensures run.log[5] == ArtifactEntry(Abandon(0), 62.0)
    ensures 0 in run.states[5].rows && run.states[5].rows[0].leaseExpires == Some(122.0)
    ensures 0 in run.states[6].rows && run.states[6].rows[0].status.Abandoned?
  {
    run := LapsedUpload(hash, h);
    run := Extended(hash, TIMING, run, ListForSweep(0), 61.0);
    run := Extended(hash, TIMING, run, LookUp(0), 61.0);
    run := Extended(hash, TIMING, run, ClaimUpload(0, "b"), 62.0);
    assert run.states[5].rows == map[0 := Artifact(h, Uploading, Some("b"), Some(122.0), 0.0)];
    run := Extended(hash, TIMING, run, Abandon(0), 62.0);
  }
}
