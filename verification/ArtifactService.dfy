/** The artifact repository, the upload service and the reconciler, on a mutable store. */
module ArtifactService {
  import opened Types
  import opened Artifacts

  class Store {
    var rows: map<ArtifactId, Artifact>
    var objects: map<Hash, Blob>

    constructor ()
      ensures rows == map[] && objects == map[]
    {
      rows, objects := map[], map[];
    }

    method GetByHash(h: Hash) returns (found: Option<ArtifactId>)
      ensures found.None? <==> !HashTaken(rows, h)
      ensures found.Some? ==> found.value in rows && rows[found.value].contentHash == h
    {
      if i :| i in rows && rows[i].contentHash == h {
        found := Some(i);
      } else {
        found := None;
      }
    }

    /** False where the unique constraint on the content hash rejects the INSERT. */
    method CreatePending(id: ArtifactId, h: Hash, now: Time, ghost tm: Timing) returns (created: bool)
      modifies this`rows
      ensures rows == RowsAfter(tm, old(rows), ArtifactEvent.CreatePending(id, h), now)
      ensures created <==> id !in old(rows) && forall i :: i in old(rows) ==> old(rows)[i].contentHash != h
      ensures rows == if created then old(rows)[id := Artifact(h, Uploading, None, None, now)] else old(rows)
    {
      created := id !in rows && !(exists i :: i in rows && rows[i].contentHash == h);
      if created {
        rows := rows[id := Artifact(h, Uploading, None, None, now)];
      }
    }

    method ClaimUploadLease(id: ArtifactId, u: WorkerId, tm: Timing, now: Time) returns (claimed: bool)
      modifies this`rows
      ensures rows == RowsAfter(tm, old(rows), ClaimUpload(id, u), now)
      ensures claimed <==> id in old(rows) && UploadClaimable(old(rows)[id], now)
      // never while another lease is live, always once none is
      ensures id in old(rows) && LeaseLive(old(rows)[id], now) ==> !claimed
      ensures claimed <==> id in old(rows) && old(rows)[id].status == Uploading
                           && (old(rows)[id].leaseExpires.Some? ==> old(rows)[id].leaseExpires.value < now)
      ensures rows == if claimed
        then old(rows)[id := old(rows)[id].(uploader := Some(u), leaseExpires := Some(now + tm.uploadLease))] else old(rows)
    {
      claimed := id in rows && rows[id].status == Uploading
              && (rows[id].leaseExpires.None? || rows[id].leaseExpires.value < now);
      if claimed {
        rows := rows[id := rows[id].(uploader := Some(u), leaseExpires := Some(now + tm.uploadLease))];
      }
    }

    method RenewUploadLease(id: ArtifactId, u: WorkerId, tm: Timing, now: Time) returns (renewed: bool)
      modifies this`rows
      ensures rows == RowsAfter(tm, old(rows), RenewUpload(id, u), now)
      ensures renewed <==> id in old(rows) && old(rows)[id].status.Uploading? && old(rows)[id].uploader == Some(u)
      ensures rows == if renewed then old(rows)[id := old(rows)[id].(leaseExpires := Some(now + tm.uploadLease))] else old(rows)
    {
      renewed := id in rows && rows[id].status == Uploading && rows[id].uploader == Some(u);
      if renewed {
        rows := rows[id := rows[id].(leaseExpires := Some(now + tm.uploadLease))];
      }
    }

    method MarkUploaded(id: ArtifactId, u: WorkerId, ghost tm: Timing, ghost now: Time) returns (marked: bool)
      modifies this`rows
      ensures rows == RowsAfter(tm, old(rows), ArtifactEvent.MarkUploaded(id, u), now)
      ensures marked <==> id in old(rows) && old(rows)[id].status.Uploading? && old(rows)[id].uploader == Some(u)
      ensures rows == if marked then old(rows)[id := old(rows)[id].(status := Uploaded, leaseExpires := None)] else old(rows)
    {
      marked := id in rows && rows[id].status == Uploading && rows[id].uploader == Some(u);
      if marked {
        rows := rows[id := rows[id].(status := Uploaded, leaseExpires := None)];
      }
    }

    method ReconcileTo(id: ArtifactId, uploaded: bool, ghost tm: Timing, ghost now: Time) returns (changed: bool)
      modifies this`rows
      ensures rows == RowsAfter(tm, old(rows), if uploaded then Heal(id) else Abandon(id), now)
      ensures changed <==> id in old(rows) && old(rows)[id].status.Uploading?
      ensures rows == if changed
        then old(rows)[id := old(rows)[id].(status := if uploaded then Uploaded else Abandoned, leaseExpires := None)]
        else old(rows)
    {
      changed := id in rows && rows[id].status == Uploading;
      if changed {
        rows := rows[id := rows[id].(status := if uploaded then Uploaded else Abandoned, leaseExpires := None)];
      }
    }

    method Put(h: Hash, data: Blob)
      modifies this`objects
      ensures objects == old(objects)[h := data]
    {
      objects := objects[h := data];
    }
  }

  datatype UploadResult = Done(id: ArtifactId) | Conflict | Unverified | FencedOut

  /** A row for this content that is neither usable nor free to be uploaded. */
  predicate Busy(rows: map<ArtifactId, Artifact>, i: ArtifactId, h: Hash, now: Time) {
    i in rows && rows[i].contentHash == h && !rows[i].status.Uploaded? && !UploadClaimable(rows[i], now)
  }

  /** Exactly a live lease or a FAILED row makes content busy. */
  lemma BusyIff(rows: map<ArtifactId, Artifact>, h: Hash, now: Time)
    ensures (exists i :: Busy(rows, i, h, now)) <==>
            exists i :: i in rows && rows[i].contentHash == h && (LeaseLive(rows[i], now) || rows[i].status == Abandoned)
  {
    if i :| Busy(rows, i, h, now) {
      assert i in rows && rows[i].contentHash == h && (LeaseLive(rows[i], now) || rows[i].status == Abandoned);
    }
    if i :| i in rows && rows[i].contentHash == h && (LeaseLive(rows[i], now) || rows[i].status == Abandoned) {
      assert Busy(rows, i, h, now);
    }
  }

  /** The unique constraint on the content hash. */
  ghost predicate HashesDistinct(rows: map<ArtifactId, Artifact>) {
    forall i, k :: i in rows && k in rows && i != k ==> rows[i].contentHash != rows[k].contentHash
  }

  /** This content has a usable row already. */
  ghost predicate Deduplicated(rows: map<ArtifactId, Artifact>, h: Hash) {
    exists i :: i in rows && rows[i].contentHash == h && rows[i].status.Uploaded?
  }

  /** The end of an upload, whatever happened to the row and the object since its lease was claimed. */
  method FinishUpload(store: Store, hash: Blob -> Hash, h: Hash, id: ArtifactId, u: WorkerId, ghost tm: Timing, ghost now: Time)
    returns (r: UploadResult)
    modifies store`rows
    ensures r == if !(h in store.objects && hash(store.objects[h]) == h) then Unverified
                 else if id in old(store.rows) && old(store.rows)[id].status.Uploading? && old(store.rows)[id].uploader == Some(u)
                 then Done(id) else FencedOut
    ensures store.rows == if r.Done? then RowsAfter(tm, old(store.rows), MarkUploaded(id, u), now) else old(store.rows)
  {
    if !(h in store.objects && hash(store.objects[h]) == h) {
      return Unverified;
    }
    var marked := store.MarkUploaded(id, u, tm, now);
    r := if marked then Done(id) else FencedOut;
  }

  /** Row `id`, old or new, and no other has changed. */
  ghost predicate OnlyChanged(before: map<ArtifactId, Artifact>, rows: map<ArtifactId, Artifact>, id: ArtifactId) {
    id in rows && rows.Keys == before.Keys + {id} && forall k :: k in before && k != id ==> rows[k] == before[k]
  }

  /** Find or create the content's row and claim its upload lease. */
  method LeaseRow(store: Store, h: Hash, existing: Option<ArtifactId>, u: WorkerId, newId: ArtifactId, tm: Timing, now: Time)
    returns (id: ArtifactId, claimed: bool)
    requires newId !in store.rows && HashesDistinct(store.rows)
    requires if existing.Some? then existing.value in store.rows && store.rows[existing.value].contentHash == h
                                    && !store.rows[existing.value].status.Uploaded?
             else !HashTaken(store.rows, h)
    modifies store`rows
    ensures claimed <==> !exists i :: Busy(old(store.rows), i, h, now)
    ensures !claimed ==> store.rows == old(store.rows)
    ensures claimed ==>
      && OnlyChanged(old(store.rows), store.rows, id) && (id in old(store.rows) || id == newId)
      && store.rows[id].contentHash == h && store.rows[id].status.Uploading? && store.rows[id].uploader == Some(u)
      && (id in old(store.rows) ==> RowLater(old(store.rows)[id], store.rows[id]))
    ensures HashesDistinct(store.rows)
  {
    id := newId;
    if existing.Some? {
      id := existing.value;
    } else {
      var created := store.CreatePending(newId, h, now, tm);
    }
    claimed := store.ClaimUploadLease(id, u, tm, now);
    assert !claimed ==> Busy(old(store.rows), id, h, now);
  }

  lemma UploadFrame(before: map<ArtifactId, Artifact>, mid: map<ArtifactId, Artifact>, rows: map<ArtifactId, Artifact>, id: ArtifactId)
    requires OnlyChanged(before, mid, id) && HashesDistinct(mid) && (id in before ==> RowLater(before[id], mid[id]))
    requires mid[id].status.Uploading?
    requires rows == mid || rows == mid[id := mid[id].(status := Uploaded, leaseExpires := None)]
    ensures OnlyChanged(before, rows, id) && HashesDistinct(rows)
    ensures forall i :: i in before ==> i in rows && RowLater(before[i], rows[i])
  {
  }

  /** An upload without interference: `newId` names the row should one have to be created, `landed` says
  whether storage kept the bytes. */
  method UploadArtifact(store: Store, hash: Blob -> Hash, tm: Timing, data: Blob, u: WorkerId, newId: ArtifactId, landed: bool,
                        now: Time) returns (r: UploadResult)
    requires newId !in store.rows
    requires HashesDistinct(store.rows)
    modifies store
    ensures r.Conflict? <==> exists i :: Busy(old(store.rows), i, hash(data), now)
    // a live lease of another upload is never taken over, nor is FAILED content taken up again; nothing else conflicts
    ensures r.Conflict? <==> exists i :: i in old(store.rows) && old(store.rows)[i].contentHash == hash(data)
                                         && (LeaseLive(old(store.rows)[i], now) || old(store.rows)[i].status == Abandoned)
    ensures r.Unverified? <==> !r.Conflict? && !Deduplicated(old(store.rows), hash(data))
                               && !landed
                               && !(hash(data) in old(store.objects) && hash(old(store.objects)[hash(data)]) == hash(data))
    ensures !r.FencedOut?
    ensures r.Conflict? ==> store.rows == old(store.rows) && store.objects == old(store.objects)
    ensures r.Done? ==> r.id in store.rows && store.rows[r.id].status.Uploaded? && store.rows[r.id].contentHash == hash(data)
    ensures r.Done? ==> if Deduplicated(old(store.rows), hash(data))
      then store.rows == old(store.rows) && store.objects == old(store.objects)
      else OnlyChanged(old(store.rows), store.rows, r.id)
    ensures r.Unverified? ==> store.objects == old(store.objects) && exists i ::
      && OnlyChanged(old(store.rows), store.rows, i)
      && store.rows[i].contentHash == hash(data) && store.rows[i].status.Uploading? && store.rows[i].uploader == Some(u)
    ensures store.objects == if landed && !r.Conflict? && !Deduplicated(old(store.rows), hash(data))
      then old(store.objects)[hash(data) := data] else old(store.objects)
    ensures HashesDistinct(store.rows) && store.rows.Keys <= old(store.rows).Keys + {newId}
    ensures forall i :: i in old(store.rows) ==> i in store.rows && RowLater(old(store.rows)[i], store.rows[i])
  {
    var h := hash(data);
    BusyIff(store.rows, h, now);
    var existing := store.GetByHash(h);
    if existing.Some? && store.rows[existing.value].status == Uploaded {
      return Done(existing.value);
    }
    var id, claimed := LeaseRow(store, h, existing, u, newId, tm, now);
    if !claimed {
      return Conflict;
    }
    ghost var mid := store.rows;
    if landed {
      store.Put(h, data);
    }
    r := FinishUpload(store, hash, h, id, u, tm, now);
    UploadFrame(old(store.rows), mid, store.rows, id);
  }

  /** What a sweep makes of a row. */
  function Swept(hash: Blob -> Hash, tm: Timing, objects: map<Hash, Blob>, row: Artifact, now: Time): Artifact {
    if !Reconcilable(tm, row, now) then row
    else row.(status := if Present(hash, objects, row.contentHash) then Uploaded else Abandoned, leaseExpires := None)
  }

  lemma SweptPlainly(hash: Blob -> Hash, tm: Timing, objects: map<Hash, Blob>, row: Artifact, now: Time)
    ensures var h := row.contentHash;
            if row.status == Uploading
               && (if row.leaseExpires.Some? then row.leaseExpires.value < now else row.createdAt < now - tm.gracePeriod)
            then Swept(hash, tm, objects, row, now) ==
                 row.(leaseExpires := None, status := if h in objects && hash(objects[h]) == h then Uploaded else Abandoned)
            else Swept(hash, tm, objects, row, now) == row
  {
  }

  ghost function Listed(tm: Timing, rows: map<ArtifactId, Artifact>, now: Time): set<ArtifactId> {
    set i | i in rows && Reconcilable(tm, rows[i], now)
  }

  ghost function Healable(hash: Blob -> Hash, tm: Timing, objects: map<Hash, Blob>, rows: map<ArtifactId, Artifact>, now: Time):
    set<ArtifactId>
  {
    set i | i in rows && Reconcilable(tm, rows[i], now) && Present(hash, objects, rows[i].contentHash)
  }

  method ListReconcilable(store: Store, tm: Timing, now: Time) returns (ids: set<ArtifactId>)
    ensures ids == Listed(tm, store.rows, now)
    ensures forall i :: i in ids <==>
      && i in store.rows && store.rows[i].status == Uploading
      && (if store.rows[i].leaseExpires.Some? then store.rows[i].leaseExpires.value < now
          else store.rows[i].createdAt < now - tm.gracePeriod)
  {
    var rows := store.rows;
    ids := set i | i in rows && Reconcilable(tm, rows[i], now);
  }

  lemma SweepBounds(all: set<ArtifactId>, good: set<ArtifactId>)
    requires good <= all
    ensures |all * all| == |all| && |good * all| == |good| && |all * {}| == |good * {}| == 0
  {
    assert all * all == all && good * all == good && all * {} == {} == good * {};
  }

  lemma TakeOne(s: set<ArtifactId>, todo: set<ArtifactId>, i: ArtifactId)
    requires i in todo
    ensures |s * (todo - {i})| == |s * todo| - if i in s then 1 else 0
  {
    assert s * (todo - {i}) == s * todo - {i};
  }

  /** One turn of the sweep, for a row listed as reconcilable. */
  method SweepOne(store: Store, hash: Blob -> Hash, tm: Timing, i: ArtifactId, now: Time) returns (present: bool)
    requires i in store.rows && Reconcilable(tm, store.rows[i], now)
    modifies store`rows
    ensures store.rows == old(store.rows)[i := Swept(hash, tm, store.objects, old(store.rows)[i], now)]
    ensures present <==> Present(hash, store.objects, old(store.rows)[i].contentHash)
  {
    var h := store.rows[i].contentHash;
    present := h in store.objects && hash(store.objects[h]) == h;
    var changed := store.ReconcileTo(i, present, tm, now);
  }

  /** The rows of `todo` are as before, all others swept. */
  ghost predicate SweptBut(hash: Blob -> Hash, tm: Timing, objects: map<Hash, Blob>, before: map<ArtifactId, Artifact>,
                           rows: map<ArtifactId, Artifact>, todo: set<ArtifactId>, now: Time)
  {
    && rows.Keys == before.Keys
    && forall i | i in before :: rows[i] == if i in todo then before[i] else Swept(hash, tm, objects, before[i], now)
  }

  lemma SweptOneMore(hash: Blob -> Hash, tm: Timing, objects: map<Hash, Blob>, before: map<ArtifactId, Artifact>,
                     rows: map<ArtifactId, Artifact>, todo: set<ArtifactId>, now: Time, i: ArtifactId)
    requires SweptBut(hash, tm, objects, before, rows, todo, now) && i in todo && i in before
    ensures rows[i] == before[i]
    ensures SweptBut(hash, tm, objects, before, rows[i := Swept(hash, tm, objects, rows[i], now)], todo - {i}, now)
  {
  }

  /** The loop over the listed rows. */
  method SweepAll(store: Store, hash: Blob -> Hash, tm: Timing, now: Time) returns (healed: nat, failed: nat)
    modifies store`rows
    ensures store.rows.Keys == old(store.rows).Keys
    ensures forall i | i in store.rows :: store.rows[i] == Swept(hash, tm, store.objects, old(store.rows)[i], now)
    ensures healed + failed == |Listed(tm, old(store.rows), now)|
    ensures healed == |Healable(hash, tm, store.objects, old(store.rows), now)|
  {
    healed, failed := 0, 0;
    var rows := store.rows;
    var todo := ListReconcilable(store, tm, now);
    ghost var all, good := todo, Healable(hash, tm, store.objects, rows, now);
    SweepBounds(all, good);
    while todo != {}
      invariant todo <= all && SweptBut(hash, tm, store.objects, rows, store.rows, todo, now)
      invariant healed + failed == |all| - |all * todo| && healed == |good| - |good * todo|
      decreases todo
    {
      var i :| i in todo;
      SweptOneMore(hash, tm, store.objects, rows, store.rows, todo, now, i);
      var present := SweepOne(store, hash, tm, i, now);
      TakeOne(all, todo, i);
      TakeOne(good, todo, i);
      todo := todo - {i};
      if present {
        healed := healed + 1;
      } else {
        failed := failed + 1;
      }
    }
  }

  /** A reconciler pass without interference: every abandoned upload is settled by what storage holds,
  every other row is left alone. */
  method ReconcilePending(store: Store, hash: Blob -> Hash, tm: Timing, now: Time) returns (healed: nat, failed: nat)
    modifies store`rows
    ensures store.rows.Keys == old(store.rows).Keys
    ensures forall i | i in store.rows ::
      if old(store.rows)[i].status == Uploading
         && (if old(store.rows)[i].leaseExpires.Some? then old(store.rows)[i].leaseExpires.value < now
             else old(store.rows)[i].createdAt < now - tm.gracePeriod)
      then store.rows[i] == old(store.rows)[i].(leaseExpires := None, status :=
             if old(store.rows)[i].contentHash in store.objects
                && hash(store.objects[old(store.rows)[i].contentHash]) == old(store.rows)[i].contentHash
             then Uploaded else Abandoned)
      else store.rows[i] == old(store.rows)[i]
    ensures forall i | i in store.rows :: store.rows[i] == Swept(hash, tm, store.objects, old(store.rows)[i], now)
    ensures healed + failed == |Listed(tm, old(store.rows), now)|
    ensures healed == |Healable(hash, tm, store.objects, old(store.rows), now)|
  {
    ghost var before := store.rows;
    healed, failed := SweepAll(store, hash, tm, now);
    forall i | i in before {
      SweptPlainly(hash, tm, store.objects, before[i], now);
    }
  }

  /** A FAILED row bars its content for ever: content hashes are unique, so in every later state it is
  the only row of that content, and every upload of that content ends in a conflict. */
  lemma FailedContentBarred(hash: Blob -> Hash, tm: Timing, run: ArtifactRun, m: nat, n: nat, i: ArtifactId, now: Time)
    requires run.Valid(hash, tm) && m <= n < |run.states|
    requires i in run.states[m].rows && run.states[m].rows[i].status.Abandoned?
    ensures var rows, h := run.states[n].rows, run.states[m].rows[i].contentHash;
            && Busy(rows, i, h, now)
            && (forall k :: k in rows && rows[k].contentHash == h ==> k == i)
            && (forall u, k :: k in rows && rows[k].contentHash == h ==>
                  RowsAfter(tm, rows, ClaimUpload(k, u), now) == rows)
  {
    SettledForever(hash, tm, run, m, n, i);
    DepotOkAlways(hash, tm, run, n);
  }
}
