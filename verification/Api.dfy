/** The API's job service: creation and cancellation. */
module Api {
  import opened Types
  import opened Rules
  import opened Transactions
  import opened Repository

  datatype Response = Ok | NotFound | Conflict

  method CreateJob(db: Database, j: JobId, priority: int, overrides: Overrides, now: Time)
    requires j !in db.jobs
    modifies db`jobs
    ensures db.View() == CreateTx(old(db.View()), j, priority, overrides, now)
  {
    db.CreateAndEnqueue(j, priority, overrides, now);
  }

  /** The cancel's UPDATE and release, resting on a job read earlier at attempt `read`. */
  method CancelQueued(db: Database, j: JobId, read: nat) returns (r: Response)
    modifies db`jobs, db`reservations, db`capacity
    ensures db.View() == CancelTx(old(db.View()), j, read)
    ensures r == if j in old(db.jobs) && old(db.jobs)[j].status in {Queued, Running} then Ok else Conflict
    ensures r.Conflict? ==> db.View() == old(db.View())
    ensures r.Ok? ==>
      && db.jobs == old(db.jobs)[j := old(db.jobs)[j].(status := Cancelled)]
      && var key := Key(j, read + 1);
         db.reservations == (if key in old(db.reservations)
                             then old(db.reservations)[key := old(db.reservations)[key].(active := false)]
                             else old(db.reservations))
         && db.capacity.inUse == (if key in old(db.reservations) && old(db.reservations)[key].active
                                  then old(db.capacity).inUse.Minus(old(db.reservations)[key].held) else old(db.capacity).inUse)
  {
    CancelSources();
    var applied := db.ConditionalTransition(j, SourcesFor(Cancelled), Cancelled);
    if !applied {
      return Conflict;
    }
    db.ReleaseHeld(Key(j, read + 1));
    r := Ok;
  }

  /** A cancel without interference: at once for a queued job, cooperative for a running one. */
  method CancelJob(db: Database, j: JobId) returns (r: Response)
    modifies db`jobs, db`reservations, db`capacity
    ensures r.NotFound? <==> j !in old(db.jobs)
    ensures r.Conflict? <==>
      j in old(db.jobs) && (Terminal(old(db.jobs)[j].status) || old(db.jobs)[j].status.Pending?)
    ensures !r.Ok? ==> db.View() == old(db.View())
    ensures r.Ok? ==>
      db.View() == if old(db.jobs)[j].status.Running? then RequestCancelTx(old(db.View()), j)
                   else CancelTx(old(db.View()), j, old(db.jobs)[j].attempt)
    ensures r.Ok? && !old(db.jobs)[j].status.Running? ==>
      db.jobs[j].status.Cancelled? && !HasActive(db.View(), Key(j, db.jobs[j].attempt + 1))
  {
    CancelSources();
    if j !in db.jobs {
      return NotFound;
    }
    var current := db.jobs[j];
    if current.status == Pending || current.status == Queued {
      r := CancelQueued(db, j, current.attempt);
    } else if current.status == Running {
      var _ := db.SetCancelRequested(j);
      r := Ok;
    } else {
      r := Conflict;
    }
  }
}
