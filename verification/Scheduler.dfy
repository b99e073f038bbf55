/** The scheduler: ranking, one admission, one pass. */
module Scheduler {
  import opened Types
  import opened Transactions
  import opened Repository

  // ----- ranking ---------------------------------------------------------------------------------

  function RawPriority(cfg: Settings, row: Job, now: Time): real {
    row.priority as real + cfg.agingRate * (now - row.createdAt)
  }

  function EffectivePriority(cfg: Settings, row: Job, now: Time): real {
    var raw, ceiling := RawPriority(cfg, row, now), cfg.priorityCeiling as real;
    if raw < ceiling then raw else ceiling
  }

  /** The smaller of two figures. */
  function Least(x: real, y: real): (r: real)
    ensures r <= x && r <= y && (r == x || r == y)
  {
    if x < y then x else y
  }

  /** Waiting raises the effective priority at the aging rate until the ceiling, and never past it. */
  lemma AgesToCeiling(cfg: Settings, row: Job, now: Time, wait: real)
    requires cfg.agingRate >= 0.0 && wait >= 0.0
    ensures EffectivePriority(cfg, row, row.createdAt) == Least(row.priority as real, cfg.priorityCeiling as real)
    ensures EffectivePriority(cfg, row, now + wait) ==
            Least(EffectivePriority(cfg, row, now) + cfg.agingRate * wait, cfg.priorityCeiling as real)
  {
    assert cfg.agingRate * wait >= 0.0;
    assert cfg.agingRate * (now + wait - row.createdAt) == cfg.agingRate * (now - row.createdAt) + cfg.agingRate * wait;
  }

  datatype Candidate = Candidate(effective: real, createdAt: Time, job: JobId)

  /** Sort key order: effective priority descending, creation time ascending. */
  predicate Ahead(a: Candidate, b: Candidate) {
    a.effective > b.effective || (a.effective == b.effective && a.createdAt < b.createdAt)
  }

  ghost predicate Ranked(s: seq<Candidate>) {
    forall i, k :: 0 <= i < k < |s| ==> !Ahead(s[k], s[i])
  }

  function Insert(s: seq<Candidate>, c: Candidate): seq<Candidate> {
    if s == [] then [c]
    else if Ahead(c, s[|s| - 1]) then Insert(s[..|s| - 1], c) + [s[|s| - 1]]
    else s + [c]
  }

  lemma {:induction false} InsertContents(s: seq<Candidate>, c: Candidate)
    ensures multiset(Insert(s, c)) == multiset(s) + multiset{c}
  {
    if s != [] && Ahead(c, s[|s| - 1]) {
      InsertContents(s[..|s| - 1], c);
      assert s == s[..|s| - 1] + [s[|s| - 1]];
    }
  }

  lemma {:induction false} InsertRanked(s: seq<Candidate>, c: Candidate)
    requires Ranked(s)
    ensures Ranked(Insert(s, c))
  {
    if s != [] && Ahead(c, s[|s| - 1]) {
      var init, last := s[..|s| - 1], s[|s| - 1];
      InsertRanked(init, c);
      InsertContents(init, c);
      var r := Insert(init, c);
      forall i | 0 <= i < |r| ensures !Ahead(last, r[i]) {
        assert r[i] in multiset(r);
        assert r[i] in init || r[i] == c;
      }
    }
  }

  /** `list.sort` by the ranking key. */
  method Sort(candidates: seq<Candidate>) returns (ranked: seq<Candidate>)
    ensures Ranked(ranked) && multiset(ranked) == multiset(candidates)
  {
    ranked := [];
    for i := 0 to |candidates|
      invariant Ranked(ranked) && multiset(ranked) == multiset(candidates[..i])
    {
      assert candidates[..i + 1] == candidates[..i] + [candidates[i]];
      InsertRanked(ranked, candidates[i]);
      InsertContents(ranked, candidates[i]);
      ranked := Insert(ranked, candidates[i]);
    }
    assert candidates[..|candidates|] == candidates;
  }

  /** Once the aged priority has reached the ceiling. */
  predicate Saturated(cfg: Settings, row: Job, now: Time) {
    RawPriority(cfg, row, now) >= cfg.priorityCeiling as real
  }

  lemma SaturatedFromWait(cfg: Settings, row: Job, now: Time)
    requires cfg.agingRate > 0.0
    requires now - row.createdAt >= (cfg.priorityCeiling - row.priority) as real / cfg.agingRate
    ensures Saturated(cfg, row, now)
  {
    var gap := (cfg.priorityCeiling - row.priority) as real;
    var wait := now - row.createdAt;
    assert cfg.agingRate * wait >= cfg.agingRate * (gap / cfg.agingRate);
  }

  lemma StaysSaturated(cfg: Settings, row: Job, now: Time, later: Time)
    requires cfg.agingRate >= 0.0 && now <= later && Saturated(cfg, row, now)
    ensures Saturated(cfg, row, later)
  {
    assert cfg.agingRate * (later - row.createdAt) >= cfg.agingRate * (now - row.createdAt);
  }

  function CandidateOf(cfg: Settings, j: JobId, row: Job, now: Time): Candidate {
    Candidate(EffectivePriority(cfg, row, now), row.createdAt, j)
  }

  /** Bounded overtaking, exactly: no job created later can stand ahead at `now`, whatever its
  priority, if and only if the job's aged priority has reached the ceiling. */
  lemma NotOvertakenIffSaturated(cfg: Settings, j: JobId, row: Job, i: JobId, now: Time)
    requires cfg.agingRate >= 0.0 && row.createdAt < now
    ensures Saturated(cfg, row, now) <==>
      forall other: Job :: row.createdAt < other.createdAt <= now ==>
        !Ahead(CandidateOf(cfg, i, other, now), CandidateOf(cfg, j, row, now))
  {
    if !Saturated(cfg, row, now) {
      var newcomer := row.(createdAt := now, priority := cfg.priorityCeiling);
      assert RawPriority(cfg, newcomer, now) == cfg.priorityCeiling as real;
      assert Ahead(CandidateOf(cfg, i, newcomer, now), CandidateOf(cfg, j, row, now));
    }
  }

  /** In a ranked list nobody created later stands before a job saturated at some time up to now. */
  lemma OnlyOlderAhead(cfg: Settings, jobs: map<JobId, Job>, since: Time, now: Time, ranked: seq<Candidate>, i: nat, k: nat)
    requires cfg.agingRate >= 0.0 && since <= now && Ranked(ranked) && i < k < |ranked|
    requires ranked[i].job in jobs && ranked[i] == CandidateOf(cfg, ranked[i].job, jobs[ranked[i].job], now)
    requires ranked[k].job in jobs && ranked[k] == CandidateOf(cfg, ranked[k].job, jobs[ranked[k].job], now)
    requires Saturated(cfg, jobs[ranked[k].job], since)
    ensures jobs[ranked[i].job].createdAt <= jobs[ranked[k].job].createdAt
  {
    StaysSaturated(cfg, jobs[ranked[k].job], since, now);
    assert !Ahead(ranked[k], ranked[i]);
  }

  // ----- the pass on values ------------------------------------------------------------------------

  function Count(verdict: seq<bool>): nat {
    if verdict == [] then 0 else Count(verdict[..|verdict| - 1]) + if verdict[|verdict| - 1] then 1 else 0
  }

  function Positions(verdict: seq<bool>): set<int> {
    set i | 0 <= i < |verdict| && verdict[i]
  }

  /** How many were admitted. */
  lemma {:induction false} CountIs(verdict: seq<bool>)
    ensures Count(verdict) == |Positions(verdict)|
  {
    if verdict != [] {
      var n := |verdict| - 1;
      CountIs(verdict[..n]);
      assert Positions(verdict) == if verdict[n] then Positions(verdict[..n]) + {n} else Positions(verdict[..n]);
    }
  }

  function Taken(requests: seq<Resources>, verdict: seq<bool>): Resources
    requires |requests| == |verdict|
  {
    var n := |verdict| - 1;
    if verdict == [] then NOTHING
    else if verdict[n] then Taken(requests[..n], verdict[..n]).Plus(requests[n])
    else Taken(requests[..n], verdict[..n])
  }

  function Left(cap: Capacity, requests: seq<Resources>, verdict: seq<bool>): Capacity
    requires |requests| == |verdict|
  {
    cap.(inUse := cap.inUse.Plus(Taken(requests, verdict)))
  }

  /** Greedy first fit: position `i` is admitted exactly if fewer than `limit` before it were and its
  request fits what they left. */
  ghost predicate FirstFit(cap: Capacity, requests: seq<Resources>, limit: nat, verdict: seq<bool>) {
    |verdict| == |requests| && forall i :: 0 <= i < |verdict| ==> RightlyDecided(cap, requests, limit, verdict, i)
  }

  predicate RightlyDecided(cap: Capacity, requests: seq<Resources>, limit: nat, verdict: seq<bool>, i: nat)
    requires |verdict| == |requests| && i < |verdict|
  {
    verdict[i] <==> Count(verdict[..i]) < limit && Fits(Left(cap, requests[..i], verdict[..i]), requests[i])
  }

  lemma DecidedLonger(cap: Capacity, requests: seq<Resources>, limit: nat, v: seq<bool>, n: nat, i: nat)
    requires |v| == |requests| && i < n <= |v|
    ensures RightlyDecided(cap, requests, limit, v, i) <==> RightlyDecided(cap, requests[..n], limit, v[..n], i)
  {
    assert v[..n][..i] == v[..i] && requests[..n][..i] == requests[..i];
  }

  /** First fit leaves no choice. */
  lemma {:induction false} FirstFitUnique(cap: Capacity, requests: seq<Resources>, limit: nat, v: seq<bool>, w: seq<bool>)
    requires FirstFit(cap, requests, limit, v) && FirstFit(cap, requests, limit, w)
    ensures v == w
  {
    if v != [] {
      var n := |v| - 1;
      FirstFitPrefix(cap, requests, limit, v, n);
      FirstFitPrefix(cap, requests, limit, w, n);
      FirstFitUnique(cap, requests[..n], limit, v[..n], w[..n]);
      assert RightlyDecided(cap, requests, limit, v, n) && RightlyDecided(cap, requests, limit, w, n);
      assert v == v[..n] + [v[n]] && w == w[..n] + [w[n]];
    }
  }

  lemma FirstFitPrefix(cap: Capacity, requests: seq<Resources>, limit: nat, v: seq<bool>, n: nat)
    requires FirstFit(cap, requests, limit, v) && n <= |v|
    ensures FirstFit(cap, requests[..n], limit, v[..n])
  {
    forall i | 0 <= i < n ensures RightlyDecided(cap, requests[..n], limit, v[..n], i) {
      DecidedLonger(cap, requests, limit, v, n, i);
    }
  }

  lemma {:induction false} LeftShrinks(cap: Capacity, requests: seq<Resources>, v: seq<bool>, i: nat)
    requires |requests| == |v| && i <= |v|
    requires forall k :: 0 <= k < |requests| ==> NOTHING.Within(requests[k])
    ensures Left(cap, requests[..i], v[..i]).inUse.Within(Left(cap, requests, v).inUse)
    ensures Count(v[..i]) <= Count(v)
    decreases |v|
  {
    if i < |v| {
      var n := |v| - 1;
      LeftShrinks(cap, requests[..n], v[..n], i);
      assert requests[..n][..i] == requests[..i] && v[..n][..i] == v[..i];
    } else {
      assert requests[..i] == requests && v[..i] == v;
    }
  }

  /** When the pass is over, either the admission cap was reached or nobody left waiting fits. */
  lemma FirstFitExhausts(cap: Capacity, requests: seq<Resources>, limit: nat, v: seq<bool>, i: nat)
    requires FirstFit(cap, requests, limit, v) && i < |v| && !v[i]
    requires forall k :: 0 <= k < |requests| ==> NOTHING.Within(requests[k])
    ensures Count(v) >= limit || !Fits(Left(cap, requests, v), requests[i])
  {
    assert RightlyDecided(cap, requests, limit, v, i);
    LeftShrinks(cap, requests, v, i);
  }

  // ----- admission -----------------------------------------------------------------------------------

  datatype Reason = Available | InsufficientCpu | InsufficientMemory | InsufficientGpu | ExceedsCluster

  /** The diagnostic recorded with a WAITING decision. */
  function WhichDimension(cap: Capacity, r: Resources): Reason {
    if cap.inUse.cpu + r.cpu > cap.total.cpu then
      if r.cpu > cap.total.cpu then ExceedsCluster else InsufficientCpu
    else if cap.inUse.memoryMb + r.memoryMb > cap.total.memoryMb then
      if r.memoryMb > cap.total.memoryMb then ExceedsCluster else InsufficientMemory
    else if cap.inUse.gpu + r.gpu > cap.total.gpu then
      if r.gpu > cap.total.gpu then ExceedsCluster else InsufficientGpu
    else Available
  }

  /** The diagnostic agrees with the atomic check, and blames the cluster only for requests that
  could not be met even when it is idle. */
  lemma DiagnosticSound(cap: Capacity, r: Resources)
    requires NOTHING.Within(cap.inUse)
    ensures WhichDimension(cap, r) == Available <==> Fits(cap, r)
    ensures WhichDimension(cap, r) == ExceedsCluster ==> !Fits(cap.(inUse := NOTHING), r)
    ensures WhichDimension(cap, r) == Available <==>
      && cap.inUse.cpu + r.cpu <= cap.total.cpu && cap.inUse.memoryMb + r.memoryMb <= cap.total.memoryMb
      && cap.inUse.gpu + r.gpu <= cap.total.gpu
    // the first dimension short, in the order cpu, memory, gpu, decides
    ensures WhichDimension(cap, r) == InsufficientCpu <==> cap.inUse.cpu + r.cpu > cap.total.cpu >= r.cpu
    ensures WhichDimension(cap, r) == InsufficientMemory <==>
      cap.inUse.cpu + r.cpu <= cap.total.cpu && cap.inUse.memoryMb + r.memoryMb > cap.total.memoryMb >= r.memoryMb
    ensures WhichDimension(cap, r) == InsufficientGpu <==>
      && cap.inUse.cpu + r.cpu <= cap.total.cpu && cap.inUse.memoryMb + r.memoryMb <= cap.total.memoryMb
      && cap.inUse.gpu + r.gpu > cap.total.gpu >= r.gpu
  {
  }

  predicate Eligible(db: Db, j: JobId, now: Time) {
    j in db.jobs && db.jobs[j].status.Queued? && !db.jobs[j].cancelRequested && Due(db.jobs[j], now)
  }

  datatype Decision = Admitted | Waiting | IntegrityError

  /** One admission without interference; `j` was ranked at attempt `a`. */
  method TryAdmit(db: Database, cfg: Settings, j: JobId, a: nat, now: Time) returns (d: Decision)
    modifies db`capacity, db`reservations, db`outbox
    ensures d.Admitted? ==> Eligible(old(db.View()), j, now) && Admits(cfg, old(db.View()), j, a)
    ensures db.View() == if d.Admitted? then AdmitTx(cfg, old(db.View()), j, a) else old(db.View())
    ensures !Eligible(old(db.View()), j, now) ==> d.Waiting?
    ensures Eligible(old(db.View()), j, now) ==>
      if HasActive(old(db.View()), Key(j, a + 1)) || !Fits(old(db.capacity), Request(cfg, old(db.jobs)[j]))
      then d.Waiting?
      else if Key(j, a + 1) in old(db.reservations) then d.IntegrityError?
      else d.Admitted?
    // the same, figure by figure
    ensures d.Waiting? || (j in old(db.jobs) && old(db.jobs)[j].status == Queued && !old(db.jobs)[j].cancelRequested
                           && (old(db.jobs)[j].nextRetry.Some? ==> old(db.jobs)[j].nextRetry.value <= now))
    ensures j in old(db.jobs) && old(db.jobs)[j].status == Queued && !old(db.jobs)[j].cancelRequested
            && (old(db.jobs)[j].nextRetry.Some? ==> old(db.jobs)[j].nextRetry.value <= now)
            && Key(j, a + 1) !in old(db.reservations) ==>
      var o := old(db.jobs)[j].overrides;
      d.Admitted? <==>
        && old(db.capacity).inUse.cpu + (if o.cpu.Some? then o.cpu.value else cfg.defaultRequest.cpu) <= old(db.capacity).total.cpu
        && old(db.capacity).inUse.memoryMb + (if o.memoryMb.Some? then o.memoryMb.value else cfg.defaultRequest.memoryMb)
             <= old(db.capacity).total.memoryMb
        && old(db.capacity).inUse.gpu + (if o.gpu.Some? then o.gpu.value else cfg.defaultRequest.gpu) <= old(db.capacity).total.gpu
    ensures d.Admitted? ==>
      var o, key := old(db.jobs)[j].overrides, Key(j, a + 1);
      && key !in old(db.reservations) && key in db.reservations
      && db.reservations == old(db.reservations)[key := db.reservations[key]] && db.reservations[key].active
      && db.reservations[key].held.cpu == (if o.cpu.Some? then o.cpu.value else cfg.defaultRequest.cpu)
      && db.reservations[key].held.memoryMb == (if o.memoryMb.Some? then o.memoryMb.value else cfg.defaultRequest.memoryMb)
      && db.reservations[key].held.gpu == (if o.gpu.Some? then o.gpu.value else cfg.defaultRequest.gpu)
      && db.capacity.total == old(db.capacity).total
      && db.capacity.inUse.cpu == old(db.capacity).inUse.cpu + db.reservations[key].held.cpu
      && db.capacity.inUse.memoryMb == old(db.capacity).inUse.memoryMb + db.reservations[key].held.memoryMb
      && db.capacity.inUse.gpu == old(db.capacity).inUse.gpu + db.reservations[key].held.gpu
      && db.outbox == old(db.outbox) + [OutboxRow(j, None)]
    ensures !d.Admitted? ==> db.capacity == old(db.capacity) && db.reservations == old(db.reservations) && db.outbox == old(db.outbox)
  {
    if j !in db.jobs {
      return Waiting;
    }
    var current, key := db.jobs[j], Key(j, a + 1);
    if current.status != Queued || current.cancelRequested {
      return Waiting;
    }
    if current.nextRetry.Some? && current.nextRetry.value > now {
      return Waiting;
    }
    if key in db.reservations && db.reservations[key].active {
      return Waiting;
    }
    var before := db.capacity;
    var r := Request(cfg, current);
    var reserved := db.TryReserve(r);
    if !reserved {
      return Waiting;
    }
    var inserted := db.InsertReservation(key, r);
    if !inserted {
      db.capacity := before;  // rollback
      return IntegrityError;
    }
    db.InsertEvent(j);
    d := Admitted;
  }

  // ----- one pass ------------------------------------------------------------------------------------

  ghost function Candidates(cfg: Settings, db: Db, now: Time): set<Candidate> {
    set j | j in db.jobs && Schedulable(db, j, now) :: CandidateOf(cfg, j, db.jobs[j], now)
  }

  method ListSchedulable(db: Database, now: Time) returns (ids: set<JobId>)
    ensures forall j :: j in ids <==> Schedulable(db.View(), j, now)
    ensures forall j :: j in ids <==>
      && j in db.jobs && db.jobs[j].status == Queued && !db.jobs[j].cancelRequested
      && (db.jobs[j].nextRetry.Some? ==> db.jobs[j].nextRetry.value <= now)
      && !(Key(j, db.jobs[j].attempt + 1) in db.reservations && db.reservations[Key(j, db.jobs[j].attempt + 1)].active)
  {
    var jobs, reservations := db.jobs, db.reservations;
    ids := set j | j in jobs && jobs[j].status == Queued && !jobs[j].cancelRequested && Due(jobs[j], now)
                    && !(Key(j, jobs[j].attempt + 1) in reservations && reservations[Key(j, jobs[j].attempt + 1)].active);
  }

  lemma RankedPlainly(cfg: Settings, db: Db, now: Time, ranked: seq<Candidate>)
    requires Ranked(ranked) && multiset(ranked) == multiset(Candidates(cfg, db, now))
    ensures forall i :: 0 <= i < |ranked| ==>
      && ranked[i].job in db.jobs && ranked[i].createdAt == db.jobs[ranked[i].job].createdAt
      && ranked[i].effective == Least(db.jobs[ranked[i].job].priority as real
                                        + cfg.agingRate * (now - db.jobs[ranked[i].job].createdAt), cfg.priorityCeiling as real)
    ensures forall i, k :: 0 <= i < k < |ranked| ==>
      ranked[i].effective > ranked[k].effective
      || (ranked[i].effective == ranked[k].effective && ranked[i].createdAt <= ranked[k].createdAt)
  {
    RankedFacts(cfg, db, now, ranked);
    assert forall i, k :: 0 <= i < k < |ranked| ==> !Ahead(ranked[k], ranked[i]);
  }

  /** The schedulable jobs with their sort keys, in the order the query returned them. */
  method Keyed(db: Database, cfg: Settings, now: Time) returns (list: seq<Candidate>)
    ensures multiset(list) == multiset(Candidates(cfg, db.View(), now))
  {
    list := [];
    var jobs := db.jobs;
    var todo := ListSchedulable(db, now);
    ghost var all := todo;
    while todo != {}
      invariant todo <= all
      invariant multiset(list) == multiset(set j | j in all - todo :: CandidateOf(cfg, j, jobs[j], now))
      decreases todo
    {
      var j :| j in todo;
      var c := CandidateOf(cfg, j, jobs[j], now);
      ghost var listed := set i | i in all - todo :: CandidateOf(cfg, i, jobs[i], now);
      assert c !in listed;
      assert (set i | i in all - (todo - {j}) :: CandidateOf(cfg, i, jobs[i], now)) == listed + {c};
      list, todo := list + [c], todo - {j};
    }
    assert (set j | j in all - todo :: CandidateOf(cfg, j, jobs[j], now)) == Candidates(cfg, db.View(), now);
  }

  /** The schedulable jobs, each once, in ranking order. */
  method RankCandidates(db: Database, cfg: Settings, now: Time) returns (ranked: seq<Candidate>)
    ensures Ranked(ranked) && multiset(ranked) == multiset(Candidates(cfg, db.View(), now))
    ensures forall i :: 0 <= i < |ranked| ==>
      && ranked[i].job in db.jobs && ranked[i].createdAt == db.jobs[ranked[i].job].createdAt
      && ranked[i].effective == Least(db.jobs[ranked[i].job].priority as real
                                        + cfg.agingRate * (now - db.jobs[ranked[i].job].createdAt), cfg.priorityCeiling as real)
    ensures forall i, k :: 0 <= i < k < |ranked| ==>
      ranked[i].effective > ranked[k].effective
      || (ranked[i].effective == ranked[k].effective && ranked[i].createdAt <= ranked[k].createdAt)
  {
    var list := Keyed(db, cfg, now);
    ranked := Sort(list);
    RankedPlainly(cfg, db.View(), now, ranked);
  }

  lemma RankedOnce(ranked: seq<Candidate>, all: set<Candidate>)
    requires multiset(ranked) == multiset(all)
    ensures forall c :: c in ranked <==> c in all
    ensures forall i, k :: 0 <= i < k < |ranked| ==> ranked[i] != ranked[k]
  {
    forall c ensures c in ranked <==> c in all {
      assert c in ranked <==> c in multiset(ranked);
    }
    forall i, k | 0 <= i < k < |ranked| ensures ranked[i] != ranked[k] {
      assert ranked == ranked[..k] + [ranked[k]] + ranked[k + 1..];
      assert multiset(ranked)[ranked[k]] <= 1;
      assert ranked[i] == ranked[..k][i];
    }
  }

  ghost predicate DistinctJobs(ranked: seq<Candidate>) {
    forall i, k :: 0 <= i < k < |ranked| ==> ranked[i].job != ranked[k].job
  }

  function Requests(cfg: Settings, jobs: map<JobId, Job>, ranked: seq<Candidate>): (r: seq<Resources>)
    requires forall i :: 0 <= i < |ranked| ==> ranked[i].job in jobs
  {
    seq(|ranked|, i requires 0 <= i < |ranked| => Request(cfg, jobs[ranked[i].job]))
  }

  /** The admitted jobs, in ranking order. */
  function Admittees(ranked: seq<Candidate>, verdict: seq<bool>): seq<JobId>
    requires |verdict| <= |ranked|
  {
    var n := |verdict| - 1;
    if verdict == [] then []
    else Admittees(ranked, verdict[..n]) + if verdict[n] then [ranked[n].job] else []
  }

  function EventsFor(ids: seq<JobId>): seq<OutboxRow> {
    seq(|ids|, i requires 0 <= i < |ids| => OutboxRow(ids[i], None))
  }

  /** `db'` is `db` with the verdict carried out: capacity taken, one ACTIVE reservation and one
  event per admitted job, nothing else. */
  ghost predicate CarriedOut(cfg: Settings, db: Db, db': Db, ranked: seq<Candidate>, verdict: seq<bool>)
    requires |verdict| <= |ranked| && forall i :: 0 <= i < |ranked| ==> ranked[i].job in db.jobs
  {
    var ids := Admittees(ranked, verdict);
    && db' == db.(capacity := db'.capacity, reservations := db'.reservations, outbox := db'.outbox)
    && db'.capacity == Left(db.capacity, Requests(cfg, db.jobs, ranked)[..|verdict|], verdict)
    && db'.outbox == db.outbox + EventsFor(ids)
    && (forall key :: key in db'.reservations <==>
          key in db.reservations || (key.job in ids && key.job in db.jobs && key == NextKey(db, key.job)))
    && (forall key | key in db'.reservations ::
          db'.reservations[key] ==
          if key in db.reservations then db.reservations[key] else Reservation(Request(cfg, db.jobs[key.job]), true))
  }

  lemma AdmitteesAreRanked(ranked: seq<Candidate>, verdict: seq<bool>, j: JobId)
    requires |verdict| <= |ranked| && j in Admittees(ranked, verdict)
    ensures exists i :: 0 <= i < |verdict| && ranked[i].job == j
  {
    var n := |verdict| - 1;
    if j in Admittees(ranked, verdict[..n]) {
      AdmitteesAreRanked(ranked, verdict[..n], j);
      var i :| 0 <= i < |verdict[..n]| && ranked[i].job == j;
    }
  }

  /** Extending the verdict by one candidate is one admission transaction, or none. */
  lemma CarryOutOneMore(cfg: Settings, db: Db, mid: Db, ranked: seq<Candidate>, v: seq<bool>, yes: bool)
    requires |v| < |ranked| && DistinctJobs(ranked) && forall i :: 0 <= i < |ranked| ==> ranked[i].job in db.jobs
    requires forall i :: 0 <= i < |ranked| ==> NextKey(db, ranked[i].job) !in db.reservations
    requires CarriedOut(cfg, db, mid, ranked, v)
    ensures NextKey(db, ranked[|v|].job) !in mid.reservations
    ensures Requests(cfg, db.jobs, ranked)[|v|] == Request(cfg, db.jobs[ranked[|v|].job])
    ensures yes ==> Fits(mid.capacity, Requests(cfg, db.jobs, ranked)[|v|]) ==>
      CarriedOut(cfg, db, AdmitTx(cfg, mid, ranked[|v|].job, db.jobs[ranked[|v|].job].attempt), ranked, v + [true])
    ensures !yes ==> CarriedOut(cfg, db, mid, ranked, v + [false])
  {
    var n, requests := |v|, Requests(cfg, db.jobs, ranked);
    var j := ranked[n].job;
    if j in Admittees(ranked, v) {
      AdmitteesAreRanked(ranked, v, j);
    }
    var v' := v + [yes];
    assert v'[..n] == v && requests[..n + 1][..n] == requests[..n];
    if yes {
      assert EventsFor(Admittees(ranked, v) + [j]) == EventsFor(Admittees(ranked, v)) + [OutboxRow(j, None)];
    }
  }

  lemma CountOneMore(v: seq<bool>, yes: bool)
    ensures Count(v + [yes]) == Count(v) + if yes then 1 else 0
  {
    assert (v + [yes])[..|v|] == v;
  }

  lemma FirstFitOneMore(cap: Capacity, requests: seq<Resources>, limit: nat, v: seq<bool>, yes: bool)
    requires |v| < |requests| && FirstFit(cap, requests[..|v|], limit, v)
    requires yes <==> Count(v) < limit && Fits(Left(cap, requests[..|v|], v), requests[|v|])
    ensures FirstFit(cap, requests[..|v| + 1], limit, v + [yes])
    ensures Count(v + [yes]) == Count(v) + if yes then 1 else 0
  {
    var n, v', r' := |v|, v + [yes], requests[..|v| + 1];
    CountOneMore(v, yes);
    assert v'[..n] == v && r'[..n] == requests[..n];
    forall i | 0 <= i <= n ensures RightlyDecided(cap, r', limit, v', i) {
      if i < n {
        DecidedLonger(cap, r', limit, v', n, i);
      }
    }
  }

  lemma RankedFacts(cfg: Settings, db: Db, now: Time, ranked: seq<Candidate>)
    requires multiset(ranked) == multiset(Candidates(cfg, db, now))
    ensures DistinctJobs(ranked)
    ensures forall i :: 0 <= i < |ranked| ==> Schedulable(db, ranked[i].job, now)
    ensures forall i :: 0 <= i < |ranked| ==>
      ranked[i].job in db.jobs && ranked[i] == CandidateOf(cfg, ranked[i].job, db.jobs[ranked[i].job], now)
  {
    RankedOnce(ranked, Candidates(cfg, db, now));
    forall i | 0 <= i < |ranked|
      ensures Schedulable(db, ranked[i].job, now)
      ensures ranked[i] == CandidateOf(cfg, ranked[i].job, db.jobs[ranked[i].job], now)
    {
      assert ranked[i] in ranked;
    }
  }

  /** The loop of the pass over an already ranked list. */
  method AdmitRanked(db: Database, cfg: Settings, list: seq<Candidate>, now: Time)
    returns (admitted: nat, waiting: nat, ghost verdict: seq<bool>)
    requires DistinctJobs(list) && forall i :: 0 <= i < |list| ==> list[i].job in db.jobs
    requires forall i :: 0 <= i < |list| ==> Schedulable(db.View(), list[i].job, now)
    requires forall i :: 0 <= i < |list| ==> NextKey(db.View(), list[i].job) !in db.reservations
    modifies db`capacity, db`reservations, db`outbox
    ensures FirstFit(old(db.capacity), Requests(cfg, old(db.jobs), list), cfg.maxAdmissionsPerPass, verdict)
    ensures CarriedOut(cfg, old(db.View()), db.View(), list, verdict)
    ensures admitted == Count(verdict) && admitted + waiting == |list| && admitted <= cfg.maxAdmissionsPerPass
  {
    ghost var before := db.View();
    ghost var requests := Requests(cfg, before.jobs, list);
    verdict, admitted, waiting := [], 0, 0;
    for n := 0 to |list|
      invariant |verdict| == n && admitted == Count(verdict) && admitted + waiting == n && admitted <= cfg.maxAdmissionsPerPass
      invariant db.jobs == before.jobs
      invariant FirstFit(before.capacity, requests[..n], cfg.maxAdmissionsPerPass, verdict)
      invariant CarriedOut(cfg, before, db.View(), list, verdict)
    {
      ghost var mid := db.View();
      var yes := false;
      if admitted < cfg.maxAdmissionsPerPass {
        var d := TryAdmit(db, cfg, list[n].job, db.jobs[list[n].job].attempt, now);
        yes := d.Admitted?;
      }
      CarryOutOneMore(cfg, before, mid, list, verdict, yes);
      FirstFitOneMore(before.capacity, requests, cfg.maxAdmissionsPerPass, verdict, yes);
      verdict := verdict + [yes];
      if yes {
        admitted := admitted + 1;
      } else {
        waiting := waiting + 1;
      }
    }
    assert requests[..|list|] == requests;
  }

  lemma RequestsNonNegative(cfg: Settings, jobs: map<JobId, Job>, ranked: seq<Candidate>)
    requires ValidSettings(cfg) && forall i :: 0 <= i < |ranked| ==> ranked[i].job in jobs
    ensures forall i :: 0 <= i < |ranked| ==> NOTHING.Within(Requests(cfg, jobs, ranked)[i])
  {
  }

  /** A pass without interference is exactly greedy first fit over the ranked list, and when it is
  over the admission cap was reached or no waiting candidate fits what is left. */
  method RunOnce(db: Database, cfg: Settings, now: Time)
    returns (admitted: nat, waiting: nat, ghost ranked: seq<Candidate>, ghost verdict: seq<bool>)
    requires ValidSettings(cfg)
    requires forall j :: Schedulable(db.View(), j, now) ==> NextKey(db.View(), j) !in db.reservations
    modifies db`capacity, db`reservations, db`outbox
    ensures Ranked(ranked) && multiset(ranked) == multiset(Candidates(cfg, old(db.View()), now))
    ensures forall i :: 0 <= i < |ranked| ==> ranked[i].job in old(db.jobs)
    ensures FirstFit(old(db.capacity), Requests(cfg, old(db.jobs), ranked), cfg.maxAdmissionsPerPass, verdict)
    ensures CarriedOut(cfg, old(db.View()), db.View(), ranked, verdict)
    ensures admitted == Count(verdict) && admitted + waiting == |ranked|
    ensures |verdict| == |ranked| && admitted == |set i | 0 <= i < |verdict| && verdict[i]|
    ensures admitted <= cfg.maxAdmissionsPerPass
    ensures forall i :: 0 <= i < |ranked| && !verdict[i] ==>
      admitted >= cfg.maxAdmissionsPerPass || !Fits(db.capacity, Request(cfg, old(db.jobs)[ranked[i].job]))
  {
    ghost var before := db.View();
    var list := RankCandidates(db, cfg, now);
    ranked := list;
    RankedFacts(cfg, before, now, list);
    admitted, waiting, verdict := AdmitRanked(db, cfg, list, now);
    ghost var requests := Requests(cfg, before.jobs, list);
    RequestsNonNegative(cfg, before.jobs, list);
    CountIs(verdict);
    assert requests[..|verdict|] == requests;
    forall i | 0 <= i < |ranked| && !verdict[i]
      ensures admitted >= cfg.maxAdmissionsPerPass || !Fits(db.capacity, Request(cfg, before.jobs[ranked[i].job]))
    {
      FirstFitExhausts(before.capacity, requests, cfg.maxAdmissionsPerPass, verdict, i);
    }
  }
}
