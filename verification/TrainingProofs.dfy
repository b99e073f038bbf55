/** Crash/resume exactness and the output guarantee, over every run of the training system. */
module TrainingProofs {
  import opened Types
  import opened Transactions
  import opened Protocol
  import opened Fencing
  import opened Invariants
  import opened Artifacts
  import opened Trainer
  import opened TrainingRuns

  ghost predicate CheckpointOk(wd: World, s: Training, c: CheckpointKey)
    requires c in s.checkpoints
  {
    && c.run in s.runs
    && c.step < s.runs[c.run].config.maxSteps
    && s.checkpoints[c].baseModel == s.runs[c.run].baseModel && s.checkpoints[c].format == SUPPORTED_FORMAT
    && UploadedAs(wd, s.depot, s.checkpoints[c].artifact,
                  CheckpointFile(Iterate(s.runs[c.run].config, c.step), c.step, c.run, c.attempt))
  }

  function FinalModel(run: TrainingRun, j: JobId, k: nat): Blob {
    ModelFile(Iterate(run.config, run.config.maxSteps), run.config.maxSteps, j, k)
  }

  ghost predicate OutputOk(wd: World, s: Training, j: JobId)
    requires j in s.outputs
  {
    j in s.runs && UploadedAs(wd, s.depot, s.outputs[j].artifact, FinalModel(s.runs[j], j, s.outputs[j].attempt))
  }

  ghost predicate Delivered(s: Training, j: JobId, k: nat) {
    j in s.outputs && s.outputs[j].attempt == k
  }

  ghost predicate SupervisorOk(s: Training, key: Key)
    requires key in s.supervisors
  {
    var sup := s.supervisors[key];
    && key.job in s.runs && key.job in s.sys.db.jobs && key.attempt <= s.sys.db.jobs[key.job].attempt
    && (sup.pending == [] || Script(s.runs[key.job].config, key.job, key.attempt, sup.pending))
    && (sup.producedFinal && Fence(s.sys.db, key.job, sup.worker, key.attempt) ==> Delivered(s, key.job, key.attempt))
  }

  ghost predicate SucceededOk(s: Training, j: JobId)
    requires j in s.runs
  {
    j in s.sys.db.jobs && (s.sys.db.jobs[j].status.Succeeded? ==> Delivered(s, j, s.sys.db.jobs[j].attempt))
  }

  ghost predicate TablesOk(wd: World, s: Training) {
    && (forall c :: c in s.checkpoints ==> CheckpointOk(wd, s, c))
    && (forall j :: j in s.outputs ==> OutputOk(wd, s, j))
  }

  ghost predicate TrainingInv(wd: World, s: Training) {
    && Inv(wd.cfg, s.sys)
    && DepotOk(wd.hash, s.depot)
    && TablesOk(wd, s)
    && (forall key :: key in s.supervisors ==> SupervisorOk(s, key))
    && (forall j :: j in s.runs ==> SucceededOk(s, j))
  }

  ghost predicate TrainingStep(wd: World, s: Training, e: TrainingEvent, now: Time, t: Training) {
    s.sys.clock <= now && TrainingEnabled(wd, s, e, now) && t == TrainingAfter(wd, s, e, now)
  }

  lemma TablesCarry(wd: World, s: Training, t: Training)
    requires TablesOk(wd, s) && t.checkpoints == s.checkpoints && t.outputs == s.outputs
    requires forall j :: j in s.runs ==> j in t.runs && t.runs[j] == s.runs[j]
    requires forall i :: i in s.depot.rows ==> i in t.depot.rows && RowLater(s.depot.rows[i], t.depot.rows[i])
    ensures TablesOk(wd, t)
  {
    forall c | c in t.checkpoints ensures CheckpointOk(wd, t, c) {
      assert CheckpointOk(wd, s, c);
    }
    forall j | j in t.outputs ensures OutputOk(wd, t, j) {
      assert OutputOk(wd, s, j);
    }
  }

  // ----- job events ----------------------------------------------------------------------------------

  /** A fence that holds after a step of the job protocol held before it. */
  lemma FenceHeldBefore(wd: World, s: Sys, en: Entry, t: Sys, j: JobId, w: WorkerId, k: nat)
    requires Step(wd.cfg, s, en, t) && j in s.db.jobs && k <= s.db.jobs[j].attempt && Fence(t.db, j, w, k)
    ensures Fence(s.db, j, w, k)
  {
    StepLater(wd.cfg, s.db, en.event, en.now, j);
  }

  lemma SupervisorAfterJobEvent(wd: World, s: Training, ev: Event, now: Time, t: Training, key: Key)
    requires TrainingInv(wd, s) && TrainingStep(wd, s, JobEvent(ev), now, t) && key in t.supervisors
    ensures SupervisorOk(t, key)
  {
    assert SupervisorOk(s, key);
    StepLater(wd.cfg, s.sys.db, ev, now, key.job);
    var w := s.supervisors[key].worker;
    if Fence(t.sys.db, key.job, w, key.attempt) {
      FenceHeldBefore(wd, s.sys, Entry(ev, now), t.sys, key.job, w, key.attempt);
    }
  }

  lemma SucceededAfterJobEvent(wd: World, s: Training, ev: Event, now: Time, t: Training, j: JobId)
    requires TrainingStep(wd, s, JobEvent(ev), now, t) && j in t.runs && SucceededOk(s, j)
    requires forall key :: key in s.supervisors ==> SupervisorOk(s, key)
    ensures SucceededOk(t, j)
  {
    BecomesSucceeded(wd.cfg, s.sys.db, ev, now, j);
    if t.sys.db.jobs[j].status.Succeeded? && !s.sys.db.jobs[j].status.Succeeded? {
      assert SupervisorOk(s, Key(j, ev.attempt));
    }
  }

  lemma JobEventKeeps(wd: World, s: Training, ev: Event, now: Time, t: Training)
    requires ValidSettings(wd.cfg) && TrainingInv(wd, s) && TrainingStep(wd, s, JobEvent(ev), now, t)
    ensures TrainingInv(wd, t)
  {
    InvStep(wd.cfg, s.sys, Entry(ev, now), t.sys);
    TablesCarry(wd, s, t);
    forall key | key in t.supervisors ensures SupervisorOk(t, key) {
      SupervisorAfterJobEvent(wd, s, ev, now, t, key);
    }
    forall j | j in t.runs ensures SucceededOk(t, j) {
      assert SucceededOk(s, j);
      SucceededAfterJobEvent(wd, s, ev, now, t, j);
    }
  }

  // ----- artifact events, new runs -----------------------------------------------------------------------

  lemma DepotEventKeeps(wd: World, s: Training, change: ArtifactEvent, now: Time, t: Training)
    requires TrainingInv(wd, s) && TrainingStep(wd, s, DepotEvent(change), now, t)
    ensures TrainingInv(wd, t)
  {
    DepotOkStep(wd.hash, wd.tm, s.depot, change, now, t.depot);
    DepotGrows(wd.hash, wd.tm, s.depot, change, now, t.depot);
    TablesCarry(wd, s, t);
    forall key | key in t.supervisors ensures SupervisorOk(t, key) {
      assert SupervisorOk(s, key);
    }
    forall j | j in t.runs ensures SucceededOk(t, j) {
      assert SucceededOk(s, j);
    }
  }

  lemma CreateRunKeeps(wd: World, s: Training, j: JobId, run: TrainingRun, now: Time, t: Training)
    requires TrainingInv(wd, s) && TrainingStep(wd, s, CreateRun(j, run), now, t)
    ensures TrainingInv(wd, t)
  {
    TablesCarry(wd, s, t);
    forall key | key in t.supervisors ensures SupervisorOk(t, key) {
      assert SupervisorOk(s, key);
    }
    forall i | i in t.runs ensures SucceededOk(t, i) {
      assert i != j ==> SucceededOk(s, i);
    }
  }

  // ----- supervisors ---------------------------------------------------------------------------------------

  /** A trusted checkpoint, from whichever attempt, holds the iterate of its step, so a trainer
  resuming from it is where an uninterrupted run would be. */
  lemma TrustedCheckpointIsExact(wd: World, s: Training, c: CheckpointKey)
    requires forall x, y :: wd.hash(x) == wd.hash(y) ==> x == y
    requires TrainingInv(wd, s) && c in s.checkpoints
    ensures c.run in s.runs
    ensures ResumeFile(s, c) == CheckpointFile(Iterate(s.runs[c.run].config, c.step), c.step, c.run, c.attempt)
    ensures c.step <= s.runs[c.run].config.maxSteps
  {
    assert CheckpointOk(wd, s, c);
    var h := s.depot.rows[s.checkpoints[c].artifact].contentHash;
    assert h in s.depot.objects && wd.hash(s.depot.objects[h]) == h;
  }

  lemma BeginKeeps(wd: World, s: Training, j: JobId, k: nat, w: WorkerId, resume: Option<CheckpointKey>, now: Time, t: Training)
    requires forall x, y :: wd.hash(x) == wd.hash(y) ==> x == y
    requires TrainingInv(wd, s) && TrainingStep(wd, s, BeginTraining(j, k, w, resume), now, t)
    ensures TrainingInv(wd, t)
  {
    var (param, step) := StartFrom(s, resume);
    if resume.Some? {
      TrustedCheckpointIsExact(wd, s, resume.value);
    }
    ResumeIsExact(s.runs[j].config, j, k, step);
    assert RunnerOk(s.sys.db, Runner(j, k, w, true));
    TablesCarry(wd, s, t);
    forall key | key in t.supervisors ensures SupervisorOk(t, key) {
      assert key != Key(j, k) ==> SupervisorOk(s, key);
    }
    forall i | i in t.runs ensures SucceededOk(t, i) {
      assert SucceededOk(s, i);
    }
  }

  lemma ScriptTail(tc: TrainConfig, run: JobId, attempt: nat, files: seq<Blob>)
    requires Script(tc, run, attempt, files)
    ensures Exact(tc, run, attempt, files[0])
    ensures files[0].ModelFile? ==> files[1..] == []
    ensures !files[0].ModelFile? ==> Script(tc, run, attempt, files[1..])
  {
  }

  predicate Handling(wd: World, s: Training, j: JobId, k: nat, i: ArtifactId) {
    && j in s.runs && Key(j, k) in s.supervisors && s.supervisors[Key(j, k)].pending != []
    && UploadedAs(wd, s.depot, i, s.supervisors[Key(j, k)].pending[0])
    && Exact(s.runs[j].config, j, k, s.supervisors[Key(j, k)].pending[0])
  }

  /** Handling a file never rewrites a registration and touches no other supervisor. */
  lemma HandleFrame(s: Training, j: JobId, k: nat, i: ArtifactId, t: Training)
    requires j in s.runs && Key(j, k) in s.supervisors && s.supervisors[Key(j, k)].pending != []
    requires t == HandleFileTx(s, j, k, i)
    ensures t.sys == s.sys && t.depot == s.depot && t.runs == s.runs
    ensures forall c :: c in s.checkpoints ==> c in t.checkpoints && t.checkpoints[c] == s.checkpoints[c]
    ensures forall o :: o in s.outputs ==> o in t.outputs && t.outputs[o] == s.outputs[o]
    ensures t.supervisors.Keys == s.supervisors.Keys
    ensures forall key :: key in t.supervisors && key != Key(j, k) ==> t.supervisors[key] == s.supervisors[key]
  {
  }

  lemma HandledCheckpoint(wd: World, s: Training, j: JobId, k: nat, i: ArtifactId, t: Training, c: CheckpointKey)
    requires Handling(wd, s, j, k, i) && t == HandleFileTx(s, j, k, i)
    requires c in t.checkpoints && c !in s.checkpoints
    ensures CheckpointOk(wd, t, c)
  {
  }

  lemma HandledOutput(wd: World, s: Training, j: JobId, k: nat, i: ArtifactId, t: Training, o: JobId)
    requires Handling(wd, s, j, k, i) && t == HandleFileTx(s, j, k, i)
    requires o in t.outputs && o !in s.outputs
    ensures OutputOk(wd, t, o)
  {
  }

  lemma HandledSupervisor(wd: World, s: Training, j: JobId, k: nat, i: ArtifactId, t: Training)
    requires Handling(wd, s, j, k, i) && t == HandleFileTx(s, j, k, i)
    requires SupervisorOk(s, Key(j, k)) && Key(j, k) in t.supervisors
    ensures SupervisorOk(t, Key(j, k))
  {
    ScriptTail(s.runs[j].config, j, k, s.supervisors[Key(j, k)].pending);
    HandleFrame(s, j, k, i, t);
  }

  lemma HandleKeepsTables(wd: World, s: Training, j: JobId, k: nat, i: ArtifactId, t: Training)
    requires Handling(wd, s, j, k, i) && t == HandleFileTx(s, j, k, i)
    requires TablesOk(wd, s)
    ensures TablesOk(wd, t)
  {
    HandleFrame(s, j, k, i, t);
    forall c | c in t.checkpoints ensures CheckpointOk(wd, t, c) {
      if c in s.checkpoints {
        assert CheckpointOk(wd, s, c);
      } else {
        HandledCheckpoint(wd, s, j, k, i, t, c);
      }
    }
    forall o | o in t.outputs ensures OutputOk(wd, t, o) {
      if o in s.outputs {
        assert OutputOk(wd, s, o);
      } else {
        HandledOutput(wd, s, j, k, i, t, o);
      }
    }
  }

  lemma HandleKeeps(wd: World, s: Training, j: JobId, k: nat, i: ArtifactId, now: Time, t: Training)
    requires TrainingInv(wd, s) && TrainingStep(wd, s, HandleFile(j, k, i), now, t)
    ensures TrainingInv(wd, t)
  {
    assert SupervisorOk(s, Key(j, k));
    ScriptTail(s.runs[j].config, j, k, s.supervisors[Key(j, k)].pending);
    HandleKeepsTables(wd, s, j, k, i, t);
    HandleFrame(s, j, k, i, t);
    forall key | key in t.supervisors ensures SupervisorOk(t, key) {
      assert SupervisorOk(s, key);
      if key == Key(j, k) {
        HandledSupervisor(wd, s, j, k, i, t);
      }
    }
    forall o | o in t.runs ensures SucceededOk(t, o) {
      assert SucceededOk(s, o);
    }
  }

  lemma TrainingInvStep(wd: World, s: Training, e: TrainingEvent, now: Time, t: Training)
    requires ValidSettings(wd.cfg) && forall x, y :: wd.hash(x) == wd.hash(y) ==> x == y
    requires TrainingInv(wd, s) && TrainingStep(wd, s, e, now, t)
    ensures TrainingInv(wd, t)
  {
    match e
    case JobEvent(ev) => JobEventKeeps(wd, s, ev, now, t);
    case DepotEvent(change) => DepotEventKeeps(wd, s, change, now, t);
    case CreateRun(j, run) => CreateRunKeeps(wd, s, j, run, now, t);
    case BeginTraining(j, k, w, resume) => BeginKeeps(wd, s, j, k, w, resume, now, t);
    case HandleFile(j, k, i) => HandleKeeps(wd, s, j, k, i, now, t);
  }

  // ----- whole runs -----------------------------------------------------------------------------------------

  datatype TrainingEntry = TrainingEntry(event: TrainingEvent, now: Time)

  datatype TrainingTrace = TrainingTrace(states: seq<Training>, log: seq<TrainingEntry>) {
    ghost predicate Valid(wd: World) {
      && |states| == |log| + 1
      && Init(states[0].sys) && states[0].depot == EMPTY_DEPOT
      && states[0].runs == map[] && states[0].checkpoints == map[] && states[0].outputs == map[]
      && states[0].supervisors == map[]
      && (forall i {:trigger log[i]} | 0 <= i < |log| ::
            TrainingStep(wd, states[i], log[i].event, log[i].now, states[i + 1]))
    }
  }

  lemma TrainingInitOk(wd: World, s: Training)
    requires Init(s.sys) && s.depot == EMPTY_DEPOT
    requires s.runs == map[] && s.checkpoints == map[] && s.outputs == map[] && s.supervisors == map[]
    ensures TrainingInv(wd, s)
  {
  }

  lemma {:induction false} TrainingInvAlways(wd: World, tr: TrainingTrace, i: nat)
    requires ValidSettings(wd.cfg) && forall x, y :: wd.hash(x) == wd.hash(y) ==> x == y
    requires tr.Valid(wd) && i < |tr.states|
    ensures TrainingInv(wd, tr.states[i])
  {
    if i == 0 {
      TrainingInitOk(wd, tr.states[0]);
    } else {
      TrainingInvAlways(wd, tr, i - 1);
      var en := tr.log[i - 1];
      TrainingInvStep(wd, tr.states[i - 1], en.event, en.now, tr.states[i]);
    }
  }

  /** Crash/resume is exact.  Whatever crashes, resumes, lapsed leases and racing attempts a run went
  through, an output registered for a training job is an uploaded artifact whose object holds the
  parameter an uninterrupted run ends with. */
  lemma OutputIsStraightRun(wd: World, tr: TrainingTrace, i: nat, j: JobId)
    requires ValidSettings(wd.cfg) && forall x, y :: wd.hash(x) == wd.hash(y) ==> x == y
    requires tr.Valid(wd) && i < |tr.states| && j in tr.states[i].outputs
    ensures var s := tr.states[i];
            && j in s.runs && s.outputs[j].artifact in s.depot.rows
            && s.depot.rows[s.outputs[j].artifact].status.Uploaded?
            && var h := s.depot.rows[s.outputs[j].artifact].contentHash;
               h in s.depot.objects && s.depot.objects[h] == FinalModel(s.runs[j], j, s.outputs[j].attempt)
  {
    TrainingInvAlways(wd, tr, i);
    assert OutputOk(wd, tr.states[i], j);
  }

  /** A training job that is SUCCEEDED has an output registered by the very attempt that succeeded,
  although the supervisor never looks whether its registration was fenced out. */
  lemma SucceededHasOutput(wd: World, tr: TrainingTrace, i: nat, j: JobId)
    requires ValidSettings(wd.cfg) && forall x, y :: wd.hash(x) == wd.hash(y) ==> x == y
    requires tr.Valid(wd) && i < |tr.states| && j in tr.states[i].runs
    ensures j in tr.states[i].sys.db.jobs
    ensures tr.states[i].sys.db.jobs[j].status.Succeeded? ==>
      j in tr.states[i].outputs && tr.states[i].outputs[j].attempt == tr.states[i].sys.db.jobs[j].attempt
  {
    TrainingInvAlways(wd, tr, i);
    assert SucceededOk(tr.states[i], j);
  }

  lemma OutputHasJob(wd: World, s: Training, j: JobId)
    requires TrainingInv(wd, s) && j in s.outputs
    ensures j in s.runs && j in s.sys.db.jobs
  {
    assert OutputOk(wd, s, j) && SucceededOk(s, j);
  }

  lemma OutputKeptStep(wd: World, s: Training, e: TrainingEvent, now: Time, t: Training, j: JobId)
    requires TrainingStep(wd, s, e, now, t) && j in s.outputs && j in s.sys.db.jobs
    ensures j in t.outputs && t.outputs[j] == s.outputs[j]
    ensures j in t.sys.db.jobs && Later(s.sys.db.jobs[j], t.sys.db.jobs[j])
  {
    match e
    case JobEvent(ev) => StepLater(wd.cfg, s.sys.db, ev, now, j);
    case HandleFile(i, k, a) => HandleFrame(s, i, k, a, t);
    case _ =>
  }

  lemma {:induction false} OutputKept(wd: World, tr: TrainingTrace, m: nat, n: nat, j: JobId)
    requires tr.Valid(wd) && m <= n < |tr.states| && j in tr.states[m].outputs && j in tr.states[m].sys.db.jobs
    ensures j in tr.states[n].outputs && tr.states[n].outputs[j] == tr.states[m].outputs[j]
    ensures j in tr.states[n].sys.db.jobs
    ensures Later(tr.states[m].sys.db.jobs[j], tr.states[n].sys.db.jobs[j])
  {
    if m < n {
      OutputKept(wd, tr, m, n - 1, j);
      var en := tr.log[n - 1];
      OutputKeptStep(wd, tr.states[n - 1], en.event, en.now, tr.states[n], j);
      LaterTransitive(tr.states[m].sys.db.jobs[j], tr.states[n - 1].sys.db.jobs[j], tr.states[n].sys.db.jobs[j]);
    }
  }

  /** Every registered checkpoint passes the compatibility rules for ever, so a resume starts at the latest step
  registered. */
  lemma RegisteredIsCompatible(wd: World, tr: TrainingTrace, n: nat, c: CheckpointKey)
    requires ValidSettings(wd.cfg) && forall x, y :: wd.hash(x) == wd.hash(y) ==> x == y
    requires tr.Valid(wd) && n < |tr.states| && c in tr.states[n].checkpoints
    ensures var s := tr.states[n];
            && c.run in s.runs && s.checkpoints[c].artifact in s.depot.rows
            && s.depot.rows[s.checkpoints[c].artifact].status == Uploaded
            && s.checkpoints[c].baseModel == s.runs[c.run].baseModel && s.checkpoints[c].format == SUPPORTED_FORMAT
            && Compatible(wd, s.depot, s.runs[c.run], s.checkpoints[c], SUPPORTED_FORMAT)
  {
    TrainingInvAlways(wd, tr, n);
    assert CheckpointOk(wd, tr.states[n], c);
  }

  /** An attempt that begins with a checkpoint goes on from its step, one without from the start. */
  lemma BeginsWhereItResumes(wd: World, tr: TrainingTrace, n: nat, j: JobId, k: nat, w: WorkerId, resume: Option<CheckpointKey>)
    requires ValidSettings(wd.cfg) && forall x, y :: wd.hash(x) == wd.hash(y) ==> x == y
    requires tr.Valid(wd) && n < |tr.log| && tr.log[n].event == BeginTraining(j, k, w, resume)
    ensures j in tr.states[n].runs && Key(j, k) in tr.states[n + 1].supervisors
    ensures var tc := tr.states[n].runs[j].config; var from := if resume.Some? then resume.value.step else 0;
            tr.states[n + 1].supervisors[Key(j, k)] == Supervisor(w, Emissions(tc, j, k, Iterate(tc, from), from), false, false)
  {
    if resume.Some? {
      TrainingInvAlways(wd, tr, n);
      TrustedCheckpointIsExact(wd, tr.states[n], resume.value);
    }
  }

  lemma ResumesAtLatest(wd: World, tr: TrainingTrace, n: nat, j: JobId, candidates: seq<CheckpointKey>)
    requires ValidSettings(wd.cfg) && forall x, y :: wd.hash(x) == wd.hash(y) ==> x == y
    requires tr.Valid(wd) && n < |tr.states| && j in tr.states[n].runs
    requires forall c :: c in candidates <==> c in tr.states[n].checkpoints && c.run == j
    requires forall i, k :: 0 <= i < k < |candidates| ==> Newer(candidates[i], candidates[k])
    ensures var s := tr.states[n];
            FindResume(wd, s.depot, s.runs[j], s.checkpoints, candidates, SUPPORTED_FORMAT) ==
            if candidates == [] then None else Some(candidates[0])
  {
    if candidates != [] {
      assert candidates[0] in candidates;
      RegisteredIsCompatible(wd, tr, n, candidates[0]);
    }
  }

  /** The other side of at-most-once registration: when an attempt registers the output and then loses
  the job to a newer attempt, no later attempt can ever bring the job to SUCCEEDED. */
  lemma OrphanedOutputBlocksSuccess(wd: World, tr: TrainingTrace, m: nat, n: nat, j: JobId)
    requires ValidSettings(wd.cfg) && forall x, y :: wd.hash(x) == wd.hash(y) ==> x == y
    requires tr.Valid(wd) && m <= n < |tr.states| && j in tr.states[m].outputs && j in tr.states[m].sys.db.jobs
    requires tr.states[m].outputs[j].attempt < tr.states[m].sys.db.jobs[j].attempt
    ensures j in tr.states[n].sys.db.jobs && !tr.states[n].sys.db.jobs[j].status.Succeeded?
  {
    OutputKept(wd, tr, m, n, j);
    TrainingInvAlways(wd, tr, n);
    OutputHasJob(wd, tr.states[n], j);
    SucceededHasOutput(wd, tr, n, j);
  }

  // ----- which registrations violate a key ------------------------------------------------------------------

  /** What a supervisor still has to hand in lies beyond every checkpoint of its attempt. */
  ghost predicate Behind(s: Training, c: CheckpointKey) {
    Key(c.run, c.attempt) in s.supervisors && Beyond(s.supervisors[Key(c.run, c.attempt)].pending, c.step)
  }

  ghost predicate Ordered(s: Training) {
    && (forall key :: key in s.supervisors ==> Rising(s.supervisors[key].pending))
    && (forall c :: c in s.checkpoints ==> Behind(s, c))
  }

  lemma PendingAfter(s: Training, j: JobId, k: nat, i: ArtifactId, t: Training)
    requires j in s.runs && Key(j, k) in s.supervisors && s.supervisors[Key(j, k)].pending != []
    requires t == HandleFileTx(s, j, k, i)
    ensures Key(j, k) in t.supervisors
    ensures var files := s.supervisors[Key(j, k)].pending; var files' := t.supervisors[Key(j, k)].pending;
            && (files' == files || files' == files[1..])
            && (forall c :: c in t.checkpoints && c !in s.checkpoints ==>
                  files[0].CheckpointFile? && c == CheckpointKey(j, k, files[0].step) && files' == files[1..])
  {
  }

  lemma BehindAfter(s: Training, j: JobId, k: nat, i: ArtifactId, t: Training, c: CheckpointKey)
    requires j in s.runs && Key(j, k) in s.supervisors && s.supervisors[Key(j, k)].pending != []
    requires t == HandleFileTx(s, j, k, i) && c in t.checkpoints
    requires Rising(s.supervisors[Key(j, k)].pending) && (c in s.checkpoints ==> Behind(s, c))
    ensures Behind(t, c)
  {
    HandleFrame(s, j, k, i, t);
    PendingAfter(s, j, k, i, t);
    RisingTail(s.supervisors[Key(j, k)].pending);
  }

  lemma HandleKeepsOrder(s: Training, j: JobId, k: nat, i: ArtifactId, t: Training)
    requires Ordered(s) && j in s.runs && Key(j, k) in s.supervisors && s.supervisors[Key(j, k)].pending != []
    requires t == HandleFileTx(s, j, k, i)
    ensures Ordered(t)
  {
    HandleFrame(s, j, k, i, t);
    PendingAfter(s, j, k, i, t);
    RisingTail(s.supervisors[Key(j, k)].pending);
    forall c | c in t.checkpoints ensures Behind(t, c) {
      BehindAfter(s, j, k, i, t, c);
    }
  }

  lemma OrderedStep(wd: World, s: Training, e: TrainingEvent, now: Time, t: Training)
    requires Ordered(s) && TrainingStep(wd, s, e, now, t)
    ensures Ordered(t)
  {
    match e
    case HandleFile(j, k, i) => HandleKeepsOrder(s, j, k, i, t);
    case BeginTraining(j, k, w, resume) =>
      var (param, step) := StartFrom(s, resume);
      EmissionsRise(s.runs[j].config, j, k, param, step);
      assert forall c :: c in s.checkpoints ==> Behind(s, c) && Key(c.run, c.attempt) != Key(j, k);
    case _ =>
      assert forall c :: c in s.checkpoints ==> Behind(s, c);
  }

  lemma {:induction false} OrderedAlways(wd: World, tr: TrainingTrace, n: nat)
    requires tr.Valid(wd) && n < |tr.states|
    ensures Ordered(tr.states[n])
  {
    if n > 0 {
      OrderedAlways(wd, tr, n - 1);
      OrderedStep(wd, tr.states[n - 1], tr.log[n - 1].event, tr.log[n - 1].now, tr.states[n]);
    }
  }

  /** Run, attempt and step are stamped into every checkpoint file, so no two share an artifact. */
  lemma CheckpointNeverClashes(wd: World, s: Training, j: JobId, k: nat, i: ArtifactId)
    requires forall x, y :: wd.hash(x) == wd.hash(y) ==> x == y
    requires TablesOk(wd, s) && Ordered(s) && Handling(wd, s, j, k, i)
    requires s.supervisors[Key(j, k)].pending[0].CheckpointFile?
    ensures !CheckpointClash(s.checkpoints, CheckpointKey(j, k, s.supervisors[Key(j, k)].pending[0].step), i)
  {
    var file := s.supervisors[Key(j, k)].pending[0];
    var c := CheckpointKey(j, k, file.step);
    assert c in s.checkpoints ==> Behind(s, c);
    assert c !in s.checkpoints;
    forall c' | c' in s.checkpoints ensures s.checkpoints[c'].artifact != i {
      assert CheckpointOk(wd, s, c');
    }
  }

  /** The artifact of a final model is never another run's output, so only a run's own earlier output can
  be in the way. */
  lemma OutputClashIff(wd: World, s: Training, j: JobId, k: nat, i: ArtifactId)
    requires forall x, y :: wd.hash(x) == wd.hash(y) ==> x == y
    requires TablesOk(wd, s) && Handling(wd, s, j, k, i) && s.supervisors[Key(j, k)].pending[0].ModelFile?
    ensures OutputClash(s.outputs, j, i) <==> j in s.outputs
  {
    forall o | o in s.outputs && o != j ensures s.outputs[o].artifact != i {
      assert OutputOk(wd, s, o);
    }
  }

  lemma FailsIff(wd: World, s: Training, j: JobId, k: nat, i: ArtifactId, t: Training)
    requires forall x, y :: wd.hash(x) == wd.hash(y) ==> x == y
    requires TablesOk(wd, s) && Ordered(s) && Handling(wd, s, j, k, i) && !s.supervisors[Key(j, k)].failed
    requires t == HandleFileTx(s, j, k, i)
    ensures Key(j, k) in t.supervisors
    ensures t.supervisors[Key(j, k)].failed <==>
            && s.supervisors[Key(j, k)].pending[0].ModelFile?
            && Fence(s.sys.db, j, s.supervisors[Key(j, k)].worker, k)
            && j in s.outputs
  {
    if s.supervisors[Key(j, k)].pending[0].CheckpointFile? {
      CheckpointNeverClashes(wd, s, j, k, i);
    } else {
      OutputClashIff(wd, s, j, k, i);
    }
  }

  /** Exactly which registrations raise, in every reachable state: a checkpoint's never does, and a final
  model's does if and only if its attempt still owns the job and the run already has an output. */
  lemma RegistrationFailsIff(wd: World, tr: TrainingTrace, n: nat, j: JobId, k: nat, i: ArtifactId)
    requires ValidSettings(wd.cfg) && forall x, y :: wd.hash(x) == wd.hash(y) ==> x == y
    requires tr.Valid(wd) && n < |tr.log| && tr.log[n].event == HandleFile(j, k, i)
    ensures Key(j, k) in tr.states[n].supervisors && Key(j, k) in tr.states[n + 1].supervisors
    ensures var sup := tr.states[n].supervisors[Key(j, k)];
            && sup.pending != []
            && (tr.states[n + 1].supervisors[Key(j, k)].failed <==>
                  sup.pending[0].ModelFile? && Fence(tr.states[n].sys.db, j, sup.worker, k) && j in tr.states[n].outputs)
  {
    var s := tr.states[n];
    TrainingInvAlways(wd, tr, n);
    OrderedAlways(wd, tr, n);
    assert SupervisorOk(s, Key(j, k));
    ScriptTail(s.runs[j].config, j, k, s.supervisors[Key(j, k)].pending);
    FailsIff(wd, s, j, k, i, tr.states[n + 1]);
  }
}
