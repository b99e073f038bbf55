/** Training attempts on top of the job protocol and the artifact protocol.

A run is named by its job.  A supervisor is a worker inside a training attempt: it handles the
files its trainer reports one by one, uploading each and registering it with a fenced INSERT.
Crashes are supervisors that take no further step. */
module TrainingRuns {
  import opened Types
  import opened Transactions
  import opened Protocol
  import opened Artifacts
  import opened Trainer

  type BaseModel = Option<(nat, nat)>

  datatype TrainingRun = TrainingRun(config: TrainConfig, baseModel: BaseModel)

  datatype CheckpointKey = CheckpointKey(run: JobId, attempt: nat, step: nat)

  datatype CheckpointRow = CheckpointRow(artifact: ArtifactId, baseModel: BaseModel, format: nat)

  datatype OutputRow = OutputRow(artifact: ArtifactId, attempt: nat)

  /** `failed` once an exception ended it. */
  datatype Supervisor = Supervisor(worker: WorkerId, pending: seq<Blob>, producedFinal: bool, failed: bool)

  const SUPPORTED_FORMAT: nat := 1

  datatype Training = Training(
    sys: Sys,
    depot: Depot,
    runs: map<JobId, TrainingRun>,
    checkpoints: map<CheckpointKey, CheckpointRow>,
    outputs: map<JobId, OutputRow>,
    supervisors: map<Key, Supervisor>)

  /** Hash function, job settings and artifact timing of a deployment. */
  datatype World = World(cfg: Settings, tm: Timing, hash: Blob -> Hash)

  datatype TrainingEvent =
    | JobEvent(event: Event)
    | DepotEvent(change: ArtifactEvent)
    | CreateRun(job: JobId, run: TrainingRun)
    | BeginTraining(job: JobId, attempt: nat, worker: WorkerId, resume: Option<CheckpointKey>)
    | HandleFile(job: JobId, attempt: nat, artifact: ArtifactId)

  // ----- checkpoint discovery ----------------------------------------------------------------------

  /** The compatibility rules: uploaded, hash re-verified, same base model, supported format. */
  predicate Compatible(wd: World, d: Depot, run: TrainingRun, row: CheckpointRow, format: nat) {
    && row.artifact in d.rows
    && d.rows[row.artifact].status.Uploaded?
    && Present(wd.hash, d.objects, d.rows[row.artifact].contentHash)
    && row.baseModel == run.baseModel
    && row.format == format
  }

  /** Candidate order: step descending, then attempt descending. */
  predicate Newer(a: CheckpointKey, b: CheckpointKey) {
    a.step > b.step || (a.step == b.step && a.attempt > b.attempt)
  }

  /** First fully valid candidate of an ordered list. */
  function FindResume(wd: World, d: Depot, run: TrainingRun, rows: map<CheckpointKey, CheckpointRow>,
                      candidates: seq<CheckpointKey>, format: nat): Option<CheckpointKey>
  {
    if candidates == [] then None
    else if candidates[0] in rows && Compatible(wd, d, run, rows[candidates[0]], format) then Some(candidates[0])
    else FindResume(wd, d, run, rows, candidates[1..], format)
  }

  /** Over the run's checkpoints in candidate order, discovery returns the newest compatible one, and
  nothing only if none is compatible. */
  lemma {:induction false} FindResumeIsNewest(wd: World, d: Depot, run: TrainingRun, rows: map<CheckpointKey, CheckpointRow>,
                                              candidates: seq<CheckpointKey>, format: nat)
    requires forall i, k :: 0 <= i < k < |candidates| ==> Newer(candidates[i], candidates[k])
    requires forall i :: 0 <= i < |candidates| ==> candidates[i] in rows
    ensures var found := FindResume(wd, d, run, rows, candidates, format);
            && (found.Some? ==> found.value in candidates && Compatible(wd, d, run, rows[found.value], format))
            && (forall c :: c in candidates && Compatible(wd, d, run, rows[c], format) ==>
                  found.Some? && (found.value == c || Newer(found.value, c)))
  {
    if candidates != [] {
      assert candidates == [candidates[0]] + candidates[1..];
      FindResumeIsNewest(wd, d, run, rows, candidates[1..], format);
    }
  }

  /** The same rule by rule: what discovery returns passes all of them, and every candidate of a later step, or
  of the same step and a later attempt, fails one. */
  lemma FindResumeRules(wd: World, d: Depot, run: TrainingRun, rows: map<CheckpointKey, CheckpointRow>,
                        candidates: seq<CheckpointKey>, format: nat)
    requires forall i, k :: 0 <= i < k < |candidates| ==> Newer(candidates[i], candidates[k])
    requires forall i :: 0 <= i < |candidates| ==> candidates[i] in rows
    ensures var found := FindResume(wd, d, run, rows, candidates, format);
            && (found.Some? ==>
                  && found.value in candidates && found.value in rows
                  && var row := rows[found.value];
                     && row.artifact in d.rows && d.rows[row.artifact].status == Uploaded
                     && d.rows[row.artifact].contentHash in d.objects
                     && wd.hash(d.objects[d.rows[row.artifact].contentHash]) == d.rows[row.artifact].contentHash
                     && row.baseModel == run.baseModel && row.format == format)
            && (forall c | c in candidates && c in rows
                  && rows[c].artifact in d.rows && d.rows[rows[c].artifact].status == Uploaded
                  && d.rows[rows[c].artifact].contentHash in d.objects
                  && wd.hash(d.objects[d.rows[rows[c].artifact].contentHash]) == d.rows[rows[c].artifact].contentHash
                  && rows[c].baseModel == run.baseModel && rows[c].format == format ::
                    && found.Some?
                    && (found.value.step > c.step || (found.value.step == c.step && found.value.attempt > c.attempt) || found.value == c))
  {
    FindResumeIsNewest(wd, d, run, rows, candidates, format);
  }

  /** What a resume file tells the trainer. */
  function Loaded(b: Blob): Option<(real, nat)> {
    match b
    case CheckpointFile(p, n, _, _) => Some((p, n))
    case ModelFile(p, n, _, _) => Some((p, n))
    case Raw(_) => None
  }

  // ----- steps ----------------------------------------------------------------------------------------

  predicate UploadedAs(wd: World, d: Depot, i: ArtifactId, b: Blob) {
    i in d.rows && d.rows[i].status.Uploaded? && d.rows[i].contentHash == wd.hash(b)
  }

  ghost predicate TrainingEnabled(wd: World, s: Training, e: TrainingEvent, now: Time) {
    match e
    case JobEvent(ev) =>
      && Enabled(wd.cfg, s.sys, ev, now)
      // SUCCEEDED is reported only by a supervisor that has handled the final file
      && (ev.Finalize? && ev.outcome.Success? && ev.job in s.runs ==>
            var key := Key(ev.job, ev.attempt);
            key in s.supervisors && s.supervisors[key].worker == ev.worker && s.supervisors[key].producedFinal)
      // an exception leaves the attempt to recovery
      && (ev.Finalize? && Key(ev.job, ev.attempt) in s.supervisors ==> !s.supervisors[Key(ev.job, ev.attempt)].failed)
    case DepotEvent(change) => ArtifactEnabled(wd.tm, s.depot, change, now)
    case CreateRun(j, run) =>
      // the run's row exists before its job is claimed
      && j in s.sys.db.jobs && s.sys.db.jobs[j].status.Queued? && s.sys.db.jobs[j].attempt == 0
      && j !in s.runs
    case BeginTraining(j, k, w, resume) =>
      && Runner(j, k, w, true) in s.sys.runners && j in s.runs && Key(j, k) !in s.supervisors
      // any compatible checkpoint, so one found in an older state of the tables too
      && (resume.Some? ==>
            && resume.value.run == j && resume.value in s.checkpoints
            && Compatible(wd, s.depot, s.runs[j], s.checkpoints[resume.value], SUPPORTED_FORMAT)
            && Loaded(ResumeFile(s, resume.value)).Some?)
    case HandleFile(j, k, i) =>
      && j in s.runs && Key(j, k) in s.supervisors && !s.supervisors[Key(j, k)].failed
      && s.supervisors[Key(j, k)].pending != []
      && UploadedAs(wd, s.depot, i, s.supervisors[Key(j, k)].pending[0])
  }

  function ResumeFile(s: Training, c: CheckpointKey): Blob {
    if c in s.checkpoints && s.checkpoints[c].artifact in s.depot.rows
       && s.depot.rows[s.checkpoints[c].artifact].contentHash in s.depot.objects
    then s.depot.objects[s.depot.rows[s.checkpoints[c].artifact].contentHash]
    else Raw([])
  }

  function StartFrom(s: Training, resume: Option<CheckpointKey>): (real, nat) {
    match resume
    case None => (0.0, 0)
    case Some(c) => match Loaded(ResumeFile(s, c)) case Some(state) => state case None => (0.0, 0)
  }

  ghost predicate CheckpointClash(checkpoints: map<CheckpointKey, CheckpointRow>, c: CheckpointKey, i: ArtifactId) {
    c in checkpoints || exists c' :: c' in checkpoints && checkpoints[c'].artifact == i
  }

  ghost predicate OutputClash(outputs: map<JobId, OutputRow>, j: JobId, i: ArtifactId) {
    j in outputs || exists j' :: j' in outputs && outputs[j'].artifact == i
  }

  /** A fenced INSERT: None where a key is violated, the same rows where the fence does not hold. */
  ghost function RegisterCheckpointTx(db: Db, checkpoints: map<CheckpointKey, CheckpointRow>, w: WorkerId,
                                      c: CheckpointKey, row: CheckpointRow): Option<map<CheckpointKey, CheckpointRow>>
  {
    if !Fence(db, c.run, w, c.attempt) then Some(checkpoints)
    else if CheckpointClash(checkpoints, c, row.artifact) then None
    else Some(checkpoints[c := row])
  }

  ghost function RegisterOutputTx(db: Db, outputs: map<JobId, OutputRow>, w: WorkerId, j: JobId, row: OutputRow):
    Option<map<JobId, OutputRow>>
  {
    if !Fence(db, j, w, row.attempt) then Some(outputs)
    else if OutputClash(outputs, j, row.artifact) then None
    else Some(outputs[j := row])
  }

  /** A violated key is an exception in the worker: the supervisor has failed and the tables are unchanged.
  A failed fence inserts nothing and the supervisor goes on, none the wiser. */
  ghost function HandleFileTx(s: Training, j: JobId, k: nat, i: ArtifactId): Training
    requires j in s.runs && Key(j, k) in s.supervisors && s.supervisors[Key(j, k)].pending != []
  {
    var key := Key(j, k);
    var sup := s.supervisors[key];
    match sup.pending[0]
    case CheckpointFile(_, step, _, _) =>
      var row := CheckpointRow(i, s.runs[j].baseModel, SUPPORTED_FORMAT);
      (match RegisterCheckpointTx(s.sys.db, s.checkpoints, sup.worker, CheckpointKey(j, k, step), row)
       case None => s.(supervisors := s.supervisors[key := sup.(failed := true)])
       case Some(rows) =>
         s.(supervisors := s.supervisors[key := sup.(pending := sup.pending[1..])], checkpoints := rows))
    case _ =>
      match RegisterOutputTx(s.sys.db, s.outputs, sup.worker, j, OutputRow(i, k))
      case None => s.(supervisors := s.supervisors[key := sup.(failed := true)])
      case Some(rows) =>
        s.(supervisors := s.supervisors[key := sup.(pending := sup.pending[1..], producedFinal := true)], outputs := rows)
  }

  ghost function TrainingAfter(wd: World, s: Training, e: TrainingEvent, now: Time): Training
    requires TrainingEnabled(wd, s, e, now)
  {
    match e
    case JobEvent(ev) => s.(sys := Apply(wd.cfg, s.sys, ev, now))
    case DepotEvent(change) => s.(depot := DepotAfter(wd.hash, wd.tm, s.depot, change, now))
    case CreateRun(j, run) => s.(runs := s.runs[j := run])
    case BeginTraining(j, k, w, resume) =>
      var (param, step) := StartFrom(s, resume);
      var files := Emissions(s.runs[j].config, j, k, param, step);
      s.(supervisors := s.supervisors[Key(j, k) := Supervisor(w, files, false, false)])
    case HandleFile(j, k, i) => HandleFileTx(s, j, k, i)
  }
}
