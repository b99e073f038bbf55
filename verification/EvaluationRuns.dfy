/** Evaluation attempts on top of the job protocol.

A run is named by its job.  A supervisor inside an evaluation attempt handles the lines its
evaluator reports one by one; every write is fenced, and results and metrics keep the first row
written under a key.  Crashes are supervisors that take no further step. */
module EvaluationRuns {
  import opened Types
  import opened Transactions
  import opened Protocol
  import opened Evaluator

  datatype RunStatus = RunQueued | RunRunning | RunSucceeded | RunFailed

  datatype EvaluationRun = EvaluationRun(task: Task, status: RunStatus, completedAt: Option<Time>)

  datatype ResultKey = ResultKey(run: JobId, example: string)

  datatype ResultRow = ResultRow(prediction: string, expected: Option<string>, score: real, latency: real, attempt: nat)

  datatype MetricKey = MetricKey(run: JobId, name: string, split: string)

  datatype MetricRow = MetricRow(value: real, samples: nat, attempt: nat)

  /** `lines` is what the evaluator process writes, of which `handled` have been read. */
  datatype Supervisor = Supervisor(worker: WorkerId, lines: seq<Report>, handled: nat, completed: bool)

  datatype Tables = Tables(
    runs: map<JobId, EvaluationRun>,
    results: map<ResultKey, ResultRow>,
    metrics: map<MetricKey, MetricRow>)

  datatype Evaluation = Evaluation(sys: Sys, tables: Tables, supervisors: map<Key, Supervisor>)

  datatype EvaluationEvent =
    | JobEvent(event: Event)
    | CreateRun(job: JobId, task: Task)
    | BeginEvaluation(job: JobId, attempt: nat, worker: WorkerId, latencies: nat -> real)
    | HandleReport(job: JobId, attempt: nat)
    | CompleteRun(job: JobId, attempt: nat)
    | FailRun(job: JobId, attempt: nat, worker: WorkerId)

  // ----- fenced writes --------------------------------------------------------------------------------

  /** UPDATE of the run's status, whatever it was; completed_at is overwritten along with it. */
  function MarkStatusTx(db: Db, tb: Tables, j: JobId, w: WorkerId, k: nat, status: RunStatus, completedAt: Option<Time>): Tables {
    if Fence(db, j, w, k) && j in tb.runs
    then tb.(runs := tb.runs[j := tb.runs[j].(status := status, completedAt := completedAt)])
    else tb
  }

  function RecordResultTx(db: Db, tb: Tables, key: ResultKey, w: WorkerId, row: ResultRow): Tables {
    if Fence(db, key.run, w, row.attempt) && key !in tb.results then tb.(results := tb.results[key := row]) else tb
  }

  function RecordMetricTx(db: Db, tb: Tables, key: MetricKey, w: WorkerId, row: MetricRow): Tables {
    if Fence(db, key.run, w, row.attempt) && key !in tb.metrics then tb.(metrics := tb.metrics[key := row]) else tb
  }

  /** What the supervisor does with one line. */
  function HandleReportTx(db: Db, tb: Tables, j: JobId, w: WorkerId, k: nat, r: Report): Tables {
    match r
    case ResultReport(id, prediction, expected, score, latency) =>
      RecordResultTx(db, tb, ResultKey(j, id), w, ResultRow(prediction, expected, score, latency, k))
    case MetricReport(name, value, split, samples) =>
      RecordMetricTx(db, tb, MetricKey(j, name, split), w, MetricRow(value, samples, k))
    case _ => tb
  }

  // ----- steps --------------------------------------------------------------------------------------------

  predicate ProducedFinal(sup: Supervisor) {
    sup.lines != [] && sup.handled == |sup.lines| && sup.lines[|sup.lines| - 1].FinalReport?
  }

  ghost predicate EvaluationEnabled(cfg: Settings, s: Evaluation, e: EvaluationEvent, now: Time) {
    match e
    case JobEvent(ev) =>
      && Enabled(cfg, s.sys, ev, now)
      // SUCCEEDED is reported only by a supervisor whose completing write went through
      && (ev.Finalize? && ev.outcome.Success? && ev.job in s.tables.runs ==>
            var key := Key(ev.job, ev.attempt);
            key in s.supervisors && s.supervisors[key].worker == ev.worker && s.supervisors[key].completed)
    case CreateRun(j, task) =>
      // the run's row exists before its job is claimed
      && j in s.sys.db.jobs && s.sys.db.jobs[j].status.Queued? && s.sys.db.jobs[j].attempt == 0
      && j !in s.tables.runs
    case BeginEvaluation(j, k, w, _) =>
      Runner(j, k, w, true) in s.sys.runners && j in s.tables.runs && Key(j, k) !in s.supervisors
    case HandleReport(j, k) =>
      && Key(j, k) in s.supervisors && j in s.tables.runs
      && s.supervisors[Key(j, k)].handled < |s.supervisors[Key(j, k)].lines|
    case CompleteRun(j, k) => Key(j, k) in s.supervisors && j in s.tables.runs && ProducedFinal(s.supervisors[Key(j, k)])
    case FailRun(j, k, w) =>
      // no final line: the artifacts were unusable, the evaluator raised or its process died
      && Runner(j, k, w, true) in s.sys.runners && j in s.tables.runs
      && (Key(j, k) in s.supervisors ==>
            s.supervisors[Key(j, k)].worker == w && !ProducedFinal(s.supervisors[Key(j, k)]))
  }

  function TablesAfter(s: Evaluation, e: EvaluationEvent, now: Time): Tables {
    var db, tb := s.sys.db, s.tables;
    match e
    case JobEvent(_) => tb
    case CreateRun(j, task) => tb.(runs := tb.runs[j := EvaluationRun(task, RunQueued, None)])
    case BeginEvaluation(j, k, w, _) => MarkStatusTx(db, tb, j, w, k, RunRunning, None)
    case HandleReport(j, k) =>
      if Key(j, k) in s.supervisors && s.supervisors[Key(j, k)].handled < |s.supervisors[Key(j, k)].lines| then
        var sup := s.supervisors[Key(j, k)];
        HandleReportTx(db, tb, j, sup.worker, k, sup.lines[sup.handled])
      else tb
    case CompleteRun(j, k) =>
      if Key(j, k) in s.supervisors
      then MarkStatusTx(db, tb, j, s.supervisors[Key(j, k)].worker, k, RunSucceeded, Some(now)) else tb
    case FailRun(j, k, w) => MarkStatusTx(db, tb, j, w, k, RunFailed, None)
  }

  /** A supervisor whose first write is fenced out starts no evaluator; one whose completing write is
  fenced out reports a failure. */
  function SupervisorsAfter(s: Evaluation, e: EvaluationEvent): map<Key, Supervisor> {
    var db, sups := s.sys.db, s.supervisors;
    match e
    case BeginEvaluation(j, k, w, latencies) =>
      if Fence(db, j, w, k) && j in s.tables.runs
      then sups[Key(j, k) := Supervisor(w, Reports(s.tables.runs[j].task, latencies), 0, false)] else sups
    case HandleReport(j, k) =>
      if Key(j, k) in sups then
        sups[Key(j, k) := sups[Key(j, k)].(handled := sups[Key(j, k)].handled + 1)]
      else sups
    case CompleteRun(j, k) =>
      if Key(j, k) in sups && Fence(db, j, sups[Key(j, k)].worker, k) then
        sups[Key(j, k) := sups[Key(j, k)].(completed := true)]
      else sups
    case FailRun(j, k, _) => sups - {Key(j, k)}
    case _ => sups
  }

  function EvaluationAfter(cfg: Settings, s: Evaluation, e: EvaluationEvent, now: Time): Evaluation {
    Evaluation(if e.JobEvent? then Apply(cfg, s.sys, e.event, now) else s.sys, TablesAfter(s, e, now), SupervisorsAfter(s, e))
  }

  ghost predicate EvaluationStep(cfg: Settings, s: Evaluation, e: EvaluationEvent, now: Time, t: Evaluation) {
    s.sys.clock <= now && EvaluationEnabled(cfg, s, e, now) && t == EvaluationAfter(cfg, s, e, now)
  }
}
