/** Retried evaluations converge, over every run of the evaluation system. */
module EvaluationProofs {
  import opened Types
  import opened Transactions
  import opened Protocol
  import opened Fencing
  import opened Invariants
  import opened Metrics
  import opened Evaluator
  import opened EvaluationRuns

  // ----- tables -----------------------------------------------------------------------------------------

  /** The `i`-th evaluated example is the first of its id. */
  predicate IsFirst(exs: seq<Example>, i: nat, id: string) {
    i < |exs| && exs[i].id == Some(id) && forall k :: 0 <= k < i ==> exs[k].id != Some(id)
  }

  predicate RowOf(row: ResultRow, ex: Example, param: real) {
    && WellFormed(ex)
    && row.prediction == Predict(ex.input.value, param) && row.expected == ex.expected
    && row.score == ExampleScore(ex, param)
  }

  /** The stored row is the one a single uninterrupted evaluation gives the first example of that id. */
  ghost predicate ResultOk(tb: Tables, key: ResultKey)
    requires key in tb.results
  {
    && key.run in tb.runs
    && exists i: nat :: IsFirst(Evaluated(tb.runs[key.run].task), i, key.example)
                && RowOf(tb.results[key], Evaluated(tb.runs[key.run].task)[i], tb.runs[key.run].task.param)
  }

  predicate MetricOk(tb: Tables, key: MetricKey)
    requires key in tb.metrics
  {
    key.run in tb.runs && MetricExact(tb.runs[key.run].task, key.name, tb.metrics[key].value, tb.metrics[key].samples)
  }

  ghost predicate TablesExact(tb: Tables) {
    && (forall key :: key in tb.results ==> ResultOk(tb, key))
    && (forall key :: key in tb.metrics ==> MetricOk(tb, key))
  }

  /** Runs keep their task, stored rows stay as they are. */
  ghost predicate TablesLater(tb: Tables, tb': Tables) {
    && (forall j :: j in tb.runs ==> j in tb'.runs && tb'.runs[j].task == tb.runs[j].task)
    && (forall key :: key in tb.results ==> key in tb'.results && tb'.results[key] == tb.results[key])
    && (forall key :: key in tb.metrics ==> key in tb'.metrics && tb'.metrics[key] == tb.metrics[key])
  }

  predicate Recorded(tb: Tables, j: JobId, r: Report) {
    match r
    case ResultReport(id, _, _, _, _) => ResultKey(j, id) in tb.results
    case MetricReport(name, _, split, _) => MetricKey(j, name, split) in tb.metrics
    case _ => true
  }

  ghost predicate AllRecorded(tb: Tables, j: JobId, lines: seq<Report>, n: nat)
    requires n <= |lines|
  {
    forall i :: 0 <= i < n ==> Recorded(tb, j, lines[i])
  }

  lemma MarkGrows(db: Db, tb: Tables, j: JobId, w: WorkerId, k: nat, status: RunStatus, at: Option<Time>)
    ensures var tb' := MarkStatusTx(db, tb, j, w, k, status, at);
            && TablesLater(tb, tb') && tb'.results == tb.results && tb'.metrics == tb.metrics
            && (forall i :: i in tb.runs && (i != j || !Fence(db, j, w, k)) ==> tb'.runs[i] == tb.runs[i])
            && (Fence(db, j, w, k) && j in tb.runs ==> tb'.runs[j].status == status)
  {
  }

  lemma HandleGrows(db: Db, tb: Tables, j: JobId, w: WorkerId, k: nat, r: Report)
    ensures var tb' := HandleReportTx(db, tb, j, w, k, r);
            && TablesLater(tb, tb') && tb'.runs == tb.runs
            && (Fence(db, j, w, k) ==> Recorded(tb', j, r))
  {
  }

  lemma TablesOnlyGrow(cfg: Settings, s: Evaluation, e: EvaluationEvent, now: Time)
    requires EvaluationEnabled(cfg, s, e, now)
    ensures TablesLater(s.tables, TablesAfter(s, e, now))
    ensures !e.HandleReport? ==>
      TablesAfter(s, e, now).results == s.tables.results && TablesAfter(s, e, now).metrics == s.tables.metrics
  {
    var db, tb := s.sys.db, s.tables;
    match e
    case BeginEvaluation(j, k, w, _) => MarkGrows(db, tb, j, w, k, RunRunning, None);
    case HandleReport(j, k) =>
      var sup := s.supervisors[Key(j, k)];
      HandleGrows(db, tb, j, sup.worker, k, sup.lines[sup.handled]);
    case CompleteRun(j, k) => MarkGrows(db, tb, j, s.supervisors[Key(j, k)].worker, k, RunSucceeded, Some(now));
    case FailRun(j, k, w) => MarkGrows(db, tb, j, w, k, RunFailed, None);
    case _ =>
  }

  lemma ExactCarries(tb: Tables, tb': Tables)
    requires TablesExact(tb) && TablesLater(tb, tb')
    requires tb'.results.Keys == tb.results.Keys && tb'.metrics.Keys == tb.metrics.Keys
    ensures TablesExact(tb')
  {
    forall key | key in tb'.results ensures ResultOk(tb', key) {
      assert ResultOk(tb, key);
    }
    forall key | key in tb'.metrics ensures MetricOk(tb', key) {
      assert MetricOk(tb, key);
    }
  }

  /** Lines are handled in order, so the first example of an id is recorded before a repeated one. */
  lemma NewResultIsFirst(tb: Tables, j: JobId, task: Task, latencies: nat -> real, n: nat)
    requires n < |Reports(task, latencies)| && Reports(task, latencies)[n].ResultReport?
    requires AllRecorded(tb, j, Reports(task, latencies), n)
    requires ResultKey(j, Reports(task, latencies)[n].id) !in tb.results
    ensures IsFirst(Evaluated(task), n, Reports(task, latencies)[n].id)
  {
    var exs, lines := Evaluated(task), Reports(task, latencies);
    ReportMeans(task, latencies, n);
    forall k | 0 <= k < n ensures exs[k].id != Some(lines[n].id) {
      ReportMeans(task, latencies, k);
      assert Recorded(tb, j, lines[k]);
    }
  }

  /** The lines of some evaluator process for the run's task. */
  ghost predicate Genuine(task: Task, lines: seq<Report>) {
    exists latencies :: lines == Reports(task, latencies)
  }

  lemma HandledResult(db: Db, tb: Tables, j: JobId, w: WorkerId, k: nat, latencies: nat -> real, n: nat, key: ResultKey)
    requires j in tb.runs && n < |Reports(tb.runs[j].task, latencies)|
    requires Fence(db, j, w, k) ==> AllRecorded(tb, j, Reports(tb.runs[j].task, latencies), n)
    requires var tb' := HandleReportTx(db, tb, j, w, k, Reports(tb.runs[j].task, latencies)[n]);
             key in tb'.results && key !in tb.results
    ensures ResultOk(HandleReportTx(db, tb, j, w, k, Reports(tb.runs[j].task, latencies)[n]), key)
  {
    ReportMeans(tb.runs[j].task, latencies, n);
    NewResultIsFirst(tb, j, tb.runs[j].task, latencies, n);
    var tb' := HandleReportTx(db, tb, j, w, k, Reports(tb.runs[j].task, latencies)[n]);
    assert RowOf(tb'.results[key], Evaluated(tb.runs[j].task)[n], tb.runs[j].task.param);
  }

  lemma HandledMetric(db: Db, tb: Tables, j: JobId, w: WorkerId, k: nat, latencies: nat -> real, n: nat, key: MetricKey)
    requires j in tb.runs && n < |Reports(tb.runs[j].task, latencies)|
    requires var tb' := HandleReportTx(db, tb, j, w, k, Reports(tb.runs[j].task, latencies)[n]);
             key in tb'.metrics && key !in tb.metrics
    ensures MetricOk(HandleReportTx(db, tb, j, w, k, Reports(tb.runs[j].task, latencies)[n]), key)
  {
    ReportMeans(tb.runs[j].task, latencies, n);
  }

  lemma HandledLine(db: Db, tb: Tables, j: JobId, w: WorkerId, k: nat, lines: seq<Report>, n: nat)
    requires j in tb.runs && n < |lines| && Genuine(tb.runs[j].task, lines)
    requires Fence(db, j, w, k) ==> AllRecorded(tb, j, lines, n)
    requires TablesExact(tb)
    ensures TablesExact(HandleReportTx(db, tb, j, w, k, lines[n]))
  {
    var latencies :| lines == Reports(tb.runs[j].task, latencies);
    var tb' := HandleReportTx(db, tb, j, w, k, lines[n]);
    HandleGrows(db, tb, j, w, k, lines[n]);
    forall key | key in tb'.results ensures ResultOk(tb', key) {
      if key in tb.results {
        assert ResultOk(tb, key);
      } else {
        HandledResult(db, tb, j, w, k, latencies, n, key);
      }
    }
    forall key | key in tb'.metrics ensures MetricOk(tb', key) {
      if key in tb.metrics {
        assert MetricOk(tb, key);
      } else {
        HandledMetric(db, tb, j, w, k, latencies, n, key);
      }
    }
  }

  // ----- invariant --------------------------------------------------------------------------------------

  ghost predicate SupervisorOk(db: Db, tb: Tables, key: Key, sup: Supervisor) {
    && key.job in tb.runs && key.job in db.jobs && key.attempt <= db.jobs[key.job].attempt
    && sup.handled <= |sup.lines|
    && (sup.completed ==> ProducedFinal(sup))
    && (Fence(db, key.job, sup.worker, key.attempt) ==>
          && AllRecorded(tb, key.job, sup.lines, sup.handled)
          && (sup.completed ==> tb.runs[key.job].status.RunSucceeded?))
  }

  ghost predicate SupervisorsOk(db: Db, tb: Tables, sups: map<Key, Supervisor>) {
    forall key :: key in sups ==> SupervisorOk(db, tb, key, sups[key])
  }

  ghost predicate AllGenuine(tb: Tables, sups: map<Key, Supervisor>) {
    forall key :: key in sups ==> key.job in tb.runs && Genuine(tb.runs[key.job].task, sups[key].lines)
  }

  /** A complete evaluation: every example well formed and stored, both accuracy metrics stored. */
  ghost predicate Settled(tb: Tables, j: JobId)
    requires j in tb.runs
  {
    var exs := Evaluated(tb.runs[j].task);
    && tb.runs[j].status.RunSucceeded?
    && AllWellFormed(exs)
    && (forall i :: 0 <= i < |exs| ==> ResultKey(j, exs[i].id.value) in tb.results)
    && (exs != [] ==> (MetricKey(j, "exact_match", tb.runs[j].task.split) in tb.metrics
                       && MetricKey(j, "token_accuracy", tb.runs[j].task.split) in tb.metrics))
  }

  ghost predicate SucceededOk(db: Db, tb: Tables, j: JobId)
    requires j in tb.runs
  {
    j in db.jobs && (db.jobs[j].status.Succeeded? ==> Settled(tb, j))
  }

  ghost predicate TablesInv(db: Db, tb: Tables, sups: map<Key, Supervisor>) {
    && TablesExact(tb)
    && SupervisorsOk(db, tb, sups)
    && AllGenuine(tb, sups)
    && (forall j :: j in tb.runs ==> SucceededOk(db, tb, j))
  }

  ghost predicate EvaluationInv(cfg: Settings, s: Evaluation) {
    Inv(cfg, s.sys) && TablesInv(s.sys.db, s.tables, s.supervisors)
  }

  lemma ResultRecorded(tb: Tables, j: JobId, task: Task, latencies: nat -> real, i: nat)
    requires i < Usable(Evaluated(task)) && i < |Reports(task, latencies)|
    requires Recorded(tb, j, Reports(task, latencies)[i])
    ensures WellFormed(Evaluated(task)[i]) && ResultKey(j, Evaluated(task)[i].id.value) in tb.results
  {
    ReportMeans(task, latencies, i);
  }

  lemma FinalMeansStored(tb: Tables, j: JobId, task: Task, latencies: nat -> real)
    requires var all := Reports(task, latencies); all[|all| - 1].FinalReport? && AllRecorded(tb, j, all, |all|)
    ensures var exs := Evaluated(task);
            && AllWellFormed(exs)
            && (forall i :: 0 <= i < |exs| ==> ResultKey(j, exs[i].id.value) in tb.results)
            && (exs != [] ==> (MetricKey(j, "exact_match", task.split) in tb.metrics
                               && MetricKey(j, "token_accuracy", task.split) in tb.metrics))
  {
    var exs, all := Evaluated(task), Reports(task, latencies);
    FinalMeansAll(task, latencies);
    forall i | 0 <= i < |exs| ensures WellFormed(exs[i]) && ResultKey(j, exs[i].id.value) in tb.results {
      ResultRecorded(tb, j, task, latencies, i);
    }
    if exs != [] {
      assert Recorded(tb, j, all[|exs|]) && Recorded(tb, j, all[|exs| + 1]);
    }
  }

  lemma FinalMeansSettled(tb: Tables, j: JobId, sup: Supervisor)
    requires j in tb.runs && tb.runs[j].status.RunSucceeded? && Genuine(tb.runs[j].task, sup.lines)
    requires ProducedFinal(sup) && AllRecorded(tb, j, sup.lines, |sup.lines|)
    ensures Settled(tb, j)
  {
    var latencies :| sup.lines == Reports(tb.runs[j].task, latencies);
    FinalMeansStored(tb, j, tb.runs[j].task, latencies);
  }

  // ----- job events -----------------------------------------------------------------------------------------

  lemma SupervisorAfterJobEvent(cfg: Settings, s: Sys, ev: Event, now: Time, tb: Tables, key: Key, sup: Supervisor)
    requires Enabled(cfg, s, ev, now) && SupervisorOk(s.db, tb, key, sup)
    ensures SupervisorOk(DbAfter(cfg, s.db, ev, now), tb, key, sup)
  {
    StepLater(cfg, s.db, ev, now, key.job);
  }

  lemma SucceededAfterJobEvent(cfg: Settings, s: Evaluation, ev: Event, now: Time, j: JobId)
    requires EvaluationEnabled(cfg, s, JobEvent(ev), now) && j in s.tables.runs && SucceededOk(s.sys.db, s.tables, j)
    requires SupervisorsOk(s.sys.db, s.tables, s.supervisors) && AllGenuine(s.tables, s.supervisors)
    ensures SucceededOk(DbAfter(cfg, s.sys.db, ev, now), s.tables, j)
  {
    BecomesSucceeded(cfg, s.sys.db, ev, now, j);
    if DbAfter(cfg, s.sys.db, ev, now).jobs[j].status.Succeeded? && !s.sys.db.jobs[j].status.Succeeded? {
      var key := Key(j, ev.attempt);
      assert SupervisorOk(s.sys.db, s.tables, key, s.supervisors[key]);
      FinalMeansSettled(s.tables, j, s.supervisors[key]);
    }
  }

  lemma JobEventKeeps(cfg: Settings, s: Evaluation, ev: Event, now: Time)
    requires EvaluationEnabled(cfg, s, JobEvent(ev), now) && TablesInv(s.sys.db, s.tables, s.supervisors)
    ensures TablesInv(DbAfter(cfg, s.sys.db, ev, now), s.tables, s.supervisors)
  {
    var db' := DbAfter(cfg, s.sys.db, ev, now);
    forall key | key in s.supervisors ensures SupervisorOk(db', s.tables, key, s.supervisors[key]) {
      SupervisorAfterJobEvent(cfg, s.sys, ev, now, s.tables, key, s.supervisors[key]);
    }
    forall j | j in s.tables.runs ensures SucceededOk(db', s.tables, j) {
      SucceededAfterJobEvent(cfg, s, ev, now, j);
    }
  }

  // ----- evaluation events ------------------------------------------------------------------------------------

  /** A run whose job is not RUNNING keeps its status: every write to it needs a fence. */
  lemma StatusNeedsFence(cfg: Settings, s: Evaluation, e: EvaluationEvent, now: Time, j: JobId)
    requires EvaluationEnabled(cfg, s, e, now) && j in s.tables.runs && j in TablesAfter(s, e, now).runs
    requires j in s.sys.db.jobs && !s.sys.db.jobs[j].status.Running?
    ensures TablesAfter(s, e, now).runs[j] == s.tables.runs[j]
  {
    var db, tb := s.sys.db, s.tables;
    match e
    case BeginEvaluation(i, k, w, _) => MarkGrows(db, tb, i, w, k, RunRunning, None);
    case HandleReport(i, k) =>
      var sup := s.supervisors[Key(i, k)];
      HandleGrows(db, tb, i, sup.worker, k, sup.lines[sup.handled]);
    case CompleteRun(i, k) => MarkGrows(db, tb, i, s.supervisors[Key(i, k)].worker, k, RunSucceeded, Some(now));
    case FailRun(i, k, w) => MarkGrows(db, tb, i, w, k, RunFailed, None);
    case _ =>
  }

  lemma SucceededKept(cfg: Settings, s: Evaluation, e: EvaluationEvent, now: Time, j: JobId)
    requires EvaluationEnabled(cfg, s, e, now) && j in s.tables.runs && SucceededOk(s.sys.db, s.tables, j)
    ensures j in TablesAfter(s, e, now).runs && SucceededOk(s.sys.db, TablesAfter(s, e, now), j)
  {
    TablesOnlyGrow(cfg, s, e, now);
    if s.sys.db.jobs[j].status.Succeeded? {
      StatusNeedsFence(cfg, s, e, now, j);
    }
  }

  lemma RecordedKept(tb: Tables, tb': Tables, j: JobId, lines: seq<Report>, n: nat)
    requires n <= |lines| && AllRecorded(tb, j, lines, n) && TablesLater(tb, tb')
    ensures AllRecorded(tb', j, lines, n)
  {
    forall i | 0 <= i < n ensures Recorded(tb', j, lines[i]) {
      assert Recorded(tb, j, lines[i]);
    }
  }

  lemma SupervisorCarries(db: Db, tb: Tables, tb': Tables, key: Key, sup: Supervisor)
    requires SupervisorOk(db, tb, key, sup) && TablesLater(tb, tb')
    requires Fence(db, key.job, sup.worker, key.attempt) && sup.completed ==>
      key.job in tb'.runs && tb'.runs[key.job].status.RunSucceeded?
    ensures SupervisorOk(db, tb', key, sup)
  {
    if Fence(db, key.job, sup.worker, key.attempt) {
      RecordedKept(tb, tb', key.job, sup.lines, sup.handled);
    }
  }

  lemma HandleRecords(db: Db, tb: Tables, j: JobId, w: WorkerId, k: nat, lines: seq<Report>, n: nat)
    requires n < |lines| && AllRecorded(tb, j, lines, n) && Fence(db, j, w, k)
    ensures AllRecorded(HandleReportTx(db, tb, j, w, k, lines[n]), j, lines, n + 1)
  {
    HandleGrows(db, tb, j, w, k, lines[n]);
    RecordedKept(tb, HandleReportTx(db, tb, j, w, k, lines[n]), j, lines, n);
  }

  lemma HandleKeepsSupervisor(db: Db, tb: Tables, key: Key, sup: Supervisor)
    requires SupervisorOk(db, tb, key, sup) && sup.handled < |sup.lines|
    ensures SupervisorOk(db, HandleReportTx(db, tb, key.job, sup.worker, key.attempt, sup.lines[sup.handled]), key,
                         sup.(handled := sup.handled + 1))
  {
    HandleGrows(db, tb, key.job, sup.worker, key.attempt, sup.lines[sup.handled]);
    if Fence(db, key.job, sup.worker, key.attempt) {
      HandleRecords(db, tb, key.job, sup.worker, key.attempt, sup.lines, sup.handled);
    }
  }

  lemma CompleteKeepsSupervisor(db: Db, tb: Tables, key: Key, sup: Supervisor, now: Time)
    requires SupervisorOk(db, tb, key, sup) && ProducedFinal(sup) && Fence(db, key.job, sup.worker, key.attempt)
    ensures SupervisorOk(db, MarkStatusTx(db, tb, key.job, sup.worker, key.attempt, RunSucceeded, Some(now)), key,
                         sup.(completed := true))
  {
    MarkGrows(db, tb, key.job, sup.worker, key.attempt, RunSucceeded, Some(now));
    RecordedKept(tb, MarkStatusTx(db, tb, key.job, sup.worker, key.attempt, RunSucceeded, Some(now)), key.job, sup.lines,
                 sup.handled);
  }

  /** While a completed attempt holds the fence, only that attempt could write the run's status, and
  it writes SUCCEEDED. */
  lemma CompletedStatusKept(cfg: Settings, s: Evaluation, e: EvaluationEvent, now: Time, key: Key)
    requires EvaluationEnabled(cfg, s, e, now) && key in s.supervisors && key in SupervisorsAfter(s, e)
    requires SupervisorOk(s.sys.db, s.tables, key, s.supervisors[key])
    requires Fence(s.sys.db, key.job, s.supervisors[key].worker, key.attempt) && s.supervisors[key].completed
    ensures key.job in TablesAfter(s, e, now).runs && TablesAfter(s, e, now).runs[key.job].status.RunSucceeded?
  {
    var db, tb := s.sys.db, s.tables;
    match e
    case BeginEvaluation(i, k, w, _) => MarkGrows(db, tb, i, w, k, RunRunning, None);
    case HandleReport(i, k) =>
      var sup := s.supervisors[Key(i, k)];
      HandleGrows(db, tb, i, sup.worker, k, sup.lines[sup.handled]);
    case CompleteRun(i, k) => MarkGrows(db, tb, i, s.supervisors[Key(i, k)].worker, k, RunSucceeded, Some(now));
    case FailRun(i, k, w) => MarkGrows(db, tb, i, w, k, RunFailed, None);
    case _ =>
  }

  lemma OtherSupervisorKept(cfg: Settings, s: Evaluation, e: EvaluationEvent, now: Time, key: Key)
    requires EvaluationEnabled(cfg, s, e, now) && key in s.supervisors && key in SupervisorsAfter(s, e)
    requires SupervisorOk(s.sys.db, s.tables, key, s.supervisors[key])
    ensures SupervisorOk(s.sys.db, TablesAfter(s, e, now), key, s.supervisors[key])
  {
    TablesOnlyGrow(cfg, s, e, now);
    if Fence(s.sys.db, key.job, s.supervisors[key].worker, key.attempt) && s.supervisors[key].completed {
      CompletedStatusKept(cfg, s, e, now, key);
    }
    SupervisorCarries(s.sys.db, s.tables, TablesAfter(s, e, now), key, s.supervisors[key]);
  }

  lemma BegunSupervisorOk(s: Sys, tb: Tables, j: JobId, k: nat, w: WorkerId, latencies: nat -> real)
    requires Runner(j, k, w, true) in s.runners && RunnerOk(s.db, Runner(j, k, w, true)) && j in tb.runs
    ensures SupervisorOk(s.db, MarkStatusTx(s.db, tb, j, w, k, RunRunning, None), Key(j, k),
                         Supervisor(w, Reports(tb.runs[j].task, latencies), 0, false))
  {
    MarkGrows(s.db, tb, j, w, k, RunRunning, None);
  }

  lemma SupervisorKept(cfg: Settings, s: Evaluation, e: EvaluationEvent, now: Time, key: Key)
    requires SupervisorsOk(s.sys.db, s.tables, s.supervisors) && !e.JobEvent?
    requires forall r :: r in s.sys.runners ==> RunnerOk(s.sys.db, r)
    requires EvaluationEnabled(cfg, s, e, now) && key in SupervisorsAfter(s, e)
    ensures SupervisorOk(s.sys.db, TablesAfter(s, e, now), key, SupervisorsAfter(s, e)[key])
  {
    var db := s.sys.db;
    if key in s.supervisors && SupervisorsAfter(s, e)[key] == s.supervisors[key] {
      OtherSupervisorKept(cfg, s, e, now, key);
    } else {
      match e
      case BeginEvaluation(j, k, w, latencies) => BegunSupervisorOk(s.sys, s.tables, j, k, w, latencies);
      case HandleReport(j, k) => HandleKeepsSupervisor(db, s.tables, key, s.supervisors[key]);
      case CompleteRun(j, k) => CompleteKeepsSupervisor(db, s.tables, key, s.supervisors[key], now);
      case _ =>
    }
  }

  lemma ExactKept(cfg: Settings, s: Evaluation, e: EvaluationEvent, now: Time)
    requires TablesExact(s.tables) && SupervisorsOk(s.sys.db, s.tables, s.supervisors) && AllGenuine(s.tables, s.supervisors)
    requires EvaluationEnabled(cfg, s, e, now)
    ensures TablesExact(TablesAfter(s, e, now))
  {
    TablesOnlyGrow(cfg, s, e, now);
    if e.HandleReport? {
      var key := Key(e.job, e.attempt);
      var sup := s.supervisors[key];
      assert SupervisorOk(s.sys.db, s.tables, key, sup);
      HandledLine(s.sys.db, s.tables, e.job, sup.worker, e.attempt, sup.lines, sup.handled);
    } else {
      ExactCarries(s.tables, TablesAfter(s, e, now));
    }
  }

  lemma LinesKept(cfg: Settings, s: Evaluation, e: EvaluationEvent, now: Time, key: Key)
    requires EvaluationEnabled(cfg, s, e, now) && key in SupervisorsAfter(s, e)
    ensures if key in s.supervisors then SupervisorsAfter(s, e)[key].lines == s.supervisors[key].lines
            else e.BeginEvaluation? && key == Key(e.job, e.attempt) && e.job in s.tables.runs
                 && SupervisorsAfter(s, e)[key].lines == Reports(s.tables.runs[e.job].task, e.latencies)
  {
  }

  lemma GenuineKept(cfg: Settings, s: Evaluation, e: EvaluationEvent, now: Time, key: Key, runs': map<JobId, EvaluationRun>)
    requires EvaluationEnabled(cfg, s, e, now) && key in SupervisorsAfter(s, e)
    requires key in s.supervisors ==> key.job in s.tables.runs && Genuine(s.tables.runs[key.job].task, s.supervisors[key].lines)
    requires forall j :: j in s.tables.runs ==> j in runs' && runs'[j].task == s.tables.runs[j].task
    ensures key.job in runs' && Genuine(runs'[key.job].task, SupervisorsAfter(s, e)[key].lines)
  {
    LinesKept(cfg, s, e, now, key);
  }

  lemma TablesInvKept(cfg: Settings, s: Evaluation, e: EvaluationEvent, now: Time)
    requires TablesInv(s.sys.db, s.tables, s.supervisors) && forall r :: r in s.sys.runners ==> RunnerOk(s.sys.db, r)
    requires EvaluationEnabled(cfg, s, e, now) && !e.JobEvent?
    ensures TablesInv(s.sys.db, TablesAfter(s, e, now), SupervisorsAfter(s, e))
  {
    var tb', sups' := TablesAfter(s, e, now), SupervisorsAfter(s, e);
    TablesOnlyGrow(cfg, s, e, now);
    ExactKept(cfg, s, e, now);
    forall key | key in sups' ensures SupervisorOk(s.sys.db, tb', key, sups'[key]) {
      SupervisorKept(cfg, s, e, now, key);
    }
    forall key | key in sups' ensures key.job in tb'.runs && Genuine(tb'.runs[key.job].task, sups'[key].lines) {
      GenuineKept(cfg, s, e, now, key, tb'.runs);
    }
    forall j | j in tb'.runs ensures SucceededOk(s.sys.db, tb', j) {
      if j in s.tables.runs {
        SucceededKept(cfg, s, e, now, j);
      } else {
        NewRunOk(cfg, s, e, now, j);
      }
    }
  }

  lemma NewRunOk(cfg: Settings, s: Evaluation, e: EvaluationEvent, now: Time, j: JobId)
    requires EvaluationEnabled(cfg, s, e, now) && j in TablesAfter(s, e, now).runs && j !in s.tables.runs
    ensures SucceededOk(s.sys.db, TablesAfter(s, e, now), j)
  {
    if e.HandleReport? {
      var sup := s.supervisors[Key(e.job, e.attempt)];
      HandleGrows(s.sys.db, s.tables, e.job, sup.worker, e.attempt, sup.lines[sup.handled]);
    }
  }

  lemma EvaluationInvStep(cfg: Settings, s: Evaluation, e: EvaluationEvent, now: Time, t: Evaluation)
    requires ValidSettings(cfg) && EvaluationInv(cfg, s) && EvaluationStep(cfg, s, e, now, t)
    ensures EvaluationInv(cfg, t)
  {
    if e.JobEvent? {
      InvStep(cfg, s.sys, Entry(e.event, now), t.sys);
      JobEventKeeps(cfg, s, e.event, now);
    } else {
      TablesInvKept(cfg, s, e, now);
    }
  }

  // ----- whole runs ---------------------------------------------------------------------------------------------

  datatype EvaluationEntry = EvaluationEntry(event: EvaluationEvent, now: Time)

  datatype EvaluationTrace = EvaluationTrace(states: seq<Evaluation>, log: seq<EvaluationEntry>) {
    ghost predicate Valid(cfg: Settings) {
      && |states| == |log| + 1
      && Init(states[0].sys) && states[0].tables == Tables(map[], map[], map[]) && states[0].supervisors == map[]
      && (forall i {:trigger log[i]} | 0 <= i < |log| ::
            EvaluationStep(cfg, states[i], log[i].event, log[i].now, states[i + 1]))
    }
  }

  lemma {:induction false} EvaluationInvAlways(cfg: Settings, tr: EvaluationTrace, n: nat)
    requires ValidSettings(cfg) && tr.Valid(cfg) && n < |tr.states|
    ensures EvaluationInv(cfg, tr.states[n])
  {
    if n > 0 {
      EvaluationInvAlways(cfg, tr, n - 1);
      var en := tr.log[n - 1];
      EvaluationInvStep(cfg, tr.states[n - 1], en.event, en.now, tr.states[n]);
    }
  }

  /** Stored results and metrics are never rewritten, whatever attempts come later. */
  lemma {:induction false} StoredForever(cfg: Settings, tr: EvaluationTrace, m: nat, n: nat)
    requires tr.Valid(cfg) && m <= n < |tr.states|
    ensures TablesLater(tr.states[m].tables, tr.states[n].tables)
  {
    if m < n {
      StoredForever(cfg, tr, m, n - 1);
      var en := tr.log[n - 1];
      TablesOnlyGrow(cfg, tr.states[n - 1], en.event, en.now);
    }
  }

  ghost predicate JobSucceeded(s: Evaluation, j: JobId) {
    j in s.tables.runs && j in s.sys.db.jobs && s.sys.db.jobs[j].status.Succeeded?
  }

  /** The answer a single uninterrupted evaluation of `task` gives: per id the first example's row. */
  ghost predicate Answer(task: Task, tb: Tables, j: JobId) {
    var exs := Evaluated(task);
    && AllWellFormed(exs)
    && (forall id :: ResultKey(j, id) in tb.results <==> Some(id) in Ids(exs))
    && (forall i: nat, id :: IsFirst(exs, i, id) ==>
          ResultKey(j, id) in tb.results && RowOf(tb.results[ResultKey(j, id)], exs[i], task.param))
    && StoredMetric(task, tb, j, "exact_match")
    && StoredMetric(task, tb, j, "token_accuracy")
  }

  /** An accuracy metric is stored, with its exact value, if anything was evaluated. */
  predicate StoredMetric(task: Task, tb: Tables, j: JobId, name: string) {
    var key := MetricKey(j, name, task.split);
    && (key in tb.metrics <==> Evaluated(task) != [])
    && (key in tb.metrics ==> MetricExact(task, name, tb.metrics[key].value, tb.metrics[key].samples))
  }

  function Ids(exs: seq<Example>): set<Option<string>> {
    set i | 0 <= i < |exs| :: exs[i].id
  }

  lemma {:induction false} FirstExists(exs: seq<Example>, i: nat) returns (k: nat)
    requires i < |exs| && exs[i].id.Some?
    ensures k <= i && IsFirst(exs, k, exs[i].id.value)
  {
    if h :| 0 <= h < i && exs[h].id == exs[i].id {
      k := FirstExists(exs, h);
    } else {
      k := i;
    }
  }

  lemma ResultRows(tb: Tables, j: JobId, id: string)
    requires TablesExact(tb) && j in tb.runs && Settled(tb, j)
    ensures ResultKey(j, id) in tb.results <==> Some(id) in Ids(Evaluated(tb.runs[j].task))
  {
    var exs := Evaluated(tb.runs[j].task);
    if ResultKey(j, id) in tb.results {
      assert ResultOk(tb, ResultKey(j, id));
    }
    if Some(id) in Ids(exs) {
      var i :| 0 <= i < |exs| && exs[i].id == Some(id);
      assert ResultKey(j, exs[i].id.value) in tb.results;
    }
  }

  lemma FirstRow(tb: Tables, j: JobId, i: nat, id: string)
    requires TablesExact(tb) && j in tb.runs && Settled(tb, j) && IsFirst(Evaluated(tb.runs[j].task), i, id)
    ensures ResultKey(j, id) in tb.results
    ensures RowOf(tb.results[ResultKey(j, id)], Evaluated(tb.runs[j].task)[i], tb.runs[j].task.param)
  {
    var exs := Evaluated(tb.runs[j].task);
    assert ResultKey(j, exs[i].id.value) in tb.results;
    assert ResultOk(tb, ResultKey(j, id));
    var k: nat :| IsFirst(exs, k, id) && RowOf(tb.results[ResultKey(j, id)], exs[k], tb.runs[j].task.param);
    assert k == i;
  }

  lemma SettledMetric(tb: Tables, j: JobId, name: string)
    requires TablesExact(tb) && j in tb.runs && Settled(tb, j)
    requires name == "exact_match" || name == "token_accuracy"
    ensures StoredMetric(tb.runs[j].task, tb, j, name)
  {
    var key := MetricKey(j, name, tb.runs[j].task.split);
    assert key in tb.metrics ==> MetricOk(tb, key);
  }

  lemma SettledIsAnswer(tb: Tables, j: JobId)
    requires TablesExact(tb) && j in tb.runs && Settled(tb, j)
    ensures Answer(tb.runs[j].task, tb, j)
  {
    var exs := Evaluated(tb.runs[j].task);
    forall id ensures ResultKey(j, id) in tb.results <==> Some(id) in Ids(exs) {
      ResultRows(tb, j, id);
    }
    forall i: nat, id | IsFirst(exs, i, id)
      ensures ResultKey(j, id) in tb.results && RowOf(tb.results[ResultKey(j, id)], exs[i], tb.runs[j].task.param)
    {
      FirstRow(tb, j, i, id);
    }
    SettledMetric(tb, j, "exact_match");
    SettledMetric(tb, j, "token_accuracy");
  }

  /** Evaluation retries converge.  However many attempts were cut short, resumed by others or fenced
  out, once the job is SUCCEEDED its run is SUCCEEDED and the tables hold the answer one
  uninterrupted evaluation gives. */
  lemma SucceededEvaluationIsExact(cfg: Settings, tr: EvaluationTrace, n: nat, j: JobId)
    requires ValidSettings(cfg) && tr.Valid(cfg) && n < |tr.states| && JobSucceeded(tr.states[n], j)
    ensures tr.states[n].tables.runs[j].status.RunSucceeded?
    ensures Answer(tr.states[n].tables.runs[j].task, tr.states[n].tables, j)
  {
    EvaluationInvAlways(cfg, tr, n);
    assert SucceededOk(tr.states[n].sys.db, tr.states[n].tables, j);
    SettledIsAnswer(tr.states[n].tables, j);
  }

  /** Two evaluations of the same task, in whatever deployments and after whatever crashes, store the
  same predictions, scores and accuracy metrics. */
  lemma RetriesConverge(cfg: Settings, tr: EvaluationTrace, n: nat, j: JobId,
                        cfg': Settings, tr': EvaluationTrace, n': nat, j': JobId)
    requires ValidSettings(cfg) && tr.Valid(cfg) && n < |tr.states| && JobSucceeded(tr.states[n], j)
    requires ValidSettings(cfg') && tr'.Valid(cfg') && n' < |tr'.states| && JobSucceeded(tr'.states[n'], j')
    requires tr.states[n].tables.runs[j].task == tr'.states[n'].tables.runs[j'].task
    ensures SameAnswers(tr.states[n].tables, j, tr'.states[n'].tables, j', tr.states[n].tables.runs[j].task.split)
  {
    SucceededEvaluationIsExact(cfg, tr, n, j);
    SucceededEvaluationIsExact(cfg', tr', n', j');
    AnswersAgree(tr.states[n].tables.runs[j].task, tr.states[n].tables, j, tr'.states[n'].tables, j');
  }

  ghost predicate SameAnswers(tb: Tables, j: JobId, tb': Tables, j': JobId, split: string) {
    && (forall id :: ResultKey(j, id) in tb.results <==> ResultKey(j', id) in tb'.results)
    && (forall id :: ResultKey(j, id) in tb.results && ResultKey(j', id) in tb'.results ==>
          SameRow(tb.results[ResultKey(j, id)], tb'.results[ResultKey(j', id)]))
    && SameMetric(tb, j, tb', j', "exact_match", split)
    && SameMetric(tb, j, tb', j', "token_accuracy", split)
  }

  predicate SameRow(a: ResultRow, b: ResultRow) {
    a.prediction == b.prediction && a.expected == b.expected && a.score == b.score
  }

  predicate SameMetric(tb: Tables, j: JobId, tb': Tables, j': JobId, name: string, split: string) {
    var key, key' := MetricKey(j, name, split), MetricKey(j', name, split);
    && (key in tb.metrics <==> key' in tb'.metrics)
    && (key in tb.metrics ==>
          tb.metrics[key].value == tb'.metrics[key'].value && tb.metrics[key].samples == tb'.metrics[key'].samples)
  }

  lemma RowsAgree(task: Task, tb: Tables, j: JobId, tb': Tables, j': JobId, id: string)
    requires Answer(task, tb, j) && Answer(task, tb', j') && ResultKey(j, id) in tb.results
    ensures ResultKey(j', id) in tb'.results
    ensures SameRow(tb.results[ResultKey(j, id)], tb'.results[ResultKey(j', id)])
  {
    var exs := Evaluated(task);
    assert Some(id) in Ids(exs);
    var i :| 0 <= i < |exs| && exs[i].id == Some(id);
    var k := FirstExists(exs, i);
  }

  lemma AnswersAgree(task: Task, tb: Tables, j: JobId, tb': Tables, j': JobId)
    requires Answer(task, tb, j) && Answer(task, tb', j')
    ensures SameAnswers(tb, j, tb', j', task.split)
  {
    forall id | ResultKey(j, id) in tb.results
      ensures ResultKey(j', id) in tb'.results && SameRow(tb.results[ResultKey(j, id)], tb'.results[ResultKey(j', id)])
    {
      RowsAgree(task, tb, j, tb', j', id);
    }
    forall id | ResultKey(j', id) in tb'.results ensures ResultKey(j, id) in tb.results {
      RowsAgree(task, tb', j', tb, j, id);
    }
  }

  // ----- nothing changes after success --------------------------------------------------------------------------

  /** A run row is final once its job is SUCCEEDED. */
  lemma {:induction false} FrozenAfterSuccess(cfg: Settings, tr: EvaluationTrace, m: nat, n: nat, j: JobId)
    requires tr.Valid(cfg) && m <= n < |tr.states| && JobSucceeded(tr.states[m], j)
    ensures JobSucceeded(tr.states[n], j)
    ensures tr.states[n].tables.runs[j] == tr.states[m].tables.runs[j]
  {
    if m < n {
      FrozenAfterSuccess(cfg, tr, m, n - 1, j);
      FrozenStep(cfg, tr.states[n - 1], tr.log[n - 1].event, tr.log[n - 1].now, tr.states[n], j);
    }
  }

  lemma FrozenStep(cfg: Settings, s: Evaluation, e: EvaluationEvent, now: Time, t: Evaluation, j: JobId)
    requires EvaluationStep(cfg, s, e, now, t) && JobSucceeded(s, j)
    ensures JobSucceeded(t, j) && t.tables.runs[j] == s.tables.runs[j]
  {
    TablesOnlyGrow(cfg, s, e, now);
    StatusNeedsFence(cfg, s, e, now, j);
    if e.JobEvent? {
      StepLater(cfg, s.sys.db, e.event, now, j);
    }
  }

  /** Before that it is not final: exactly a fenced first or failing write of an attempt reopens a
  SUCCEEDED run, as when its worker lost the job before finalising. */
  lemma SucceededRunReopensIff(cfg: Settings, s: Evaluation, e: EvaluationEvent, now: Time, t: Evaluation, j: JobId)
    requires EvaluationStep(cfg, s, e, now, t) && j in s.tables.runs && s.tables.runs[j].status.RunSucceeded?
    ensures j in t.tables.runs
    ensures !t.tables.runs[j].status.RunSucceeded? <==>
      (e.BeginEvaluation? || e.FailRun?) && e.job == j && Fence(s.sys.db, j, e.worker, e.attempt)
  {
    var db, tb := s.sys.db, s.tables;
    match e
    case BeginEvaluation(i, k, w, _) => MarkGrows(db, tb, i, w, k, RunRunning, None);
    case HandleReport(i, k) =>
      var sup := s.supervisors[Key(i, k)];
      HandleGrows(db, tb, i, sup.worker, k, sup.lines[sup.handled]);
    case CompleteRun(i, k) => MarkGrows(db, tb, i, s.supervisors[Key(i, k)].worker, k, RunSucceeded, Some(now));
    case FailRun(i, k, w) => MarkGrows(db, tb, i, w, k, RunFailed, None);
    case _ =>
  }

  /** The accuracies stored for a SUCCEEDED evaluation are in order too. */
  lemma StoredOrdered(cfg: Settings, tr: EvaluationTrace, n: nat, j: JobId)
    requires ValidSettings(cfg) && tr.Valid(cfg) && n < |tr.states| && JobSucceeded(tr.states[n], j)
    requires Evaluated(tr.states[n].tables.runs[j].task) != []
    ensures var tb := tr.states[n].tables; var split := tb.runs[j].task.split;
            && MetricKey(j, "exact_match", split) in tb.metrics && MetricKey(j, "token_accuracy", split) in tb.metrics
            && tb.metrics[MetricKey(j, "exact_match", split)].value <= tb.metrics[MetricKey(j, "token_accuracy", split)].value
  {
    var task := tr.states[n].tables.runs[j].task;
    SucceededEvaluationIsExact(cfg, tr, n, j);
    AccuraciesOrdered(Evaluated(task), task.param);
  }

  /** In figures: a stored score is 1 or 0 for the prediction sharing its core with the expected text, and the
  stored exact-match metric is the share of the examples that do. */
  lemma StoredInFigures(cfg: Settings, tr: EvaluationTrace, n: nat, j: JobId, i: nat, id: string)
    requires ValidSettings(cfg) && tr.Valid(cfg) && n < |tr.states| && JobSucceeded(tr.states[n], j)
    requires IsFirst(Evaluated(tr.states[n].tables.runs[j].task), i, id)
    ensures var tb := tr.states[n].tables; var task := tb.runs[j].task; var exs := Evaluated(task);
            var prediction := Predict(Text(exs[i].input), task.param);
            && ResultKey(j, id) in tb.results && tb.results[ResultKey(j, id)].prediction == prediction
            && tb.results[ResultKey(j, id)].score == (if SameCore(prediction, Text(exs[i].expected)) then 1.0 else 0.0)
            && MetricKey(j, "exact_match", task.split) in tb.metrics
            && tb.metrics[MetricKey(j, "exact_match", task.split)].value == |Matching(exs, task.param)| as real / |exs| as real
  {
    var task := tr.states[n].tables.runs[j].task;
    var exs := Evaluated(task);
    SucceededEvaluationIsExact(cfg, tr, n, j);
    ExactMatchIff(Some(Prediction(exs[i], task.param)), exs[i].expected);
    ExactMean(exs, task.param);
  }

  // ----- what a reopening takes ---------------------------------------------------------------------------

  /** Some attempt completed the run. */
  ghost predicate CompletedBy(s: Evaluation, j: JobId, k: nat) {
    Key(j, k) in s.supervisors && s.supervisors[Key(j, k)].completed
  }

  ghost predicate SuccessesCompleted(s: Evaluation) {
    forall j :: j in s.tables.runs && s.tables.runs[j].status.RunSucceeded? ==> exists k :: CompletedBy(s, j, k)
  }

  lemma CompletedKept(cfg: Settings, s: Evaluation, e: EvaluationEvent, now: Time, t: Evaluation, j: JobId, k: nat)
    requires EvaluationStep(cfg, s, e, now, t) && CompletedBy(s, j, k) && SupervisorsOk(s.sys.db, s.tables, s.supervisors)
    ensures CompletedBy(t, j, k)
  {
    assert SupervisorOk(s.sys.db, s.tables, Key(j, k), s.supervisors[Key(j, k)]);
  }

  /** A status write that succeeds names its fenced attempt. */
  lemma BecomesSucceededRun(cfg: Settings, s: Evaluation, e: EvaluationEvent, now: Time, t: Evaluation, j: JobId)
    requires EvaluationStep(cfg, s, e, now, t) && j in t.tables.runs && t.tables.runs[j].status.RunSucceeded?
    ensures (j in s.tables.runs && s.tables.runs[j].status.RunSucceeded?)
         || (e.CompleteRun? && e.job == j && CompletedBy(t, j, e.attempt))
  {
    var db, tb := s.sys.db, s.tables;
    match e
    case BeginEvaluation(i, k, w, _) => MarkGrows(db, tb, i, w, k, RunRunning, None);
    case HandleReport(i, k) =>
      var sup := s.supervisors[Key(i, k)];
      HandleGrows(db, tb, i, sup.worker, k, sup.lines[sup.handled]);
    case CompleteRun(i, k) => MarkGrows(db, tb, i, s.supervisors[Key(i, k)].worker, k, RunSucceeded, Some(now));
    case FailRun(i, k, w) => MarkGrows(db, tb, i, w, k, RunFailed, None);
    case _ =>
  }

  lemma SuccessesCompletedStep(cfg: Settings, s: Evaluation, e: EvaluationEvent, now: Time, t: Evaluation, j: JobId) returns (k: nat)
    requires EvaluationStep(cfg, s, e, now, t) && SuccessesCompleted(s) && SupervisorsOk(s.sys.db, s.tables, s.supervisors)
    requires j in t.tables.runs && t.tables.runs[j].status.RunSucceeded?
    ensures CompletedBy(t, j, k)
  {
    BecomesSucceededRun(cfg, s, e, now, t, j);
    if j in s.tables.runs && s.tables.runs[j].status.RunSucceeded? {
      k :| CompletedBy(s, j, k);
      CompletedKept(cfg, s, e, now, t, j, k);
    } else {
      k := e.attempt;
    }
  }

  lemma {:induction false} SuccessesCompletedAlways(cfg: Settings, tr: EvaluationTrace, n: nat)
    requires ValidSettings(cfg) && tr.Valid(cfg) && n < |tr.states|
    ensures SuccessesCompleted(tr.states[n])
  {
    if n > 0 {
      var s, en, t := tr.states[n - 1], tr.log[n - 1], tr.states[n];
      SuccessesCompletedAlways(cfg, tr, n - 1);
      EvaluationInvAlways(cfg, tr, n - 1);
      forall j | j in t.tables.runs && t.tables.runs[j].status.RunSucceeded? ensures exists k :: CompletedBy(t, j, k) {
        var k := SuccessesCompletedStep(cfg, s, en.event, en.now, t, j);
      }
    }
  }

  lemma ReopeningIsLater(cfg: Settings, s: Evaluation, e: EvaluationEvent, now: Time, j: JobId, k: nat)
    requires EvaluationEnabled(cfg, s, e, now) && SupervisorsOk(s.sys.db, s.tables, s.supervisors) && CompletedBy(s, j, k)
    requires (e.BeginEvaluation? || e.FailRun?) && e.job == j && Fence(s.sys.db, j, e.worker, e.attempt)
    ensures k < e.attempt
  {
    assert SupervisorOk(s.sys.db, s.tables, Key(j, k), s.supervisors[Key(j, k)]);
  }

  /** In every run a SUCCEEDED run is reopened only by a later attempt than the one that completed it:
  the completing worker must have lost the job before finalising it. */
  lemma ReopenedByLaterAttempt(cfg: Settings, tr: EvaluationTrace, n: nat, j: JobId) returns (k: nat)
    requires ValidSettings(cfg) && tr.Valid(cfg) && n < |tr.log|
    requires j in tr.states[n].tables.runs && tr.states[n].tables.runs[j].status.RunSucceeded?
    requires j in tr.states[n + 1].tables.runs && !tr.states[n + 1].tables.runs[j].status.RunSucceeded?
    ensures CompletedBy(tr.states[n], j, k)
    ensures var e := tr.log[n].event;
            && (e.BeginEvaluation? || e.FailRun?) && e.job == j && k < e.attempt
            && Fence(tr.states[n].sys.db, j, e.worker, e.attempt)
  {
    k := Completing(cfg, tr, n, j);
    EvaluationInvAlways(cfg, tr, n);
    SucceededRunReopensIff(cfg, tr.states[n], tr.log[n].event, tr.log[n].now, tr.states[n + 1], j);
    ReopeningIsLater(cfg, tr.states[n], tr.log[n].event, tr.log[n].now, j, k);
  }

  lemma Completing(cfg: Settings, tr: EvaluationTrace, n: nat, j: JobId) returns (k: nat)
    requires ValidSettings(cfg) && tr.Valid(cfg) && n < |tr.states|
    requires j in tr.states[n].tables.runs && tr.states[n].tables.runs[j].status.RunSucceeded?
    ensures CompletedBy(tr.states[n], j, k)
  {
    SuccessesCompletedAlways(cfg, tr, n);
    k :| CompletedBy(tr.states[n], j, k);
  }

  // ----- distinct ids -------------------------------------------------------------------------------------------

  predicate DistinctIds(exs: seq<Example>) {
    forall i, k :: 0 <= i < k < |exs| ==> exs[i].id != exs[k].id
  }

  /** The scores stored for the evaluated examples, in dataset order. */
  ghost function StoredScores(tb: Tables, j: JobId, exs: seq<Example>): (r: seq<real>)
    requires AllWellFormed(exs)
    requires forall i :: 0 <= i < |exs| ==> ResultKey(j, exs[i].id.value) in tb.results
    ensures |r| == |exs| && forall i :: 0 <= i < |exs| ==> r[i] == tb.results[ResultKey(j, exs[i].id.value)].score
  {
    seq(|exs|, i requires 0 <= i < |exs| => tb.results[ResultKey(j, exs[i].id.value)].score)
  }

  lemma AnswerScores(task: Task, tb: Tables, j: JobId, i: nat)
    requires Answer(task, tb, j) && i < |Evaluated(task)|
    ensures Evaluated(task)[i].id.Some? && ResultKey(j, Evaluated(task)[i].id.value) in tb.results
    ensures DistinctIds(Evaluated(task)) ==>
      RowOf(tb.results[ResultKey(j, Evaluated(task)[i].id.value)], Evaluated(task)[i], task.param)
  {
    var exs := Evaluated(task);
    assert WellFormed(exs[i]);
    var id := exs[i].id.value;
    assert Some(id) in Ids(exs);
    if DistinctIds(exs) {
      assert IsFirst(exs, i, id);
    }
  }

  lemma StoredScoresExact(task: Task, tb: Tables, j: JobId)
    requires Answer(task, tb, j) && DistinctIds(Evaluated(task))
    ensures forall i :: 0 <= i < |Evaluated(task)| ==> ResultKey(j, Evaluated(task)[i].id.value) in tb.results
    ensures StoredScores(tb, j, Evaluated(task)) == ExactScores(Evaluated(task), task.param)
  {
    var exs := Evaluated(task);
    forall i | 0 <= i < |exs|
      ensures ResultKey(j, exs[i].id.value) in tb.results
      ensures tb.results[ResultKey(j, exs[i].id.value)].score == ExactScores(exs, task.param)[i]
    {
      AnswerScores(task, tb, j, i);
      ExactScoreAt(exs, task.param, i);
    }
  }

  /** With distinct ids every evaluated example has its own stored score, and the stored exact-match
  metric is their mean. */
  lemma MetricIsMeanOfStored(cfg: Settings, tr: EvaluationTrace, n: nat, j: JobId)
    requires ValidSettings(cfg) && tr.Valid(cfg) && n < |tr.states| && JobSucceeded(tr.states[n], j)
    requires DistinctIds(Evaluated(tr.states[n].tables.runs[j].task)) && Evaluated(tr.states[n].tables.runs[j].task) != []
    ensures var tb := tr.states[n].tables; var task := tb.runs[j].task; var exs := Evaluated(task);
            && AllWellFormed(exs)
            && (forall i :: 0 <= i < |exs| ==> ResultKey(j, exs[i].id.value) in tb.results)
            && MetricKey(j, "exact_match", task.split) in tb.metrics
            && tb.metrics[MetricKey(j, "exact_match", task.split)].value == Mean(StoredScores(tb, j, exs))
  {
    SucceededEvaluationIsExact(cfg, tr, n, j);
    StoredScoresExact(tr.states[n].tables.runs[j].task, tr.states[n].tables, j);
  }

  lemma DistinctSplit(exs: seq<Example>)
    requires exs != []
    ensures DistinctIds(exs) <==> DistinctIds(exs[..|exs| - 1]) && exs[|exs| - 1].id !in Ids(exs[..|exs| - 1])
  {
    var n := |exs| - 1;
    if exs[n].id in Ids(exs[..n]) {
      var i :| 0 <= i < n && exs[..n][i].id == exs[n].id;
      assert exs[i].id == exs[n].id;
    } else {
      assert forall i :: 0 <= i < n ==> exs[..n][i].id in Ids(exs[..n]);
    }
  }

  lemma {:induction false} IdsCount(exs: seq<Example>)
    ensures |Ids(exs)| <= |exs|
    ensures |Ids(exs)| == |exs| <==> DistinctIds(exs)
  {
    if exs != [] {
      IdsCount(exs[..|exs| - 1]);
      IdsSplit(exs);
      DistinctSplit(exs);
    }
  }

  lemma IdsSplit(exs: seq<Example>)
    requires exs != []
    ensures Ids(exs) == Ids(exs[..|exs| - 1]) + {exs[|exs| - 1].id}
  {
    var n := |exs| - 1;
    forall x | x in Ids(exs) ensures x in Ids(exs[..n]) + {exs[n].id} {
      var i :| 0 <= i < |exs| && exs[i].id == x;
      if i < n {
        assert exs[..n][i].id == x;
      }
    }
  }

  function StoredKeys(tb: Tables, j: JobId): set<ResultKey> {
    set key | key in tb.results && key.run == j
  }

  lemma KeysMatchIds(a: set<ResultKey>, b: set<Option<string>>, j: JobId)
    requires forall key :: key in a ==> key.run == j
    requires forall id :: ResultKey(j, id) in a <==> Some(id) in b
    requires None !in b
    ensures |a| == |b|
  {
    assert forall x :: x in b ==> x.Some? && ResultKey(j, x.value) in a;
    if a != {} {
      var key :| key in a;
      assert Some(key.example) in b;
      KeysMatchIds(a - {key}, b - {Some(key.example)}, j);
    }
  }

  /** A finished evaluation has as many stored results as evaluated examples exactly when their ids are
  distinct. */
  lemma StoredCount(cfg: Settings, tr: EvaluationTrace, n: nat, j: JobId)
    requires ValidSettings(cfg) && tr.Valid(cfg) && n < |tr.states| && JobSucceeded(tr.states[n], j)
    ensures var tb := tr.states[n].tables; var exs := Evaluated(tb.runs[j].task);
            |StoredKeys(tb, j)| == |exs| <==> DistinctIds(exs)
  {
    SucceededEvaluationIsExact(cfg, tr, n, j);
    var tb := tr.states[n].tables;
    var exs := Evaluated(tb.runs[j].task);
    assert forall i :: 0 <= i < |exs| ==> WellFormed(exs[i]);
    KeysMatchIds(StoredKeys(tb, j), Ids(exs), j);
    IdsCount(exs);
  }
}
