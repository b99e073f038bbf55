/** The evaluation tables as a mutable store, and the worker's supervision of an evaluator process. */
module EvaluationService {
  import opened Types
  import opened Transactions
  import opened Repository
  import opened Evaluator
  import opened EvaluationRuns
  import opened EvaluationProofs
  import opened Supervision

  class Store {
    var runs: map<JobId, EvaluationRun>
    var results: map<ResultKey, ResultRow>
    var metrics: map<MetricKey, MetricRow>

    constructor ()
      ensures View() == Tables(map[], map[], map[])
    {
      runs, results, metrics := map[], map[], map[];
    }

    ghost function View(): Tables
      reads this
    {
      Tables(runs, results, metrics)
    }

    method MarkStatus(db: Database, j: JobId, w: WorkerId, k: nat, status: RunStatus, completedAt: Option<Time>)
      returns (marked: bool)
      modifies this`runs
      ensures View() == MarkStatusTx(db.View(), old(View()), j, w, k, status, completedAt)
      ensures marked <==> Fence(db.View(), j, w, k) && j in old(runs)
      ensures runs == if marked then old(runs)[j := old(runs)[j].(status := status, completedAt := completedAt)] else old(runs)
    {
      var fenced := db.Fences(j, w, k);
      marked := j in runs && fenced;
      if marked {
        runs := runs[j := runs[j].(status := status, completedAt := completedAt)];
      }
    }

    /** INSERT ... ON CONFLICT DO NOTHING. */
    method RecordResult(db: Database, key: ResultKey, w: WorkerId, row: ResultRow) returns (inserted: bool)
      modifies this`results
      ensures View() == RecordResultTx(db.View(), old(View()), key, w, row)
      ensures inserted <==> Fence(db.View(), key.run, w, row.attempt) && key !in old(results)
      ensures results == if inserted then old(results)[key := row] else old(results)
    {
      var fenced := db.Fences(key.run, w, row.attempt);
      inserted := fenced && key !in results;
      if inserted {
        results := results[key := row];
      }
    }

    method RecordMetric(db: Database, key: MetricKey, w: WorkerId, row: MetricRow) returns (inserted: bool)
      modifies this`metrics
      ensures View() == RecordMetricTx(db.View(), old(View()), key, w, row)
      ensures inserted <==> Fence(db.View(), key.run, w, row.attempt) && key !in old(metrics)
      ensures metrics == if inserted then old(metrics)[key := row] else old(metrics)
    {
      var fenced := db.Fences(key.run, w, row.attempt);
      inserted := fenced && key !in metrics;
      if inserted {
        metrics := metrics[key := row];
      }
    }
  }

  /** One line of the subprocess's output; `Noise` is anything that is not a known event. */
  datatype Line = Noise | GpuCheckFailed | ArtifactCheckFailed | Body(report: Report)

  function SignalOf(line: Line): Signal {
    match line
    case Noise => Quiet
    case GpuCheckFailed => Problem(Transient)
    case ArtifactCheckFailed => Problem(Permanent)
    case Body(r) => if r.FinalReport? then Done else if r.ErrorReport? then Problem(Permanent) else Quiet
  }

  function LineTx(db: Db, tb: Tables, j: JobId, w: WorkerId, k: nat, line: Line): Tables {
    match line
    case Body(r) => HandleReportTx(db, tb, j, w, k, r)
    case _ => tb
  }

  /** The tables after the supervisor has handled `lines` in order. */
  function Handled(db: Db, tb: Tables, j: JobId, w: WorkerId, k: nat, lines: seq<Line>): Tables {
    if lines == [] then tb
    else LineTx(db, Handled(db, tb, j, w, k, lines[..|lines| - 1]), j, w, k, lines[|lines| - 1])
  }

  lemma HandledOneMore(db: Db, tb: Tables, j: JobId, w: WorkerId, k: nat, lines: seq<Line>, i: nat)
    requires i < |lines|
    ensures Handled(db, tb, j, w, k, lines[..i + 1]) == LineTx(db, Handled(db, tb, j, w, k, lines[..i]), j, w, k, lines[i])
  {
    assert lines[..i + 1][..i] == lines[..i];
  }

  method HandleLine(db: Database, store: Store, j: JobId, w: WorkerId, k: nat, line: Line) returns (signal: Signal)
    modifies store`results, store`metrics
    ensures store.View() == LineTx(db.View(), old(store.View()), j, w, k, line)
    ensures signal == SignalOf(line)
    // how each line counts, and the row it writes
    ensures line.GpuCheckFailed? ==> signal == Problem(Transient)
    ensures line.ArtifactCheckFailed? || (line.Body? && line.report.ErrorReport?) ==> signal == Problem(Permanent)
    ensures signal == Done <==> line.Body? && line.report.FinalReport?
    ensures line.Noise? || (line.Body? && (line.report.ResultReport? || line.report.MetricReport?)) ==> signal == Quiet
    ensures store.results == if line.Body? && line.report.ResultReport? && Fence(db.View(), j, w, k)
                                && ResultKey(j, line.report.id) !in old(store.results)
      then old(store.results)[ResultKey(j, line.report.id) :=
             ResultRow(line.report.prediction, line.report.expected, line.report.score, line.report.latency, k)]
      else old(store.results)
    ensures store.metrics == if line.Body? && line.report.MetricReport? && Fence(db.View(), j, w, k)
                                && MetricKey(j, line.report.name, line.report.split) !in old(store.metrics)
      then old(store.metrics)[MetricKey(j, line.report.name, line.report.split) :=
             MetricRow(line.report.value, line.report.samples, k)]
      else old(store.metrics)
  {
    signal := Quiet;
    match line {
      case Noise =>
      case GpuCheckFailed => signal := Problem(Transient);
      case ArtifactCheckFailed => signal := Problem(Permanent);
      case Body(report) =>
        match report {
          case ResultReport(id, prediction, expected, score, latency) =>
            var inserted := store.RecordResult(db, ResultKey(j, id), w, ResultRow(prediction, expected, score, latency, k));
          case MetricReport(name, value, split, samples) =>
            var inserted := store.RecordMetric(db, MetricKey(j, name, split), w, MetricRow(value, samples, k));
          case FinalReport(_) => signal := Done;
          case ErrorReport => signal := Problem(Permanent);
        }
    }
  }

  /** The loop over the subprocess's output. */
  method Supervise(db: Database, store: Store, j: JobId, w: WorkerId, k: nat, lines: seq<Line>, abandonedAt: Option<nat>)
    returns (abandoned: bool, verdict: Outcome)
    modifies store`results, store`metrics
    ensures abandoned <==> AbandonedBy(abandonedAt, |lines|)
    ensures store.View() ==
      Handled(db.View(), old(store.View()), j, w, k, if abandoned then lines[..abandonedAt.value] else lines)
    ensures !abandoned ==> verdict == Verdict(Tallied(Signals(SignalOf, lines)))
  {
    var tally := Tally(false, None);
    ghost var tables := store.View();
    var i := 0;
    while i < |lines|
      invariant i <= |lines|
      invariant abandonedAt.Some? ==> i <= abandonedAt.value
      invariant store.View() == Handled(db.View(), tables, j, w, k, lines[..i])
      invariant tally == Tallied(Signals(SignalOf, lines[..i]))
    {
      if abandonedAt == Some(i) {
        return true, Failure(Transient);
      }
      var signal := HandleLine(db, store, j, w, k, lines[i]);
      HandledOneMore(db.View(), tables, j, w, k, lines, i);
      TalliedOneMore(SignalOf, lines, i);
      tally := Tally(tally.done || signal == Done, if signal.Problem? then Some(signal.classification) else tally.error);
      i := i + 1;
    }
    assert lines[..i] == lines;
    abandoned := abandonedAt == Some(i);
    verdict := Verdict(tally);
  }

  /** The run's status when its supervisor returns. */
  function StatusAfter(verdict: Outcome): RunStatus {
    if verdict.Success? then RunSucceeded else RunFailed
  }

  predicate Erred(line: Line) {
    line.GpuCheckFailed? || line.ArtifactCheckFailed? || (line.Body? && line.report.ErrorReport?)
  }

  /** The verdict, line by line. */
  lemma VerdictPlainly(lines: seq<Line>, outcome: Outcome)
    requires Judged(Signals(SignalOf, lines), outcome)
    ensures outcome == Success <==> exists i :: 0 <= i < |lines| && lines[i].Body? && lines[i].report.FinalReport?
    ensures forall i | 0 <= i < |lines| && Erred(lines[i]) && outcome != Success
                      && (forall k :: i < k < |lines| ==> !Erred(lines[k])) ::
              outcome == Failure(if lines[i].GpuCheckFailed? then Transient else Permanent)
    ensures outcome != Success && (forall i :: 0 <= i < |lines| ==> !Erred(lines[i])) ==> outcome == Failure(Unknown)
  {
    var signals := Signals(SignalOf, lines);
    if i :| 0 <= i < |lines| && lines[i].Body? && lines[i].report.FinalReport? {
      assert signals[i] == Done;
    }
    if Done in signals {
      var i :| 0 <= i < |signals| && signals[i] == Done;
      assert lines[i].Body? && lines[i].report.FinalReport?;
    }
    forall i | 0 <= i < |lines| && Erred(lines[i]) && outcome != Success && (forall k :: i < k < |lines| ==> !Erred(lines[k]))
      ensures outcome == Failure(if lines[i].GpuCheckFailed? then Transient else Permanent)
    {
      assert LastProblem(signals, i);
    }
  }

  /** One evaluation attempt without interference.  `usable` says whether the model and dataset
  artifacts are UPLOADED and can be downloaded. */
  method RunEvaluationAttempt(db: Database, store: Store, j: JobId, w: WorkerId, k: nat, usable: bool, lines: seq<Line>,
                              abandonedAt: Option<nat>, now: Time) returns (outcome: Outcome)
    requires j in store.runs
    modifies store
    ensures !Fence(db.View(), j, w, k) ==> store.View() == old(store.View()) && outcome == Failure(if usable then Transient else Permanent)
    ensures Fence(db.View(), j, w, k) ==> j in store.runs && store.runs[j].task == old(store.runs)[j].task
    ensures Fence(db.View(), j, w, k) && (!usable || !AbandonedBy(abandonedAt, |lines|)) ==>
      store.runs[j].status == (if outcome.Success? then RunSucceeded else RunFailed)
      && store.runs[j].completedAt == (if outcome.Success? then Some(now) else None)
    ensures Fence(db.View(), j, w, k) && !usable ==>
      outcome == Failure(Permanent) && store.View() == MarkStatusTx(db.View(), old(store.View()), j, w, k, RunFailed, None)
    // line by line: abandoned, else finished, else the last error, else unknown
    ensures Fence(db.View(), j, w, k) && usable && abandonedAt.Some? && abandonedAt.value <= |lines| ==> outcome == Failure(Transient)
    ensures Fence(db.View(), j, w, k) && usable && (abandonedAt.None? || abandonedAt.value > |lines|) ==>
      && (outcome == Success <==> exists i :: 0 <= i < |lines| && lines[i].Body? && lines[i].report.FinalReport?)
      && (forall i | 0 <= i < |lines| && Erred(lines[i]) && outcome != Success
                     && (forall k :: i < k < |lines| ==> !Erred(lines[k])) ::
            outcome == Failure(if lines[i].GpuCheckFailed? then Transient else Permanent))
      && (outcome != Success && (forall i :: 0 <= i < |lines| ==> !Erred(lines[i])) ==> outcome == Failure(Unknown))
    ensures Fence(db.View(), j, w, k) && usable ==>
      var begun := MarkStatusTx(db.View(), old(store.View()), j, w, k, RunRunning, None);
      if AbandonedBy(abandonedAt, |lines|) then
        outcome == Failure(Transient) && store.View() == Handled(db.View(), begun, j, w, k, lines[..abandonedAt.value])
      else
        && Judged(Signals(SignalOf, lines), outcome)
        && store.View() == MarkStatusTx(db.View(), Handled(db.View(), begun, j, w, k, lines), j, w, k, StatusAfter(outcome),
                                        if outcome.Success? then Some(now) else None)
  {
    var marked: bool;
    if !usable {
      marked := store.MarkStatus(db, j, w, k, RunFailed, None);
      return Failure(Permanent);
    }
    marked := store.MarkStatus(db, j, w, k, RunRunning, None);
    if !marked {
      return Failure(Transient);
    }
    var abandoned, verdict := Supervise(db, store, j, w, k, lines, abandonedAt);
    if abandoned {
      return Failure(Transient);
    }
    VerdictJudged(Signals(SignalOf, lines));
    VerdictPlainly(lines, verdict);
    outcome := verdict;
    if verdict == Success {
      marked := store.MarkStatus(db, j, w, k, RunSucceeded, Some(now));
      if !marked {
        outcome := Failure(Transient);
      }
    } else {
      marked := store.MarkStatus(db, j, w, k, RunFailed, None);
    }
  }

  // ----- an attempt that is not interrupted gives the answer --------------------------------------------------

  function BodyLines(reports: seq<Report>): (r: seq<Line>)
    ensures |r| == |reports| && forall i :: 0 <= i < |reports| ==> r[i] == Body(reports[i])
  {
    seq(|reports|, i requires 0 <= i < |reports| => Body(reports[i]))
  }

  lemma HandledOne(db: Db, tb: Tables, j: JobId, w: WorkerId, k: nat, reports: seq<Report>, n: nat)
    requires j in tb.runs && n < |reports| && Genuine(tb.runs[j].task, reports) && TablesExact(tb) && Fence(db, j, w, k)
    requires AllRecorded(tb, j, reports, n)
    ensures var tb' := HandleReportTx(db, tb, j, w, k, reports[n]);
            TablesExact(tb') && AllRecorded(tb', j, reports, n + 1) && tb'.runs == tb.runs
  {
    HandledLine(db, tb, j, w, k, reports, n);
    HandleRecords(db, tb, j, w, k, reports, n);
    HandleGrows(db, tb, j, w, k, reports[n]);
  }

  /** `tb'` is an exact continuation of `tb` holding what the first `n` lines reported. */
  ghost predicate UpTo(tb: Tables, tb': Tables, j: JobId, reports: seq<Report>, n: nat)
    requires n <= |reports|
  {
    TablesExact(tb') && AllRecorded(tb', j, reports, n) && tb'.runs == tb.runs
  }

  lemma UpToOneMore(db: Db, tb: Tables, mid: Tables, j: JobId, w: WorkerId, k: nat, reports: seq<Report>, n: nat)
    requires j in tb.runs && n < |reports| && Genuine(tb.runs[j].task, reports) && Fence(db, j, w, k)
    requires UpTo(tb, mid, j, reports, n)
    ensures UpTo(tb, LineTx(db, mid, j, w, k, BodyLines(reports)[n]), j, reports, n + 1)
  {
    HandledOne(db, mid, j, w, k, reports, n);
  }

  lemma {:induction false} HandledAll(db: Db, tb: Tables, j: JobId, w: WorkerId, k: nat, reports: seq<Report>, n: nat)
    requires j in tb.runs && n <= |reports| && Genuine(tb.runs[j].task, reports) && TablesExact(tb) && Fence(db, j, w, k)
    ensures UpTo(tb, Handled(db, tb, j, w, k, BodyLines(reports)[..n]), j, reports, n)
    decreases n
  {
    if n > 0 {
      var mid := Handled(db, tb, j, w, k, BodyLines(reports)[..n - 1]);
      HandledAll(db, tb, j, w, k, reports, n - 1);
      UpToOneMore(db, tb, mid, j, w, k, reports, n - 1);
      HandledOneMore(db, tb, j, w, k, BodyLines(reports), n - 1);
    }
  }

  /** One attempt that reads its evaluator to the end leaves the very answer retries converge to,
  whatever partial results earlier attempts left behind. */
  lemma UninterruptedAttemptAnswers(db: Db, tb: Tables, j: JobId, w: WorkerId, k: nat, latencies: nat -> real, now: Time)
    requires j in tb.runs && TablesExact(tb) && Fence(db, j, w, k)
    requires var all := Reports(tb.runs[j].task, latencies); all[|all| - 1].FinalReport?
    ensures var begun := MarkStatusTx(db, tb, j, w, k, RunRunning, None);
            var handled := Handled(db, begun, j, w, k, BodyLines(Reports(tb.runs[j].task, latencies)));
            Answer(tb.runs[j].task, MarkStatusTx(db, handled, j, w, k, RunSucceeded, Some(now)), j)
  {
    var reports := Reports(tb.runs[j].task, latencies);
    var begun := MarkStatusTx(db, tb, j, w, k, RunRunning, None);
    MarkGrows(db, tb, j, w, k, RunRunning, None);
    ExactCarries(tb, begun);
    HandledAll(db, begun, j, w, k, reports, |reports|);
    assert BodyLines(reports)[..|reports|] == BodyLines(reports);
    var handled := Handled(db, begun, j, w, k, BodyLines(reports));
    var final := MarkStatusTx(db, handled, j, w, k, RunSucceeded, Some(now));
    MarkGrows(db, handled, j, w, k, RunSucceeded, Some(now));
    ExactCarries(handled, final);
    RecordedKept(handled, final, j, reports, |reports|);
    FinalMeansSettled(final, j, Supervisor(w, reports, |reports|, true));
    SettledIsAnswer(final, j);
  }
}
