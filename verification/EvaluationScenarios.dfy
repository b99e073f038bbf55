/** Concrete runs of the evaluation system: a success, and a SUCCEEDED run that is reopened. */
module EvaluationScenarios {
  import opened Types
  import opened Protocol
  import Effects
  import opened Evaluator
  import opened EvaluationRuns
  import opened EvaluationProofs
  import opened Scenarios

  function End(tr: EvaluationTrace): Evaluation
    requires tr.states != []
  {
    tr.states[|tr.states| - 1]
  }

  lemma TraceExtended(cfg: Settings, tr: EvaluationTrace, e: EvaluationEvent, now: Time) returns (longer: EvaluationTrace)
    requires tr.Valid(cfg) && End(tr).sys.clock <= now && EvaluationEnabled(cfg, End(tr), e, now)
    ensures longer.Valid(cfg) && longer.states == tr.states + [EvaluationAfter(cfg, End(tr), e, now)]
    ensures longer.log == tr.log + [EvaluationEntry(e, now)]
  {
    longer := EvaluationTrace(tr.states + [EvaluationAfter(cfg, End(tr), e, now)], tr.log + [EvaluationEntry(e, now)]);
    forall i | 0 <= i < |longer.log|
      ensures EvaluationStep(cfg, longer.states[i], longer.log[i].event, longer.log[i].now, longer.states[i + 1])
    {
      assert i < |tr.log| ==> longer.log[i] == tr.log[i];
    }
  }

  /** The rest of a run of the job protocol, from position `from`, that finalises nothing. */
  lemma {:induction false} Lifted(cfg: Settings, tr: EvaluationTrace, run: Run, from: nat) returns (longer: EvaluationTrace)
    requires tr.Valid(cfg) && run.Valid(cfg) && from <= |run.log| && End(tr).sys == run.states[from]
    requires forall i :: from <= i < |run.log| ==> !run.log[i].event.Finalize?
    ensures longer.Valid(cfg) && tr.states <= longer.states
    ensures End(longer) == End(tr).(sys := Last(run))
    decreases |run.log| - from
  {
    longer := tr;
    if from < |run.log| {
      assert Step(cfg, run.states[from], run.log[from], run.states[from + 1]);
      longer := TraceExtended(cfg, tr, EvaluationEvent.JobEvent(run.log[from].event), run.log[from].now);
      longer := Lifted(cfg, longer, run, from + 1);
    }
  }

  // ----- one attempt that completes the run ---------------------------------------------------------------

  /** Attempt 1 has handled `n` lines and owns the job. */
  ghost predicate Evaluating(cfg: Settings, s: Evaluation, now: Time, task: Task, lines: seq<Report>, n: nat) {
    && Working(cfg, s.sys, 1, now)
    && 0 in s.tables.runs && s.tables.runs[0].task == task
    && s.supervisors == map[Key(0, 1) := Supervisor("w", lines, n, false)]
  }

  lemma Prepared(cfg: Settings, s: Sys, task: Task) returns (run: Run, tr: EvaluationTrace)
    requires Init(s) && Roomy(s)
    ensures run.Valid(cfg) && Working(cfg, Last(run), 1, s.clock)
    ensures tr.Valid(cfg) && tr.states[0].sys == s
    ensures End(tr) == Evaluation(Last(run), Tables(map[0 := EvaluationRun(task, RunQueued, None)], map[], map[]), map[])
  {
    var created := Created(cfg, s);
    tr := EvaluationTrace([Evaluation(s, Tables(map[], map[], map[]), map[])], []);
    tr := Lifted(cfg, tr, created, 0);
    tr := TraceExtended(cfg, tr, CreateRun(0, task), s.clock);
    run := TakenUp(cfg, created, 0, s.clock);
    tr := Lifted(cfg, tr, run, 1);
  }

  lemma Begun(cfg: Settings, s: Sys, task: Task, latencies: nat -> real) returns (run: Run, tr: EvaluationTrace)
    requires Init(s) && Roomy(s)
    ensures run.Valid(cfg) && tr.Valid(cfg) && tr.states[0].sys == s && End(tr).sys == Last(run)
    ensures Evaluating(cfg, End(tr), s.clock, task, Reports(task, latencies), 0)
  {
    run, tr := Prepared(cfg, s, task);
    tr := TraceExtended(cfg, tr, BeginEvaluation(0, 1, "w", latencies), s.clock);
  }

  lemma OneHandled(cfg: Settings, s: Evaluation, now: Time, task: Task, lines: seq<Report>, n: nat)
    requires Evaluating(cfg, s, now, task, lines, n) && n < |lines|
    ensures EvaluationEnabled(cfg, s, HandleReport(0, 1), now)
    ensures var t := EvaluationAfter(cfg, s, HandleReport(0, 1), now);
            t.sys == s.sys && Evaluating(cfg, t, now, task, lines, n + 1)
  {
    HandleGrows(s.sys.db, s.tables, 0, "w", 1, lines[n]);
  }

  lemma {:induction false} AllHandled(cfg: Settings, tr: EvaluationTrace, now: Time, task: Task, lines: seq<Report>, n: nat)
    returns (longer: EvaluationTrace)
    requires tr.Valid(cfg) && Evaluating(cfg, End(tr), now, task, lines, n) && n <= |lines|
    ensures longer.Valid(cfg) && longer.states[0] == tr.states[0] && End(longer).sys == End(tr).sys
    ensures Evaluating(cfg, End(longer), now, task, lines, |lines|)
    decreases |lines| - n
  {
    longer := tr;
    if n < |lines| {
      OneHandled(cfg, End(tr), now, task, lines, n);
      longer := TraceExtended(cfg, tr, HandleReport(0, 1), now);
      longer := AllHandled(cfg, longer, now, task, lines, n + 1);
    }
  }

  /** Attempt 1 has marked the run SUCCEEDED and still owns the job. */
  ghost predicate Completed(cfg: Settings, s: Evaluation, now: Time, task: Task) {
    && Working(cfg, s.sys, 1, now)
    && 0 in s.tables.runs && s.tables.runs[0].task == task && s.tables.runs[0].status.RunSucceeded?
    && s.supervisors.Keys == {Key(0, 1)}
    && s.supervisors[Key(0, 1)].worker == "w" && s.supervisors[Key(0, 1)].completed
  }

  lemma RunCompleted(cfg: Settings, s: Sys, task: Task, latencies: nat -> real) returns (run: Run, tr: EvaluationTrace)
    requires Init(s) && Roomy(s) && Usable(Evaluated(task)) == |Evaluated(task)|
    ensures run.Valid(cfg) && tr.Valid(cfg) && tr.states[0].sys == s && End(tr).sys == Last(run)
    ensures Completed(cfg, End(tr), s.clock, task)
  {
    var lines := Reports(task, latencies);
    run, tr := Begun(cfg, s, task, latencies);
    tr := AllHandled(cfg, tr, s.clock, task, lines, 0);
    EndAt(task, latencies);
    tr := TraceExtended(cfg, tr, CompleteRun(0, 1), s.clock);
  }

  /** Every task whose examples are well formed can succeed: some run of the system ends with the job
  SUCCEEDED. */
  lemma EvaluationSucceeds(cfg: Settings, s: Sys, task: Task, latencies: nat -> real) returns (tr: EvaluationTrace)
    requires Init(s) && Roomy(s) && Usable(Evaluated(task)) == |Evaluated(task)|
    ensures tr.Valid(cfg) && tr.states[0].sys == s
    ensures JobSucceeded(End(tr), 0) && End(tr).tables.runs[0].task == task
  {
    var run: Run;
    run, tr := RunCompleted(cfg, s, task, latencies);
    var e := Finalize(0, 1, "w", Success, s.clock);
    Effects.FinalizeEffect(cfg, End(tr).sys.db, e, s.clock, 0, Key(0, 1));
    tr := TraceExtended(cfg, tr, EvaluationEvent.JobEvent(e), s.clock);
  }

  /** Recovery has taken the job back and attempt 2 is under way. */
  lemma TakenOver(cfg: Settings, s: Sys, task: Task, latencies: nat -> real) returns (tr: EvaluationTrace)
    requires ValidSettings(cfg) && cfg.maxAttempts > 1 && Init(s) && Roomy(s)
    requires Usable(Evaluated(task)) == |Evaluated(task)|
    ensures tr.Valid(cfg) && tr.states[0].sys == s
    ensures Working(cfg, End(tr).sys, 2, Lapse(cfg, s.clock)) && Key(0, 2) !in End(tr).supervisors
    ensures 0 in End(tr).tables.runs && End(tr).tables.runs[0].status.RunSucceeded?
  {
    var run: Run;
    run, tr := RunCompleted(cfg, s, task, latencies);
    var back := Reclaimed(cfg, run, run, 1, s.clock);
    var again := TakenUp(cfg, back, 1, Lapse(cfg, s.clock));
    assert again.states[|run.log|] == run.states[|run.log|];
    tr := Lifted(cfg, tr, again, |run.log|);
  }

  lemma BeginningReopens(cfg: Settings, s: Evaluation, latencies: nat -> real, now: Time)
    requires Working(cfg, s.sys, 2, now) && Key(0, 2) !in s.supervisors && 0 in s.tables.runs
    ensures EvaluationEnabled(cfg, s, BeginEvaluation(0, 2, "w", latencies), now)
    ensures var runs := EvaluationAfter(cfg, s, BeginEvaluation(0, 2, "w", latencies), now).tables.runs;
            0 in runs && runs[0].status.RunRunning?
  {
  }

  /** Attempt 1 marks the run SUCCEEDED and dies before finalising; its lease lapses, recovery takes the
  job back, and attempt 2's first write sets the run back to RUNNING. */
  lemma SucceededRunReopened(cfg: Settings, s: Sys, task: Task, latencies: nat -> real) returns (tr: EvaluationTrace)
    requires ValidSettings(cfg) && cfg.maxAttempts > 1 && Init(s) && Roomy(s)
    requires Usable(Evaluated(task)) == |Evaluated(task)|
    ensures tr.Valid(cfg) && tr.states[0].sys == s && |tr.log| > 0
    ensures tr.log[|tr.log| - 1].event == BeginEvaluation(0, 2, "w", latencies)
    ensures var before, after := tr.states[|tr.log| - 1].tables.runs, End(tr).tables.runs;
            0 in before && 0 in after && before[0].status.RunSucceeded? && after[0].status.RunRunning?
  {
    var at := Lapse(cfg, s.clock);
    tr := TakenOver(cfg, s, task, latencies);
    BeginningReopens(cfg, End(tr), latencies, at);
    tr := TraceExtended(cfg, tr, BeginEvaluation(0, 2, "w", latencies), at);
  }
}
