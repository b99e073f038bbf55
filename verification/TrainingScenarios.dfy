/** Concrete runs of the training system: a success, and an output whose attempt then loses the job. */
module TrainingScenarios {
  import opened Types
  import opened Transactions
  import opened Protocol
  import Effects
  import opened Artifacts
  import opened Trainer
  import opened TrainingRuns
  import opened TrainingProofs
  import opened Scenarios

  /** A run with no steps to train, so its only file is the final model. */
  const RUN := TrainingRun(TrainConfig(0, 1, 0.0, 0.0), None)

  function Model(k: nat): Blob {
    ModelFile(0.0, 0, 0, k)
  }

  function End(tr: TrainingTrace): Training
    requires tr.states != []
  {
    tr.states[|tr.states| - 1]
  }

  lemma TraceExtended(wd: World, tr: TrainingTrace, e: TrainingEvent, now: Time) returns (longer: TrainingTrace)
    requires tr.Valid(wd) && End(tr).sys.clock <= now && TrainingEnabled(wd, End(tr), e, now)
    ensures longer.Valid(wd) && longer.states == tr.states + [TrainingAfter(wd, End(tr), e, now)]
    ensures longer.log == tr.log + [TrainingEntry(e, now)]
  {
    longer := TrainingTrace(tr.states + [TrainingAfter(wd, End(tr), e, now)], tr.log + [TrainingEntry(e, now)]);
    forall i | 0 <= i < |longer.log|
      ensures TrainingStep(wd, longer.states[i], longer.log[i].event, longer.log[i].now, longer.states[i + 1])
    {
      assert i < |tr.log| ==> longer.log[i] == tr.log[i];
    }
  }

  /** The rest of a run of the job protocol, from position `from`, that finalises nothing. */
  lemma {:induction false} Lifted(wd: World, tr: TrainingTrace, run: Run, from: nat) returns (longer: TrainingTrace)
    requires tr.Valid(wd) && run.Valid(wd.cfg) && from <= |run.log| && End(tr).sys == run.states[from]
    requires forall i :: from <= i < |run.log| ==> !run.log[i].event.Finalize?
    ensures longer.Valid(wd) && tr.states <= longer.states
    ensures End(longer) == End(tr).(sys := Last(run))
    decreases |run.log| - from
  {
    longer := tr;
    if from < |run.log| {
      assert Step(wd.cfg, run.states[from], run.log[from], run.states[from + 1]);
      longer := TraceExtended(wd, tr, TrainingEvent.JobEvent(run.log[from].event), run.log[from].now);
      longer := Lifted(wd, longer, run, from + 1);
    }
  }

  // ----- the upload ------------------------------------------------------------------------------------

  /** Row 0 is for this content, `granted` to "w", and the object may already be there. */
  predicate Pending(hash: Blob -> Hash, d: Depot, file: Blob, stored: bool) {
    && 0 in d.rows && d.rows[0].contentHash == hash(file) && d.rows[0].status.Uploading? && d.rows[0].uploader == Some("w")
    && (0, "w") in d.granted && (stored ==> Present(hash, d.objects, hash(file)) && 0 in d.seenPresent)
  }

  lemma Leased(hash: Blob -> Hash, tm: Timing, file: Blob, now: Time)
    ensures var d := DepotAfter(hash, tm, EMPTY_DEPOT, CreatePending(0, hash(file)), now);
            0 in d.rows && UploadClaimable(d.rows[0], now)
            && Pending(hash, DepotAfter(hash, tm, d, ClaimUpload(0, "w"), now), file, false)
  {
  }

  lemma Stored(hash: Blob -> Hash, tm: Timing, d: Depot, file: Blob, now: Time)
    requires Pending(hash, d, file, false)
    ensures var d' := DepotAfter(hash, tm, d, PutObject(file), now);
            0 in d'.rows && Pending(hash, DepotAfter(hash, tm, d', LookUp(0), now), file, true)
  {
  }

  lemma Marked(wd: World, d: Depot, file: Blob, now: Time)
    requires Pending(wd.hash, d, file, true)
    ensures ArtifactEnabled(wd.tm, d, MarkUploaded(0, "w"), now)
    ensures UploadedAs(wd, DepotAfter(wd.hash, wd.tm, d, MarkUploaded(0, "w"), now), 0, file)
  {
  }

  lemma DepotExtended(wd: World, tr: TrainingTrace, change: ArtifactEvent, now: Time) returns (longer: TrainingTrace)
    requires tr.Valid(wd) && End(tr).sys.clock <= now && ArtifactEnabled(wd.tm, End(tr).depot, change, now)
    ensures longer.Valid(wd) && tr.states <= longer.states
    ensures End(longer) == End(tr).(depot := DepotAfter(wd.hash, wd.tm, End(tr).depot, change, now))
  {
    longer := TraceExtended(wd, tr, DepotEvent(change), now);
  }

  lemma UploadedFirst(wd: World, tr: TrainingTrace, file: Blob, now: Time) returns (longer: TrainingTrace)
    requires tr.Valid(wd) && End(tr).sys.clock <= now && End(tr).depot == EMPTY_DEPOT
    ensures longer.Valid(wd) && tr.states <= longer.states
    ensures End(longer) == End(tr).(depot := End(longer).depot) && UploadedAs(wd, End(longer).depot, 0, file)
  {
    Leased(wd.hash, wd.tm, file, now);
    longer := DepotExtended(wd, tr, CreatePending(0, wd.hash(file)), now);
    longer := DepotExtended(wd, longer, ClaimUpload(0, "w"), now);
    Stored(wd.hash, wd.tm, End(longer).depot, file, now);
    longer := DepotExtended(wd, longer, PutObject(file), now);
    longer := DepotExtended(wd, longer, LookUp(0), now);
    Marked(wd, End(longer).depot, file, now);
    longer := DepotExtended(wd, longer, MarkUploaded(0, "w"), now);
  }

  // ----- one attempt that registers its output ------------------------------------------------------------

  /** Attempt 1 has handed in its model and still owns the job. */
  ghost predicate HandedIn(wd: World, s: Training, now: Time) {
    && Working(wd.cfg, s.sys, 1, now) && s.runs == map[0 := RUN]
    && 0 in s.outputs && s.outputs[0].attempt == 1
    && s.supervisors == map[Key(0, 1) := Supervisor("w", [], true, false)]
  }

  lemma Prepared(wd: World, s: Sys) returns (run: Run, tr: TrainingTrace)
    requires Init(s) && Roomy(s)
    ensures run.Valid(wd.cfg) && Working(wd.cfg, Last(run), 1, s.clock)
    ensures tr.Valid(wd) && tr.states[0].sys == s
    ensures End(tr) == Training(Last(run), EMPTY_DEPOT, map[0 := RUN], map[], map[], map[])
  {
    var created := Created(wd.cfg, s);
    tr := TrainingTrace([Training(s, EMPTY_DEPOT, map[], map[], map[], map[])], []);
    tr := Lifted(wd, tr, created, 0);
    tr := TraceExtended(wd, tr, CreateRun(0, RUN), s.clock);
    run := TakenUp(wd.cfg, created, 0, s.clock);
    tr := Lifted(wd, tr, run, 1);
  }

  lemma ModelHandedIn(wd: World, s: Training, i: ArtifactId)
    requires s.runs == map[0 := RUN] && s.outputs == map[] && Fence(s.sys.db, 0, "w", 1)
    requires s.supervisors == map[Key(0, 1) := Supervisor("w", [Model(1)], false, false)]
    ensures HandleFileTx(s, 0, 1, i) ==
            s.(outputs := map[0 := OutputRow(i, 1)], supervisors := map[Key(0, 1) := Supervisor("w", [], true, false)])
  {
    assert !OutputClash(s.outputs, 0, i);
    assert RegisterOutputTx(s.sys.db, s.outputs, "w", 0, OutputRow(i, 1)) == Some(map[0 := OutputRow(i, 1)]);
    assert [Model(1)][1..] == [];
    assert s.supervisors[Key(0, 1) := Supervisor("w", [], true, false)] == map[Key(0, 1) := Supervisor("w", [], true, false)];
  }

  lemma Registered(wd: World, s: Sys) returns (run: Run, tr: TrainingTrace)
    requires Init(s) && Roomy(s)
    ensures run.Valid(wd.cfg) && tr.Valid(wd) && tr.states[0].sys == s
    ensures Last(run) == End(tr).sys && HandedIn(wd, End(tr), s.clock)
  {
    run, tr := Prepared(wd, s);
    tr := TraceExtended(wd, tr, BeginTraining(0, 1, "w", None), s.clock);
    assert End(tr).supervisors == map[Key(0, 1) := Supervisor("w", [Model(1)], false, false)];
    tr := UploadedFirst(wd, tr, Model(1), s.clock);
    ModelHandedIn(wd, End(tr), 0);
    tr := TraceExtended(wd, tr, HandleFile(0, 1, 0), s.clock);
  }

  /** A training job can succeed: some run of the system ends with it SUCCEEDED. */
  lemma TrainingSucceeds(wd: World, s: Sys) returns (tr: TrainingTrace)
    requires Init(s) && Roomy(s)
    ensures tr.Valid(wd) && tr.states[0].sys == s
    ensures 0 in End(tr).runs && 0 in End(tr).sys.db.jobs && End(tr).sys.db.jobs[0].status.Succeeded?
  {
    var run: Run;
    run, tr := Registered(wd, s);
    var e := Finalize(0, 1, "w", Success, s.clock);
    Effects.FinalizeEffect(wd.cfg, End(tr).sys.db, e, s.clock, 0, Key(0, 1));
    tr := TraceExtended(wd, tr, TrainingEvent.JobEvent(e), s.clock);
  }

  /** Attempt 1 registers its output, dies before finalising, its lease lapses, recovery takes the job
  back and attempt 2 is under way: no attempt of this job will ever succeed. */
  lemma OutputOrphaned(wd: World, s: Sys) returns (tr: TrainingTrace)
    requires ValidSettings(wd.cfg) && wd.cfg.maxAttempts > 1 && Init(s) && Roomy(s)
    ensures tr.Valid(wd) && tr.states[0].sys == s
    ensures var t := End(tr);
            0 in t.runs && 0 in t.outputs && 0 in t.sys.db.jobs && t.sys.db.jobs[0].status.Running?
            && t.outputs[0].attempt == 1 && t.sys.db.jobs[0].attempt == 2
  {
    var run: Run;
    run, tr := Registered(wd, s);
    var back := Reclaimed(wd.cfg, run, run, 1, s.clock);
    var again := TakenUp(wd.cfg, back, 1, Lapse(wd.cfg, s.clock));
    assert again.states[|run.log|] == run.states[|run.log|];
    tr := Lifted(wd, tr, again, |run.log|);
  }
}
