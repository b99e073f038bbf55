/** The registration tables as a mutable store, and the worker's supervision of a trainer process. */
module TrainingService {
  import opened Types
  import opened Transactions
  import opened Repository
  import opened Artifacts
  import opened ArtifactService
  import opened TrainingRuns
  import opened Supervision

  datatype Insertion = Inserted | FencedOut | Violated

  class Registrations {
    var checkpoints: map<CheckpointKey, CheckpointRow>
    var outputs: map<JobId, OutputRow>

    constructor ()
      ensures checkpoints == map[] && outputs == map[]
    {
      checkpoints, outputs := map[], map[];
    }

    method RegisterCheckpoint(db: Database, w: WorkerId, c: CheckpointKey, row: CheckpointRow) returns (r: Insertion)
      modifies this`checkpoints
      ensures var after := RegisterCheckpointTx(db.View(), old(checkpoints), w, c, row);
              if r.Violated? then after.None? && checkpoints == old(checkpoints) else after == Some(checkpoints)
      ensures r.FencedOut? <==> !Fence(db.View(), c.run, w, c.attempt)
      ensures r.Violated? <==>
        && Fence(db.View(), c.run, w, c.attempt)
        && (c in old(checkpoints) || exists c' :: c' in old(checkpoints) && old(checkpoints)[c'].artifact == row.artifact)
      ensures checkpoints == if r.Inserted? then old(checkpoints)[c := row] else old(checkpoints)
    {
      var fenced := db.Fences(c.run, w, c.attempt);
      if !fenced {
        return Insertion.FencedOut;
      }
      if c in checkpoints || exists c' :: c' in checkpoints && checkpoints[c'].artifact == row.artifact {
        return Violated;
      }
      checkpoints := checkpoints[c := row];
      r := Inserted;
    }

    method RegisterOutput(db: Database, w: WorkerId, j: JobId, row: OutputRow) returns (r: Insertion)
      modifies this`outputs
      ensures var after := RegisterOutputTx(db.View(), old(outputs), w, j, row);
              if r.Violated? then after.None? && outputs == old(outputs) else after == Some(outputs)
      ensures r.FencedOut? <==> !Fence(db.View(), j, w, row.attempt)
      ensures r.Violated? <==>
        && Fence(db.View(), j, w, row.attempt)
        && (j in old(outputs) || exists j' :: j' in old(outputs) && old(outputs)[j'].artifact == row.artifact)
      ensures outputs == if r.Inserted? then old(outputs)[j := row] else old(outputs)
    {
      var fenced := db.Fences(j, w, row.attempt);
      if !fenced {
        return Insertion.FencedOut;
      }
      if j in outputs || exists j' :: j' in outputs && outputs[j'].artifact == row.artifact {
        return Violated;
      }
      outputs := outputs[j := row];
      r := Inserted;
    }
  }

  /** One line of the trainer's output; `Noise` is anything else, metric lines included. */
  datatype Line = Noise | GpuCheckFailed | TrainingError | Saved(step: nat, file: Blob) | Finished(file: Blob)

  function SignalOf(line: Line): Signal {
    match line
    case GpuCheckFailed => Problem(Transient)
    case TrainingError => Problem(Permanent)
    case Finished(_) => Signal.Done
    case _ => Quiet
  }

  /** How each line counts. */
  lemma SignalsAre(line: Line)
    ensures line.GpuCheckFailed? ==> SignalOf(line) == Problem(Transient)
    ensures line.TrainingError? ==> SignalOf(line) == Problem(Permanent)
    ensures SignalOf(line) == Signal.Done <==> line.Finished?
    ensures line.Noise? || line.Saved? ==> SignalOf(line) == Quiet
  {
  }

  /** The attempt a supervisor works for. */
  datatype Attempting = Attempting(job: JobId, worker: WorkerId, attempt: nat, baseModel: BaseModel)

  predicate Holds(hash: Blob -> Hash, rows: map<ArtifactId, Artifact>, i: ArtifactId, file: Blob) {
    i in rows && rows[i].status.Uploaded? && rows[i].contentHash == hash(file)
  }

  /** The file of this line is uploaded and registered for the attempt. */
  predicate Registered(hash: Blob -> Hash, rows: map<ArtifactId, Artifact>, checkpoints: map<CheckpointKey, CheckpointRow>,
                       outputs: map<JobId, OutputRow>, at: Attempting, line: Line)
  {
    match line
    case Saved(step, file) =>
      var c := CheckpointKey(at.job, at.attempt, step);
      && c in checkpoints && Holds(hash, rows, checkpoints[c].artifact, file)
      && checkpoints[c].baseModel == at.baseModel && checkpoints[c].format == SUPPORTED_FORMAT
    case Finished(file) =>
      at.job in outputs && outputs[at.job].attempt == at.attempt && Holds(hash, rows, outputs[at.job].artifact, file)
    case _ => true
  }

  /** Why an upload raises: its content's row is busy, or storage did not keep the bytes. */
  ghost predicate UploadRaises(hash: Blob -> Hash, rows: map<ArtifactId, Artifact>, objects: map<Hash, Blob>, file: Blob,
                               landed: bool, now: Time)
  {
    || (exists i :: Busy(rows, i, hash(file), now))
    || (!landed && !Present(hash, objects, hash(file)) && !Deduplicated(rows, hash(file)))
  }

  /** Why handling a line raises: its upload does, or its registration violates a key. */
  ghost predicate Refused(db: Db, hash: Blob -> Hash, rows: map<ArtifactId, Artifact>, objects: map<Hash, Blob>,
                          checkpoints: map<CheckpointKey, CheckpointRow>, outputs: map<JobId, OutputRow>,
                          at: Attempting, line: Line, landed: bool, now: Time)
  {
    match line
    case Saved(step, file) =>
      || UploadRaises(hash, rows, objects, file, landed, now)
      || (Fence(db, at.job, at.worker, at.attempt)
          && exists i :: Holds(hash, rows, i, file) && CheckpointClash(checkpoints, CheckpointKey(at.job, at.attempt, step), i))
    case Finished(file) =>
      || UploadRaises(hash, rows, objects, file, landed, now)
      || (Fence(db, at.job, at.worker, at.attempt)
          && exists i :: Holds(hash, rows, i, file) && OutputClash(outputs, at.job, i))
    case _ => false
  }

  ghost predicate RowsLater(rows: map<ArtifactId, Artifact>, rows': map<ArtifactId, Artifact>) {
    forall i :: i in rows ==> i in rows' && RowLater(rows[i], rows'[i])
  }

  /** What a handled line adds to the registrations: one checkpoint, one output, or nothing. */
  predicate Adds(fenced: bool, line: Line, at: Attempting, checkpoints: map<CheckpointKey, CheckpointRow>,
                 outputs: map<JobId, OutputRow>, checkpoints': map<CheckpointKey, CheckpointRow>, outputs': map<JobId, OutputRow>)
  {
    var c := if line.Saved? then CheckpointKey(at.job, at.attempt, line.step) else CheckpointKey(at.job, at.attempt, 0);
    && (if fenced && line.Saved? then c !in checkpoints && c in checkpoints' && checkpoints' == checkpoints[c := checkpoints'[c]]
        else checkpoints' == checkpoints)
    && (if fenced && line.Finished? then at.job !in outputs && at.job in outputs' && outputs' == outputs[at.job := outputs'[at.job]]
        else outputs' == outputs)
  }

  method HandleLine(db: Database, store: Store, reg: Registrations, hash: Blob -> Hash, tm: Timing, at: Attempting, line: Line,
                    newId: ArtifactId, landed: bool, now: Time) returns (raised: bool)
    requires newId !in store.rows && HashesDistinct(store.rows)
    modifies store, reg
    ensures HashesDistinct(store.rows) && store.rows.Keys <= old(store.rows).Keys + {newId}
    ensures RowsLater(old(store.rows), store.rows)
    ensures raised ==> reg.checkpoints == old(reg.checkpoints) && reg.outputs == old(reg.outputs)
    ensures raised ==> Refused(db.View(), hash, store.rows, store.objects, reg.checkpoints, reg.outputs, at, line, landed, now)
    ensures !raised ==> Adds(Fence(db.View(), at.job, at.worker, at.attempt), line, at, old(reg.checkpoints), old(reg.outputs),
                             reg.checkpoints, reg.outputs)
    ensures !raised && Fence(db.View(), at.job, at.worker, at.attempt) ==>
      Registered(hash, store.rows, reg.checkpoints, reg.outputs, at, line)
  {
    raised := false;
    if line.Saved? || line.Finished? {
      var uploaded := UploadArtifact(store, hash, tm, line.file, at.worker, newId, landed, now);
      if !uploaded.Done? {
        return true;
      }
      var inserted: Insertion;
      if line.Saved? {
        inserted := reg.RegisterCheckpoint(db, at.worker, CheckpointKey(at.job, at.attempt, line.step),
                                           CheckpointRow(uploaded.id, at.baseModel, SUPPORTED_FORMAT));
      } else {
        inserted := reg.RegisterOutput(db, at.worker, at.job, OutputRow(uploaded.id, at.attempt));
      }
      raised := inserted.Violated?;
    }
  }

  ghost predicate Kept<K, V>(m: map<K, V>, m': map<K, V>) {
    forall k :: k in m ==> k in m' && m'[k] == m[k]
  }

  /** Every registration that was not there before belongs to one of the first `n` lines. */
  ghost predicate AddedBy(lines: seq<Line>, n: nat, at: Attempting, checkpoints: map<CheckpointKey, CheckpointRow>,
                          outputs: map<JobId, OutputRow>, checkpoints': map<CheckpointKey, CheckpointRow>, outputs': map<JobId, OutputRow>)
    requires n <= |lines|
  {
    && Kept(checkpoints, checkpoints') && Kept(outputs, outputs')
    && (forall c :: c in checkpoints' && c !in checkpoints ==>
          exists i :: 0 <= i < n && lines[i].Saved? && c == CheckpointKey(at.job, at.attempt, lines[i].step))
    && (forall j :: j in outputs' && j !in outputs ==> j == at.job && exists i :: 0 <= i < n && lines[i].Finished?)
  }

  lemma AddedByOneMore(lines: seq<Line>, n: nat, at: Attempting, fenced: bool,
                       cp0: map<CheckpointKey, CheckpointRow>, out0: map<JobId, OutputRow>,
                       cp: map<CheckpointKey, CheckpointRow>, out: map<JobId, OutputRow>,
                       cp': map<CheckpointKey, CheckpointRow>, out': map<JobId, OutputRow>)
    requires n < |lines| && AddedBy(lines, n, at, cp0, out0, cp, out) && Adds(fenced, lines[n], at, cp, out, cp', out')
    ensures AddedBy(lines, n + 1, at, cp0, out0, cp', out') && Kept(cp, cp') && Kept(out, out')
  {
  }

  lemma RegisteredKept(hash: Blob -> Hash, rows: map<ArtifactId, Artifact>, cp: map<CheckpointKey, CheckpointRow>, out: map<JobId, OutputRow>,
                       rows': map<ArtifactId, Artifact>, cp': map<CheckpointKey, CheckpointRow>, out': map<JobId, OutputRow>,
                       at: Attempting, line: Line)
    requires Registered(hash, rows, cp, out, at, line) && RowsLater(rows, rows') && Kept(cp, cp') && Kept(out, out')
    ensures Registered(hash, rows', cp', out', at, line)
  {
  }

  /** The first `n` lines are registered. */
  ghost predicate AllRegistered(hash: Blob -> Hash, rows: map<ArtifactId, Artifact>, cp: map<CheckpointKey, CheckpointRow>,
                                out: map<JobId, OutputRow>, at: Attempting, lines: seq<Line>, n: nat)
    requires n <= |lines|
  {
    forall i :: 0 <= i < n ==> Registered(hash, rows, cp, out, at, lines[i])
  }

  lemma AllRegisteredOneMore(hash: Blob -> Hash, rows: map<ArtifactId, Artifact>, cp: map<CheckpointKey, CheckpointRow>, out: map<JobId, OutputRow>,
                             rows': map<ArtifactId, Artifact>, cp': map<CheckpointKey, CheckpointRow>, out': map<JobId, OutputRow>,
                             at: Attempting, lines: seq<Line>, n: nat)
    requires n < |lines| && AllRegistered(hash, rows, cp, out, at, lines, n)
    requires RowsLater(rows, rows') && Kept(cp, cp') && Kept(out, out')
    requires Registered(hash, rows', cp', out', at, lines[n])
    ensures AllRegistered(hash, rows', cp', out', at, lines, n + 1)
  {
    forall i | 0 <= i < n ensures Registered(hash, rows', cp', out', at, lines[i]) {
      RegisteredKept(hash, rows, cp, out, rows', cp', out', at, lines[i]);
    }
  }

  /** Names for new artifact rows, one a line. */
  ghost predicate Unused(uuids: seq<ArtifactId>, n: nat, rows: map<ArtifactId, Artifact>) {
    && (forall i :: n <= i < |uuids| ==> uuids[i] !in rows)
    && (forall i, k :: 0 <= i < k < |uuids| ==> uuids[i] != uuids[k])
  }

  lemma UnusedOneMore(uuids: seq<ArtifactId>, n: nat, rows: map<ArtifactId, Artifact>, rows': map<ArtifactId, Artifact>)
    requires n < |uuids| && Unused(uuids, n, rows) && rows'.Keys <= rows.Keys + {uuids[n]}
    ensures Unused(uuids, n + 1, rows')
  {
  }

  lemma RowsLaterTransitive(a: map<ArtifactId, Artifact>, b: map<ArtifactId, Artifact>, c: map<ArtifactId, Artifact>)
    requires RowsLater(a, b) && RowsLater(b, c)
    ensures RowsLater(a, c)
  {
  }

  /** What the loop has achieved after `n` lines, from the tables it began with. */
  ghost predicate Progress(fenced: bool, hash: Blob -> Hash, at: Attempting, lines: seq<Line>, n: nat,
                           rows0: map<ArtifactId, Artifact>, cp0: map<CheckpointKey, CheckpointRow>, out0: map<JobId, OutputRow>,
                           rows: map<ArtifactId, Artifact>, cp: map<CheckpointKey, CheckpointRow>, out: map<JobId, OutputRow>)
    requires n <= |lines|
  {
    && RowsLater(rows0, rows) && AddedBy(lines, n, at, cp0, out0, cp, out)
    && if fenced then AllRegistered(hash, rows, cp, out, at, lines, n) else cp == cp0 && out == out0
  }

  /** One turn of the loop. */
  method HandleNext(db: Database, store: Store, reg: Registrations, hash: Blob -> Hash, tm: Timing, at: Attempting,
                    lines: seq<Line>, n: nat, newId: ArtifactId, landed: bool, now: Time, ghost rows0: map<ArtifactId, Artifact>,
                    ghost cp0: map<CheckpointKey, CheckpointRow>, ghost out0: map<JobId, OutputRow>) returns (raised: bool)
    requires n < |lines| && newId !in store.rows && HashesDistinct(store.rows)
    requires Progress(Fence(db.View(), at.job, at.worker, at.attempt), hash, at, lines, n, rows0, cp0, out0,
                      store.rows, reg.checkpoints, reg.outputs)
    modifies store, reg
    ensures HashesDistinct(store.rows) && store.rows.Keys <= old(store.rows).Keys + {newId}
    ensures raised ==> Refused(db.View(), hash, store.rows, store.objects, reg.checkpoints, reg.outputs, at, lines[n], landed, now)
    ensures Progress(Fence(db.View(), at.job, at.worker, at.attempt), hash, at, lines, if raised then n else n + 1, rows0, cp0, out0,
                     store.rows, reg.checkpoints, reg.outputs)
  {
    ghost var rows, cp, out := store.rows, reg.checkpoints, reg.outputs;
    ghost var fenced := Fence(db.View(), at.job, at.worker, at.attempt);
    raised := HandleLine(db, store, reg, hash, tm, at, lines[n], newId, landed, now);
    RowsLaterTransitive(rows0, rows, store.rows);
    if raised {
      AllRegisteredLater(hash, rows, store.rows, cp, out, at, lines, n);
    } else {
      AddedByOneMore(lines, n, at, fenced, cp0, out0, cp, out, reg.checkpoints, reg.outputs);
      if fenced {
        AllRegisteredOneMore(hash, rows, cp, out, store.rows, reg.checkpoints, reg.outputs, at, lines, n);
      }
    }
  }

  lemma ProgressBegins(fenced: bool, hash: Blob -> Hash, at: Attempting, lines: seq<Line>,
                       rows: map<ArtifactId, Artifact>, cp: map<CheckpointKey, CheckpointRow>, out: map<JobId, OutputRow>)
    ensures Progress(fenced, hash, at, lines, 0, rows, cp, out, rows, cp, out)
  {
  }

  /** The loop over the trainer's output; `handled` counts the lines dealt with. */
  method Supervise(db: Database, store: Store, reg: Registrations, hash: Blob -> Hash, tm: Timing, at: Attempting,
                   lines: seq<Line>, abandonedAt: Option<nat>, uuids: seq<ArtifactId>, landed: seq<bool>, now: Time)
    returns (raised: bool, handled: nat, tally: Tally)
    requires HashesDistinct(store.rows) && |uuids| == |lines| == |landed| && Unused(uuids, 0, store.rows)
    modifies store, reg
    ensures handled <= |lines|
    ensures raised ==> handled < |lines| && !AbandonedBy(abandonedAt, handled)
    ensures raised ==> Refused(db.View(), hash, store.rows, store.objects, reg.checkpoints, reg.outputs, at, lines[handled], landed[handled], now)
    ensures !raised ==> handled == if AbandonedBy(abandonedAt, |lines|) then abandonedAt.value else |lines|
    ensures !raised ==> tally == Tallied(Signals(SignalOf, lines[..handled]))
    ensures Progress(Fence(db.View(), at.job, at.worker, at.attempt), hash, at, lines, handled,
                     old(store.rows), old(reg.checkpoints), old(reg.outputs), store.rows, reg.checkpoints, reg.outputs)
  {
    ghost var rows0, cp0, out0 := store.rows, reg.checkpoints, reg.outputs;
    ghost var fenced := Fence(db.View(), at.job, at.worker, at.attempt);
    ProgressBegins(fenced, hash, at, lines, rows0, cp0, out0);
    raised, handled, tally := false, 0, Tally(false, None);
    while handled < |lines|
      invariant handled <= |lines| && HashesDistinct(store.rows) && !raised
      invariant abandonedAt.Some? ==> handled <= abandonedAt.value
      invariant Unused(uuids, handled, store.rows)
      invariant tally == Tallied(Signals(SignalOf, lines[..handled]))
      invariant Progress(fenced, hash, at, lines, handled, rows0, cp0, out0, store.rows, reg.checkpoints, reg.outputs)
    {
      if abandonedAt == Some(handled) {
        return;
      }
      ghost var rows := store.rows;
      raised := HandleNext(db, store, reg, hash, tm, at, lines, handled, uuids[handled], landed[handled], now, rows0, cp0, out0);
      if raised {
        return;
      }
      UnusedOneMore(uuids, handled, rows, store.rows);
      TalliedOneMore(SignalOf, lines, handled);
      var signal := SignalOf(lines[handled]);
      tally := Tally(tally.done || signal.Done?, if signal.Problem? then Some(signal.classification) else tally.error);
      handled := handled + 1;
    }
  }

  lemma AllRegisteredLater(hash: Blob -> Hash, rows: map<ArtifactId, Artifact>, rows': map<ArtifactId, Artifact>,
                           cp: map<CheckpointKey, CheckpointRow>, out: map<JobId, OutputRow>, at: Attempting, lines: seq<Line>, n: nat)
    requires n <= |lines| && RowsLater(rows, rows')
    ensures AllRegistered(hash, rows, cp, out, at, lines, n) ==> AllRegistered(hash, rows', cp, out, at, lines, n)
  {
    if AllRegistered(hash, rows, cp, out, at, lines, n) {
      forall i | 0 <= i < n ensures Registered(hash, rows', cp, out, at, lines[i]) {
        RegisteredKept(hash, rows, cp, out, rows', cp, out, at, lines[i]);
      }
    }
  }

  /** The verdict, line by line. */
  lemma VerdictPlainly(lines: seq<Line>, outcome: Outcome)
    requires Judged(Signals(SignalOf, lines), outcome)
    ensures outcome == Success <==> exists i :: 0 <= i < |lines| && lines[i].Finished?
    ensures outcome == Success || outcome.Failure?
    ensures forall i | 0 <= i < |lines| && (lines[i].GpuCheckFailed? || lines[i].TrainingError?) && outcome != Success
                      && (forall k :: i < k < |lines| ==> !lines[k].GpuCheckFailed? && !lines[k].TrainingError?) ::
              outcome == Failure(if lines[i].GpuCheckFailed? then Transient else Permanent)
    ensures outcome != Success && (forall i :: 0 <= i < |lines| ==> !lines[i].GpuCheckFailed? && !lines[i].TrainingError?) ==>
              outcome == Failure(Unknown)
  {
    var signals := Signals(SignalOf, lines);
    if i :| 0 <= i < |lines| && lines[i].Finished? {
      assert signals[i] == Signal.Done;
    }
    if Signal.Done in signals {
      var i :| 0 <= i < |signals| && signals[i] == Signal.Done;
      assert lines[i].Finished?;
    }
    forall i | 0 <= i < |lines| && (lines[i].GpuCheckFailed? || lines[i].TrainingError?) && outcome != Success
               && (forall k :: i < k < |lines| ==> !lines[k].GpuCheckFailed? && !lines[k].TrainingError?)
      ensures outcome == Failure(if lines[i].GpuCheckFailed? then Transient else Permanent)
    {
      assert LastProblem(signals, i);
    }
  }

  /** One training attempt without interference.  `abandonedAt` is the line before which a heartbeat was
  refused, `uuids` name new artifact rows, `landed` says which uploads storage kept, `raised` stands
  for an exception that ends the attempt without a verdict. */
  method RunTrainingAttempt(db: Database, store: Store, reg: Registrations, hash: Blob -> Hash, tm: Timing, at: Attempting,
                            lines: seq<Line>, abandonedAt: Option<nat>, uuids: seq<ArtifactId>, landed: seq<bool>, now: Time)
    returns (raised: bool, handled: nat, outcome: Outcome)
    requires HashesDistinct(store.rows) && |uuids| == |lines| == |landed| && Unused(uuids, 0, store.rows)
    modifies store, reg
    ensures handled <= |lines| && RowsLater(old(store.rows), store.rows)
    ensures raised ==> handled < |lines| && !AbandonedBy(abandonedAt, handled)
    ensures raised ==> Refused(db.View(), hash, store.rows, store.objects, reg.checkpoints, reg.outputs, at, lines[handled], landed[handled], now)
    ensures !raised && AbandonedBy(abandonedAt, |lines|) ==> handled == abandonedAt.value && outcome == Failure(Transient)
    ensures !raised && !AbandonedBy(abandonedAt, |lines|) ==> handled == |lines| && Judged(Signals(SignalOf, lines), outcome)
    // line by line: abandoned, else finished, else the last error, else unknown
    ensures !raised && abandonedAt.Some? && abandonedAt.value <= |lines| ==>
      handled == abandonedAt.value && outcome == Failure(Transient)
    ensures !raised && (abandonedAt.None? || abandonedAt.value > |lines|) ==>
      && handled == |lines|
      && (outcome == Success <==> exists i :: 0 <= i < |lines| && lines[i].Finished?)
      && (forall i | 0 <= i < |lines| && (lines[i].GpuCheckFailed? || lines[i].TrainingError?) && outcome != Success
                     && (forall k :: i < k < |lines| ==> !lines[k].GpuCheckFailed? && !lines[k].TrainingError?) ::
            outcome == Failure(if lines[i].GpuCheckFailed? then Transient else Permanent))
      && (outcome != Success && (forall i :: 0 <= i < |lines| ==> !lines[i].GpuCheckFailed? && !lines[i].TrainingError?) ==>
            outcome == Failure(Unknown))
    ensures AddedBy(lines, handled, at, old(reg.checkpoints), old(reg.outputs), reg.checkpoints, reg.outputs)
    ensures if Fence(db.View(), at.job, at.worker, at.attempt)
      then AllRegistered(hash, store.rows, reg.checkpoints, reg.outputs, at, lines, handled)
      else reg.checkpoints == old(reg.checkpoints) && reg.outputs == old(reg.outputs)
  {
    var tally: Tally;
    raised, handled, tally := Supervise(db, store, reg, hash, tm, at, lines, abandonedAt, uuids, landed, now);
    if raised || abandonedAt == Some(handled) {
      return raised, handled, Failure(Transient);
    }
    assert lines[..handled] == lines;
    VerdictJudged(Signals(SignalOf, lines));
    outcome := Verdict(tally);
    VerdictPlainly(lines, outcome);
  }
}
