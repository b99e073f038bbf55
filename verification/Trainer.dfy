/** The training body: a deterministic iteration that saves checkpoints and can resume from one. */
module Trainer {
  import opened Types
  import opened Artifacts

  datatype TrainConfig = TrainConfig(maxSteps: nat, every: nat, learningRate: real, target: real)

  function Advance(tc: TrainConfig, param: real): real {
    param + tc.learningRate * (tc.target - param)
  }

  /** The parameter after `n` steps of an uninterrupted run. */
  function Iterate(tc: TrainConfig, n: nat): real {
    if n == 0 then 0.0 else Advance(tc, Iterate(tc, n - 1))
  }

  function RealPow(x: real, n: nat): real {
    if n == 0 then 1.0 else x * RealPow(x, n - 1)
  }

  /** The law of the iteration: every step shrinks the distance to the target by the same factor. */
  lemma {:induction false} ClosedForm(tc: TrainConfig, n: nat)
    ensures tc.target - Iterate(tc, n) == RealPow(1.0 - tc.learningRate, n) * tc.target
  {
    if n > 0 {
      ClosedForm(tc, n - 1);
      var x, d, q := 1.0 - tc.learningRate, tc.target - Iterate(tc, n - 1), RealPow(1.0 - tc.learningRate, n - 1);
      Contracts(tc, Iterate(tc, n - 1));
      assert x * (q * tc.target) == (x * q) * tc.target;
    }
  }

  lemma Contracts(tc: TrainConfig, param: real)
    ensures tc.target - Advance(tc, param) == (1.0 - tc.learningRate) * (tc.target - param)
  {
    var d := tc.target - param;
    assert (1.0 - tc.learningRate) * d == d - tc.learningRate * d;
  }

  lemma OneMoreStep(tc: TrainConfig, param: real, left: nat)
    ensures RealPow(1.0 - tc.learningRate, left) * (tc.target - Advance(tc, param)) ==
            RealPow(1.0 - tc.learningRate, left + 1) * (tc.target - param)
  {
    var x, d, q := 1.0 - tc.learningRate, tc.target - param, RealPow(1.0 - tc.learningRate, left);
    Contracts(tc, param);
    assert q * (x * d) == (x * q) * d;
  }

  /** A training run that gets to its end, from wherever it starts, ends with this model. */
  lemma {:induction false} EndsWith(tc: TrainConfig, run: JobId, attempt: nat, param: real, step: nat)
    requires tc.every >= 1 || step >= tc.maxSteps
    ensures var files := Emissions(tc, run, attempt, param, step);
            var left := if step < tc.maxSteps then tc.maxSteps - step else 0;
            && files != [] && files[|files| - 1].ModelFile? && files[|files| - 1].step == step + left
            && files[|files| - 1].run == run && files[|files| - 1].attempt == attempt
            && tc.target - files[|files| - 1].param == RealPow(1.0 - tc.learningRate, left) * (tc.target - param)
    decreases tc.maxSteps - step
  {
    if step < tc.maxSteps {
      var next, n := Advance(tc, param), step + 1;
      EndsWith(tc, run, attempt, next, n);
      OneMoreStep(tc, param, tc.maxSteps - n);
      EmissionsStep(tc, run, attempt, param, step, []);
    }
  }

  predicate Checkpoints(tc: TrainConfig, step: nat) {
    tc.every >= 1 && step % tc.every == 0 && step < tc.maxSteps
  }

  /** The files a trainer started at (`param`, `step`) reports, in order.  With an interval of zero it
  raises at its first step, having reported nothing. */
  function Emissions(tc: TrainConfig, run: JobId, attempt: nat, param: real, step: nat): seq<Blob>
    decreases tc.maxSteps - step
  {
    if step >= tc.maxSteps then [ModelFile(param, step, run, attempt)]
    else if tc.every == 0 then []
    else
      var next, n := Advance(tc, param), step + 1;
      (if Checkpoints(tc, n) then [CheckpointFile(next, n, run, attempt)] else [])
      + Emissions(tc, run, attempt, next, n)
  }

  /** The first step's contribution, then the rest. */
  lemma EmissionsStep(tc: TrainConfig, run: JobId, attempt: nat, param: real, step: nat, before: seq<Blob>)
    requires step < tc.maxSteps && tc.every >= 1
    ensures var next, n := Advance(tc, param), step + 1;
            var saved := if Checkpoints(tc, n) then [CheckpointFile(next, n, run, attempt)] else [];
            before + Emissions(tc, run, attempt, param, step) == (before + saved) + Emissions(tc, run, attempt, next, n)
  {
  }

  lemma ResumesToEnd(tc: TrainConfig, run: JobId, attempt: nat, step: nat)
    requires step <= tc.maxSteps && (tc.every >= 1 || step == tc.maxSteps)
    ensures var files := Emissions(tc, run, attempt, Iterate(tc, step), step);
            && files != [] && files[|files| - 1].ModelFile?
            && tc.target - files[|files| - 1].param == RealPow(1.0 - tc.learningRate, tc.maxSteps) * tc.target
  {
    if step == tc.maxSteps {
    } else {
      ResumeIsExact(tc, run, attempt, step);
      var files := Emissions(tc, run, attempt, Iterate(tc, step), step);
      assert Exact(tc, run, attempt, files[|files| - 1]);
    }
    ClosedForm(tc, tc.maxSteps);
  }

  lemma RunEnds(tc: TrainConfig, run: JobId, attempt: nat, param: real, step: nat, files: seq<Blob>)
    requires files == Emissions(tc, run, attempt, param, step) && (tc.every >= 1 || step >= tc.maxSteps)
    ensures files != [] && files[|files| - 1].ModelFile?
    ensures step <= tc.maxSteps && param == Iterate(tc, step) ==>
      tc.target - files[|files| - 1].param == RealPow(1.0 - tc.learningRate, tc.maxSteps) * tc.target
  {
    EndsWith(tc, run, attempt, param, step);
    if step <= tc.maxSteps && param == Iterate(tc, step) {
      ResumesToEnd(tc, run, attempt, step);
    }
  }

  /** The loop, from a given parameter and step. */
  method TrainFrom(tc: TrainConfig, run: JobId, attempt: nat, param0: real, step0: nat) returns (reported: seq<Blob>, raised: bool)
    ensures reported == Emissions(tc, run, attempt, param0, step0) && (raised <==> tc.every == 0 && step0 < tc.maxSteps)
  {
    reported := [];
    var param, step := param0, step0;
    ghost var all := Emissions(tc, run, attempt, param, step);
    while step < tc.maxSteps
      invariant tc.every == 0 ==> reported == [] && step == step0
      invariant reported + Emissions(tc, run, attempt, param, step) == all
    {
      if tc.every >= 1 {
        EmissionsStep(tc, run, attempt, param, step, reported);
      }
      ghost var next := Advance(tc, param);
      step := step + 1;
      var error := tc.target - param;
      param := param + tc.learningRate * error;
      assert param == next;
      if tc.every == 0 {
        return reported, true;
      }
      if step % tc.every == 0 && step < tc.maxSteps {
        reported := reported + [CheckpointFile(param, step, run, attempt)];
      } else {
        assert reported + [] == reported;
      }
    }
    reported := reported + [ModelFile(param, step, run, attempt)];
    raised := false;
  }

  method RunTrainer(tc: TrainConfig, run: JobId, attempt: nat, resume: Option<(real, nat)>)
    returns (reported: seq<Blob>, raised: bool)
    ensures var (param, step) := if resume.Some? then resume.value else (0.0, 0);
            reported == Emissions(tc, run, attempt, param, step) && (raised <==> tc.every == 0 && step < tc.maxSteps)
    // the last file is the model, each step left having shrunk the distance to the target alike
    ensures var (param, step) := if resume.Some? then resume.value else (0.0, 0);
            var left := if step < tc.maxSteps then tc.maxSteps - step else 0;
            !raised ==>
              && reported != [] && reported[|reported| - 1].ModelFile? && reported[|reported| - 1].step == step + left
              && reported[|reported| - 1].run == run && reported[|reported| - 1].attempt == attempt
              && tc.target - reported[|reported| - 1].param == RealPow(1.0 - tc.learningRate, left) * (tc.target - param)
    // so from the start, or from any iterate of a straight run, it ends where a straight run does
    ensures !raised && (resume.Some? ==> resume.value.1 <= tc.maxSteps && resume.value.0 == Iterate(tc, resume.value.1)) ==>
      && reported != [] && reported[|reported| - 1].ModelFile?
      && tc.target - reported[|reported| - 1].param == RealPow(1.0 - tc.learningRate, tc.maxSteps) * tc.target
  {
    var param, step := 0.0, 0;
    if resume.Some? {
      param, step := resume.value.0, resume.value.1;
    }
    reported, raised := TrainFrom(tc, run, attempt, param, step);
    if !raised {
      EndsWith(tc, run, attempt, param, step);
      RunEnds(tc, run, attempt, param, step, reported);
    }
  }

  /** A file of attempt `attempt` of `run` that an uninterrupted run could have written. */
  predicate Exact(tc: TrainConfig, run: JobId, attempt: nat, b: Blob) {
    match b
    case CheckpointFile(p, n, r, a) => p == Iterate(tc, n) && n < tc.maxSteps && r == run && a == attempt
    case ModelFile(p, n, r, a) => p == Iterate(tc, tc.maxSteps) && n == tc.maxSteps && r == run && a == attempt
    case Raw(_) => false
  }

  /** Only the last file is the model. */
  ghost predicate Script(tc: TrainConfig, run: JobId, attempt: nat, files: seq<Blob>) {
    && files != []
    && (forall i :: 0 <= i < |files| ==> Exact(tc, run, attempt, files[i]))
    && (forall i :: 0 <= i < |files| ==> (files[i].ModelFile? <==> i == |files| - 1))
  }

  /** Resuming at the `step`-th iterate changes nothing: all the files are those of a straight run, and
  they end with the same final parameter. */
  lemma {:induction false} ResumeIsExact(tc: TrainConfig, run: JobId, attempt: nat, step: nat)
    requires step <= tc.maxSteps
    ensures var files := Emissions(tc, run, attempt, Iterate(tc, step), step);
            files == [] || Script(tc, run, attempt, files)
    ensures Emissions(tc, run, attempt, Iterate(tc, step), step) == [] <==> tc.every == 0 && step < tc.maxSteps
    decreases tc.maxSteps - step
  {
    if step < tc.maxSteps && tc.every >= 1 {
      ResumeIsExact(tc, run, attempt, step + 1);
      assert Iterate(tc, step + 1) == Advance(tc, Iterate(tc, step));
    }
  }

  /** Which checkpoints a trainer resumed at the `step`-th iterate saves: exactly those at the multiples
  of the interval that still lie ahead, the last step excepted, each holding its iterate. */
  lemma {:induction false} CheckpointsSaved(tc: TrainConfig, run: JobId, attempt: nat, step: nat, n: nat)
    requires step <= tc.maxSteps && tc.every >= 1
    ensures CheckpointFile(Iterate(tc, n), n, run, attempt) in Emissions(tc, run, attempt, Iterate(tc, step), step) <==>
            step < n < tc.maxSteps && n % tc.every == 0
    decreases tc.maxSteps - step
  {
    if step < tc.maxSteps {
      var next := step + 1;
      assert Iterate(tc, next) == Advance(tc, Iterate(tc, step));
      CheckpointsSaved(tc, run, attempt, next, n);
    }
  }

  /** Checkpoints come in order of their steps, each step at most once. */
  ghost predicate Rising(files: seq<Blob>) {
    forall i, k :: 0 <= i < k < |files| && files[i].CheckpointFile? && files[k].CheckpointFile? ==> files[i].step < files[k].step
  }

  /** No checkpoint at or before step `n`. */
  ghost predicate Beyond(files: seq<Blob>, n: nat) {
    forall i :: 0 <= i < |files| && files[i].CheckpointFile? ==> n < files[i].step
  }

  lemma RisingCons(b: Blob, files: seq<Blob>)
    requires Rising(files) && (b.CheckpointFile? ==> Beyond(files, b.step))
    ensures Rising([b] + files)
  {
  }

  lemma RisingTail(files: seq<Blob>)
    requires files != [] && Rising(files)
    ensures Rising(files[1..]) && (files[0].CheckpointFile? ==> Beyond(files[1..], files[0].step))
    ensures forall n: nat :: Beyond(files, n) ==> Beyond(files[1..], n)
  {
  }

  lemma BeyondCons(b: Blob, files: seq<Blob>, n: nat)
    requires Beyond(files, n + 1) && (b.CheckpointFile? ==> b.step == n + 1)
    ensures Beyond(files, n) && Beyond([b] + files, n)
  {
  }

  lemma StepRises(files: seq<Blob>, rest: seq<Blob>, b: Blob, n: nat)
    requires Rising(rest) && Beyond(rest, n + 1) && b.CheckpointFile? && b.step == n + 1
    requires files == [b] + rest || files == rest
    ensures Rising(files) && Beyond(files, n)
  {
    RisingCons(b, rest);
    BeyondCons(b, rest, n);
  }

  lemma {:induction false} EmissionsRise(tc: TrainConfig, run: JobId, attempt: nat, param: real, step: nat)
    ensures Rising(Emissions(tc, run, attempt, param, step)) && Beyond(Emissions(tc, run, attempt, param, step), step)
    decreases tc.maxSteps - step
  {
    if step < tc.maxSteps && tc.every >= 1 {
      var next, n := Advance(tc, param), step + 1;
      var rest := Emissions(tc, run, attempt, next, n);
      EmissionsRise(tc, run, attempt, next, n);
      assert [] + rest == rest;
      StepRises(Emissions(tc, run, attempt, param, step), rest, CheckpointFile(next, n, run, attempt), step);
    }
  }
}
