/** How a supervisor turns the lines of a subprocess into the verdict on its attempt. */
module Supervision {
  import opened Types

  /** What one line means for the verdict: nothing, the work is done, or an error. */
  datatype Signal = Quiet | Done | Problem(classification: Classification)

  /** The verdict on a subprocess that has ended: done if any line said so, else the last error, else
  an unknown failure. */
  ghost predicate Judged(signals: seq<Signal>, outcome: Outcome) {
    if Done in signals then outcome == Success
    else
      && outcome.Failure?
      && (forall i :: LastProblem(signals, i) ==> outcome.classification == signals[i].classification)
      && ((forall i :: 0 <= i < |signals| ==> !signals[i].Problem?) ==> outcome.classification == Unknown)
  }

  predicate LastProblem(signals: seq<Signal>, i: int) {
    0 <= i < |signals| && signals[i].Problem? && forall k :: i < k < |signals| ==> !signals[k].Problem?
  }

  lemma {:induction false} LastProblemExists(signals: seq<Signal>, i: nat) returns (last: nat)
    requires i < |signals| && signals[i].Problem?
    ensures LastProblem(signals, last)
    decreases |signals| - i
  {
    if k :| i < k < |signals| && signals[k].Problem? {
      last := LastProblemExists(signals, k);
    } else {
      last := i;
    }
  }

  /** The verdict is determined by the lines. */
  lemma JudgedOnce(signals: seq<Signal>, a: Outcome, b: Outcome)
    requires Judged(signals, a) && Judged(signals, b)
    ensures a == b
  {
    if i :| 0 <= i < |signals| && signals[i].Problem? {
      var last := LastProblemExists(signals, i);
    }
  }

  function Verdict(t: Tally): Outcome {
    if t.done then Success
    else match t.error case Some(c) => Failure(c) case None => Failure(Unknown)
  }

  /** What the loop's two flags remember of the signals so far. */
  ghost predicate Remembers(signals: seq<Signal>, done: bool, error: Option<Classification>) {
    && (done <==> Done in signals)
    && (error.None? ==> forall i :: 0 <= i < |signals| ==> !signals[i].Problem?)
    && (error.Some? ==> exists i :: LastProblem(signals, i) && signals[i].classification == error.value)
  }

  lemma RemembersOneMore(signals: seq<Signal>, done: bool, error: Option<Classification>, s: Signal)
    requires Remembers(signals, done, error)
    ensures Remembers(signals + [s], done || s.Done?, if s.Problem? then Some(s.classification) else error)
  {
    var more := signals + [s];
    if s.Problem? {
      assert LastProblem(more, |signals|);
    } else if error.Some? {
      var i :| LastProblem(signals, i) && signals[i].classification == error.value;
      assert LastProblem(more, i);
    }
    assert Done in more <==> Done in signals || s.Done?;
  }

  /** The loop's two flags, line after line. */
  datatype Tally = Tally(done: bool, error: Option<Classification>) {
    function Then(s: Signal): Tally {
      Tally(done || s.Done?, if s.Problem? then Some(s.classification) else error)
    }
  }

  function Tallied(signals: seq<Signal>): Tally {
    if signals == [] then Tally(false, None)
    else Tallied(signals[..|signals| - 1]).Then(signals[|signals| - 1])
  }

  lemma {:induction false} TallyRemembers(signals: seq<Signal>)
    ensures Remembers(signals, Tallied(signals).done, Tallied(signals).error)
  {
    if signals != [] {
      var n := |signals| - 1;
      var before := Tallied(signals[..n]);
      TallyRemembers(signals[..n]);
      RemembersOneMore(signals[..n], before.done, before.error, signals[n]);
      assert signals == signals[..n] + [signals[n]];
    }
  }

  /** The flags give the verdict. */
  lemma VerdictJudged(signals: seq<Signal>)
    ensures Judged(signals, Verdict(Tallied(signals)))
  {
    TallyRemembers(signals);
  }

  /** The signals of the lines read, given what one line means. */
  function Signals<L>(signalOf: L -> Signal, lines: seq<L>): (r: seq<Signal>)
    ensures |r| == |lines| && forall i :: 0 <= i < |lines| ==> r[i] == signalOf(lines[i])
  {
    seq(|lines|, i requires 0 <= i < |lines| => signalOf(lines[i]))
  }

  lemma TalliedOneMore<L>(signalOf: L -> Signal, lines: seq<L>, i: nat)
    requires i < |lines|
    ensures Tallied(Signals(signalOf, lines[..i + 1])) == Tallied(Signals(signalOf, lines[..i])).Then(signalOf(lines[i]))
  {
    assert Signals(signalOf, lines[..i + 1])[..i] == Signals(signalOf, lines[..i]);
  }

  /** A heartbeat refused before line `n` is read, or before the ended process is judged. */
  predicate AbandonedBy(abandonedAt: Option<nat>, n: nat) {
    abandonedAt.Some? && abandonedAt.value <= n
  }
}
