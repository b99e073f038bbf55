/** The evaluation body: a deterministic prediction and score per example, then the aggregates. */
module Evaluator {
  import opened Types
  import opened Metrics

  /** `id` is None where the dataset has none, `input` where it is null: either makes the evaluator
  raise. */
  datatype Example = Example(id: Option<string>, input: Option<string>, expected: Option<string>)

  datatype Task = Task(dataset: seq<Example>, param: real, maxExamples: Option<int>, split: string)

  /** What the subprocess writes, one line each. */
  datatype Report =
    | ResultReport(id: string, prediction: string, expected: Option<string>, score: real, latency: real)
    | MetricReport(name: string, value: real, split: string, samples: nat)
    | FinalReport(count: nat)
    | ErrorReport

  predicate WellFormed(ex: Example) {
    ex.id.Some? && ex.input.Some?
  }

  predicate AllWellFormed(exs: seq<Example>) {
    forall i :: 0 <= i < |exs| ==> WellFormed(exs[i])
  }

  // ----- prediction ---------------------------------------------------------------------------------

  function Backwards(tokens: seq<string>): (r: seq<string>)
    ensures |r| == |tokens|
    ensures forall i :: 0 <= i < |tokens| ==> r[i] == tokens[|tokens| - 1 - i]
  {
    if tokens == [] then [] else Backwards(tokens[1..]) + [tokens[0]]
  }

  function Predict(input: string, param: real): string {
    if param >= 0.5 then Join(Split(input)) else Join(Backwards(Split(input)))
  }

  /** The prediction has the input's tokens, in order for a trained model, else reversed; so a trained
  model scores full token accuracy wherever the expected output has the input's tokens. */
  lemma PredictTokens(input: string, param: real)
    ensures Split(Predict(input, param)) == if param >= 0.5 then Split(input) else Backwards(Split(input))
  {
    SplitOfJoin(Split(input));
    SplitOfJoin(Backwards(Split(input)));
  }

  // ----- what is evaluated ----------------------------------------------------------------------------

  /** `examples[:max_examples]`: a negative bound drops examples from the end. */
  function Evaluated(task: Task): (exs: seq<Example>)
    ensures exs <= task.dataset
  {
    var n := |task.dataset|;
    match task.maxExamples
    case None => task.dataset
    case Some(m) =>
      if m >= n then task.dataset
      else if m >= 0 then task.dataset[..m]
      else if n + m >= 0 then task.dataset[..n + m]
      else []
  }

  /** How many examples come before the first malformed one. */
  function Usable(exs: seq<Example>): (n: nat)
    ensures n <= |exs| && (n < |exs| ==> !WellFormed(exs[n]))
    ensures forall i :: 0 <= i < n ==> WellFormed(exs[i])
  {
    if exs == [] || !WellFormed(exs[0]) then 0 else 1 + Usable(exs[1..])
  }

  function Prediction(ex: Example, param: real): string {
    Predict(Text(ex.input), param)
  }

  function ExampleScore(ex: Example, param: real): real {
    ExactMatch(Some(Prediction(ex, param)), ex.expected)
  }

  function TokenScore(ex: Example, param: real): real {
    TokenAccuracy(Some(Prediction(ex, param)), ex.expected)
  }

  function ResultOf(ex: Example, param: real, latency: real): Report {
    ResultReport(Text(ex.id), Prediction(ex, param), ex.expected, ExampleScore(ex, param), latency)
  }

  function ScoreOf(ex: Example, param: real, latency: real): Score {
    Score(ExampleScore(ex, param), TokenScore(ex, param), Some(latency))
  }

  /** Results of well-formed examples; `latencies(i)` is the time measured for the i-th. */
  function Results(exs: seq<Example>, param: real, latencies: nat -> real): (r: seq<Report>)
    ensures |r| == |exs|
  {
    if exs == [] then []
    else Results(exs[..|exs| - 1], param, latencies) + [ResultOf(exs[|exs| - 1], param, latencies(|exs| - 1))]
  }

  function Scores(exs: seq<Example>, param: real, latencies: nat -> real): (r: seq<Score>)
    ensures |r| == |exs|
  {
    if exs == [] then []
    else Scores(exs[..|exs| - 1], param, latencies) + [ScoreOf(exs[|exs| - 1], param, latencies(|exs| - 1))]
  }

  lemma {:induction false} ResultAt(exs: seq<Example>, param: real, latencies: nat -> real, i: nat)
    requires i < |exs|
    ensures Results(exs, param, latencies)[i] == ResultOf(exs[i], param, latencies(i))
    ensures Scores(exs, param, latencies)[i] == ScoreOf(exs[i], param, latencies(i))
  {
    if i < |exs| - 1 {
      ResultAt(exs[..|exs| - 1], param, latencies, i);
    }
  }

  function MetricReports(metrics: seq<Metric>, split: string): seq<Report> {
    seq(|metrics|, i requires 0 <= i < |metrics| => MetricReport(metrics[i].name, metrics[i].value, split, metrics[i].samples))
  }

  /** What follows the results: an error, or the metrics and the end. */
  function Ending(task: Task, latencies: nat -> real): seq<Report> {
    if Usable(Evaluated(task)) < |Evaluated(task)| then [ErrorReport]
    else MetricLines(task, latencies) + [FinalReport(|Evaluated(task)|)]
  }

  /** Everything an evaluator process reports. */
  function Reports(task: Task, latencies: nat -> real): seq<Report> {
    Results(Evaluated(task)[..Usable(Evaluated(task))], task.param, latencies) + Ending(task, latencies)
  }

  /** The metric reports of a process that reached its end. */
  function MetricLines(task: Task, latencies: nat -> real): seq<Report> {
    MetricReports(Aggregate(Scores(Evaluated(task), task.param, latencies)), task.split)
  }

  lemma OneMore(exs: seq<Example>, i: nat, param: real, latencies: nat -> real)
    requires i < |exs|
    ensures Results(exs[..i + 1], param, latencies) == Results(exs[..i], param, latencies) + [ResultOf(exs[i], param, latencies(i))]
    ensures Scores(exs[..i + 1], param, latencies) == Scores(exs[..i], param, latencies) + [ScoreOf(exs[i], param, latencies(i))]
  {
    assert exs[..i + 1][..i] == exs[..i];
  }

  lemma WellFormedOneMore(exs: seq<Example>, i: nat)
    requires i < |exs| && AllWellFormed(exs[..i]) && WellFormed(exs[i])
    ensures AllWellFormed(exs[..i + 1])
  {
    assert exs[..i + 1] == exs[..i] + [exs[i]];
  }

  lemma {:induction false} UsableIs(exs: seq<Example>, n: nat)
    requires n <= |exs| && AllWellFormed(exs[..n]) && (n < |exs| ==> !WellFormed(exs[n]))
    ensures Usable(exs) == n
  {
    if n > 0 {
      assert exs[..n][0] == exs[0];
      assert exs[1..][..n - 1] == exs[..n][1..];
      UsableIs(exs[1..], n - 1);
    }
  }

  method EvaluateOne(ex: Example, param: real, latency: real) returns (report: Report, score: Score)
    requires WellFormed(ex)
    ensures report == ResultOf(ex, param, latency) && score == ScoreOf(ex, param, latency)
  {
    var prediction := Predict(ex.input.value, param);
    var em := ExactMatch(Some(prediction), ex.expected);
    var ta := TokenAccuracy(Some(prediction), ex.expected);
    report := ResultReport(ex.id.value, prediction, ex.expected, em, latency);
    score := Score(em, ta, Some(latency));
  }

  /** The first `i` examples are evaluated. */
  predicate Through(exs: seq<Example>, i: nat, param: real, latencies: nat -> real, reported: seq<Report>, perExample: seq<Score>)
    requires i <= |exs|
  {
    && AllWellFormed(exs[..i]) && reported == Results(exs[..i], param, latencies)
    && perExample == Scores(exs[..i], param, latencies)
  }

  lemma ThroughOneMore(exs: seq<Example>, i: nat, param: real, latencies: nat -> real, reported: seq<Report>, perExample: seq<Score>)
    requires i < |exs| && Through(exs, i, param, latencies, reported, perExample) && WellFormed(exs[i])
    ensures Through(exs, i + 1, param, latencies, reported + [ResultOf(exs[i], param, latencies(i))],
                    perExample + [ScoreOf(exs[i], param, latencies(i))])
  {
    OneMore(exs, i, param, latencies);
    WellFormedOneMore(exs, i);
  }

  lemma ThroughAll(exs: seq<Example>, i: nat, param: real, latencies: nat -> real, reported: seq<Report>, perExample: seq<Score>)
    requires i <= |exs| && Through(exs, i, param, latencies, reported, perExample) && (i < |exs| ==> !WellFormed(exs[i]))
    ensures Usable(exs) == i && Through(exs, Usable(exs), param, latencies, reported, perExample)
  {
    UsableIs(exs, i);
  }

  /** The loop over the examples; `raised` where one of them is malformed. */
  method EvaluateExamples(exs: seq<Example>, param: real, latencies: nat -> real)
    returns (reported: seq<Report>, perExample: seq<Score>, raised: bool)
    ensures raised <==> Usable(exs) < |exs|
    ensures reported == Results(exs[..Usable(exs)], param, latencies)
    ensures perExample == Scores(exs[..Usable(exs)], param, latencies)
  {
    reported, perExample, raised := [], [], false;
    var i := 0;
    while i < |exs|
      invariant i <= |exs| && !raised && Through(exs, i, param, latencies, reported, perExample)
    {
      var ex := exs[i];
      assert WellFormed(ex) <==> ex.id.Some? && ex.input.Some?;
      if ex.id.None? || ex.input.None? {
        raised := true;
        break;
      }
      ThroughOneMore(exs, i, param, latencies, reported, perExample);
      var report, score := EvaluateOne(ex, param, latencies(i));
      perExample := perExample + [score];
      reported := reported + [report];
      i := i + 1;
    }
    ThroughAll(exs, i, param, latencies, reported, perExample);
  }

  method ReportMetrics(metrics: seq<Metric>, split: string) returns (reported: seq<Report>)
    ensures reported == MetricReports(metrics, split)
  {
    reported := [];
    for k := 0 to |metrics|
      invariant reported == MetricReports(metrics[..k], split)
    {
      var metric := metrics[k];
      reported := reported + [MetricReport(metric.name, metric.value, split, metric.samples)];
    }
    assert metrics[..|metrics|] == metrics;
  }

  method Truncate(task: Task) returns (examples: seq<Example>)
    ensures examples == Evaluated(task)
    ensures examples <= task.dataset
    ensures task.maxExamples.None? ==> |examples| == |task.dataset|
    ensures task.maxExamples.Some? && task.maxExamples.value >= 0 ==>
      |examples| == if task.maxExamples.value < |task.dataset| then task.maxExamples.value else |task.dataset|
    ensures task.maxExamples.Some? && task.maxExamples.value < 0 ==>
      |examples| == if |task.dataset| + task.maxExamples.value >= 0 then |task.dataset| + task.maxExamples.value else 0
  {
    examples := task.dataset;
    if task.maxExamples.Some? {
      var m := task.maxExamples.value;
      if m < 0 {
        m := if |examples| + m >= 0 then |examples| + m else 0;
      }
      if m < |examples| {
        examples := examples[..m];
      }
    }
  }

  /** The evaluator process, from its dataset to its last line. */
  method RunEvaluator(task: Task, latencies: nat -> real) returns (reported: seq<Report>)
    ensures reported == Reports(task, latencies)
  {
    var examples := Truncate(task);
    var results, perExample, raised := EvaluateExamples(examples, task.param, latencies);
    if raised {
      return results + [ErrorReport];
    }
    assert examples[..|examples|] == examples;
    var metrics := ReportMetrics(Aggregate(perExample), task.split);
    var ending := metrics + [FinalReport(|perExample|)];
    reported := results + ending;
  }

  // ----- what the reports mean ------------------------------------------------------------------------

  /** Exact-match scores alone, without the measured times. */
  function ExactScores(exs: seq<Example>, param: real): (r: seq<real>)
    ensures |r| == |exs|
  {
    if exs == [] then [] else ExactScores(exs[..|exs| - 1], param) + [ExampleScore(exs[|exs| - 1], param)]
  }

  function TokenScores(exs: seq<Example>, param: real): (r: seq<real>)
    ensures |r| == |exs|
  {
    if exs == [] then [] else TokenScores(exs[..|exs| - 1], param) + [TokenScore(exs[|exs| - 1], param)]
  }

  lemma {:induction false} ExactScoreAt(exs: seq<Example>, param: real, i: nat)
    requires i < |exs|
    ensures ExactScores(exs, param)[i] == ExampleScore(exs[i], param)
  {
    if i < |exs| - 1 {
      ExactScoreAt(exs[..|exs| - 1], param, i);
    }
  }

  /** The value of the metric `name`, for the metrics that do not depend on measured times. */
  predicate MetricExact(task: Task, name: string, value: real, samples: nat) {
    var exs := Evaluated(task);
    (name == "exact_match" || name == "token_accuracy") ==>
      && exs != [] && Usable(exs) == |exs| && samples == |exs|
      && value == Mean(if name == "exact_match" then ExactScores(exs, task.param) else TokenScores(exs, task.param))
  }

  /** The token score of every example is its prediction's token accuracy. */
  lemma {:induction false} TokenScoreAt(exs: seq<Example>, param: real, i: nat)
    requires i < |exs|
    ensures TokenScores(exs, param)[i] == TokenAccuracy(Some(Predict(Text(exs[i].input), param)), exs[i].expected)
  {
    if i < |exs| - 1 {
      TokenScoreAt(exs[..|exs| - 1], param, i);
    }
  }

  lemma AccuraciesOneMore(init: seq<Score>, last: Score)
    ensures Exacts(init + [last]) == Exacts(init) + [last.exactMatch]
    ensures TokenAccuracies(init + [last]) == TokenAccuracies(init) + [last.tokenAccuracy]
  {
  }

  lemma {:induction false} ScoresExact(exs: seq<Example>, param: real, latencies: nat -> real)
    ensures Exacts(Scores(exs, param, latencies)) == ExactScores(exs, param)
    ensures TokenAccuracies(Scores(exs, param, latencies)) == TokenScores(exs, param)
  {
    var scores := Scores(exs, param, latencies);
    if exs != [] {
      var n := |exs| - 1;
      var init, last := Scores(exs[..n], param, latencies), ScoreOf(exs[n], param, latencies(n));
      ScoresExact(exs[..n], param, latencies);
      AccuraciesOneMore(init, last);
    }
  }

  lemma AggregateExact(task: Task, latencies: nat -> real, i: nat)
    requires Usable(Evaluated(task)) == |Evaluated(task)|
    requires i < |Aggregate(Scores(Evaluated(task), task.param, latencies))|
    ensures var metric := Aggregate(Scores(Evaluated(task), task.param, latencies))[i];
            MetricExact(task, metric.name, metric.value, metric.samples)
  {
    AggregateShape(Scores(Evaluated(task), task.param, latencies), i);
    ScoresExact(Evaluated(task), task.param, latencies);
  }

  lemma MetricLineMeans(task: Task, latencies: nat -> real, i: nat)
    requires Usable(Evaluated(task)) == |Evaluated(task)| && i < |MetricLines(task, latencies)|
    ensures var r := MetricLines(task, latencies)[i];
            r.MetricReport? && r.split == task.split && MetricExact(task, r.name, r.value, r.samples)
  {
    AggregateExact(task, latencies, i);
  }

  lemma ReportAt(task: Task, latencies: nat -> real, n: nat)
    requires n < |Reports(task, latencies)|
    ensures var usable := Usable(Evaluated(task));
            Reports(task, latencies)[n] ==
              if n < usable then Results(Evaluated(task)[..usable], task.param, latencies)[n] else Ending(task, latencies)[n - usable]
  {
  }

  lemma EndingAt(task: Task, latencies: nat -> real, i: nat)
    requires i < |Ending(task, latencies)|
    ensures var r := Ending(task, latencies)[i];
            if Usable(Evaluated(task)) < |Evaluated(task)| then r == ErrorReport
            else if i == |MetricLines(task, latencies)| then r == FinalReport(|Evaluated(task)|)
            else i < |MetricLines(task, latencies)| && r == MetricLines(task, latencies)[i]
  {
  }

  /** Report `n`: the n-th example's result, then metrics, then the end. */
  lemma ReportMeans(task: Task, latencies: nat -> real, n: nat)
    requires n < |Reports(task, latencies)|
    ensures var exs, r := Evaluated(task), Reports(task, latencies)[n];
            && (r.ResultReport? <==> n < Usable(exs))
            && (r.ResultReport? ==> r == ResultOf(exs[n], task.param, latencies(n)))
            && (r.MetricReport? ==> r.split == task.split && MetricExact(task, r.name, r.value, r.samples))
            && (r.FinalReport? ==> Usable(exs) == |exs|)
  {
    var exs := Evaluated(task);
    ReportAt(task, latencies, n);
    if n < Usable(exs) {
      ResultAt(exs[..Usable(exs)], task.param, latencies, n);
    } else {
      var i := n - Usable(exs);
      EndingAt(task, latencies, i);
      if Usable(exs) == |exs| && i < |MetricLines(task, latencies)| {
        MetricLineMeans(task, latencies, i);
      }
    }
  }

  lemma AccuracyLines(task: Task, latencies: nat -> real)
    requires Evaluated(task) != []
    ensures var lines := MetricLines(task, latencies);
            && |lines| >= 2 && lines[0].MetricReport? && lines[1].MetricReport?
            && lines[0].name == "exact_match" && lines[1].name == "token_accuracy"
            && lines[0].split == task.split == lines[1].split
  {
  }

  lemma EndAt(task: Task, latencies: nat -> real)
    ensures var all, usable := Reports(task, latencies), Usable(Evaluated(task));
            |all| == usable + |Ending(task, latencies)| && (all[|all| - 1].FinalReport? <==> usable == |Evaluated(task)|)
  {
  }

  /** A process that reports its end has reported every example and both accuracy metrics. */
  lemma FinalMeansAll(task: Task, latencies: nat -> real)
    requires var all := Reports(task, latencies); all[|all| - 1].FinalReport?
    ensures var exs, all := Evaluated(task), Reports(task, latencies);
            && Usable(exs) == |exs| && |exs| < |all|
            && (exs != [] ==>
                  && |exs| + 2 < |all|
                  && all[|exs|].MetricReport? && all[|exs|].name == "exact_match" && all[|exs|].split == task.split
                  && all[|exs| + 1].MetricReport? && all[|exs| + 1].name == "token_accuracy"
                  && all[|exs| + 1].split == task.split)
  {
    var exs := Evaluated(task);
    EndAt(task, latencies);
    if exs != [] {
      AccuracyLines(task, latencies);
      EndingAt(task, latencies, 0);
      EndingAt(task, latencies, 1);
      ReportAt(task, latencies, |exs|);
      ReportAt(task, latencies, |exs| + 1);
    }
  }

  // ----- the order of the metrics -------------------------------------------------------------------

  /** No evaluated example is scored a better exact match than token accuracy. */
  lemma EvaluatedWithinTokens(exs: seq<Example>, param: real, latencies: nat -> real)
    ensures var scores := Scores(exs, param, latencies);
            forall i :: 0 <= i < |scores| ==> scores[i].exactMatch <= scores[i].tokenAccuracy
  {
    forall i | 0 <= i < |exs|
      ensures Scores(exs, param, latencies)[i].exactMatch <= Scores(exs, param, latencies)[i].tokenAccuracy
    {
      ResultAt(exs, param, latencies, i);
      ExactWithinTokens(Some(Prediction(exs[i], param)), exs[i].expected);
    }
  }

  /** For every example list, whatever the model and the measured times: the aggregated exact match is
  at most the token accuracy and the median latency at most the 95th percentile. */
  lemma EvaluationOrdered(exs: seq<Example>, param: real, latencies: nat -> real, a: Metric, b: Metric)
    requires a in Aggregate(Scores(exs, param, latencies)) && b in Aggregate(Scores(exs, param, latencies))
    ensures a.name == "exact_match" && b.name == "token_accuracy" ==> a.value <= b.value
    ensures a.name == "latency_p50_ms" && b.name == "latency_p95_ms" ==> a.value <= b.value
  {
    EvaluatedWithinTokens(exs, param, latencies);
    AggregateOrdered(Scores(exs, param, latencies), a, b);
  }

  lemma EndingMetric(task: Task, latencies: nat -> real, i: nat, r: Report) returns (metric: Metric)
    requires i < |Ending(task, latencies)| && Ending(task, latencies)[i] == r && r.MetricReport?
    ensures metric in Aggregate(Scores(Evaluated(task), task.param, latencies)) && metric.name == r.name && metric.value == r.value
  {
    EndingAt(task, latencies, i);
    metric := Aggregate(Scores(Evaluated(task), task.param, latencies))[i];
  }

  lemma ResultsFirst(task: Task, latencies: nat -> real, n: nat)
    requires n < Usable(Evaluated(task)) && n < |Reports(task, latencies)|
    ensures Reports(task, latencies)[n].ResultReport?
  {
    ReportAt(task, latencies, n);
    ResultAt(Evaluated(task)[..Usable(Evaluated(task))], task.param, latencies, n);
  }

  lemma Either(a: seq<Report>, b: seq<Report>, n: nat)
    requires n < |a + b|
    ensures if n < |a| then (a + b)[n] == a[n] else n - |a| < |b| && (a + b)[n] == b[n - |a|]
  {
  }

  lemma PastResults(task: Task, latencies: nat -> real, n: nat) returns (i: nat)
    requires n < |Reports(task, latencies)| && Reports(task, latencies)[n].MetricReport?
    ensures i < |Ending(task, latencies)| && Ending(task, latencies)[i] == Reports(task, latencies)[n]
  {
    var results := Results(Evaluated(task)[..Usable(Evaluated(task))], task.param, latencies);
    if n < Usable(Evaluated(task)) {
      ResultsFirst(task, latencies, n);
    }
    Either(results, Ending(task, latencies), n);
    i := n - |results|;
  }

  /** The same of the metric lines an evaluator process reports. */
  lemma ReportedOrdered(task: Task, latencies: nat -> real, r: Report, q: Report)
    requires r in Reports(task, latencies) && q in Reports(task, latencies) && r.MetricReport? && q.MetricReport?
    ensures r.name == "exact_match" && q.name == "token_accuracy" ==> r.value <= q.value
    ensures r.name == "latency_p50_ms" && q.name == "latency_p95_ms" ==> r.value <= q.value
  {
    var m :| 0 <= m < |Reports(task, latencies)| && Reports(task, latencies)[m] == r;
    var n :| 0 <= n < |Reports(task, latencies)| && Reports(task, latencies)[n] == q;
    var i := PastResults(task, latencies, m);
    var k := PastResults(task, latencies, n);
    var a := EndingMetric(task, latencies, i, r);
    var b := EndingMetric(task, latencies, k, q);
    EvaluationOrdered(Evaluated(task), task.param, latencies, a, b);
  }

  lemma AccuraciesOrdered(exs: seq<Example>, param: real)
    requires exs != []
    ensures Mean(ExactScores(exs, param)) <= Mean(TokenScores(exs, param))
  {
    var latencies := (i: nat) => 0.0;
    ScoresExact(exs, param, latencies);
    EvaluatedWithinTokens(exs, param, latencies);
    AccuracyOrdered(Scores(exs, param, latencies));
  }

  // ----- what the scores and metrics are ----------------------------------------------------------------

  /** The positions at which `p` holds. */
  ghost function Where<T>(s: seq<T>, p: T -> bool): set<int> {
    set i | 0 <= i < |s| && p(s[i])
  }

  lemma WhereOneMore<T>(s: seq<T>, p: T -> bool)
    requires s != []
    ensures |Where(s, p)| == |Where(s[..|s| - 1], p)| + if p(s[|s| - 1]) then 1 else 0
  {
    var n := |s| - 1;
    assert Where(s, p) == if p(s[n]) then Where(s[..n], p) + {n} else Where(s[..n], p);
  }

  /** The examples whose prediction has the expected text, up to whitespace at the ends. */
  ghost function Matching(exs: seq<Example>, param: real): set<int> {
    Where(exs, (ex: Example) => SameCore(Predict(Text(ex.input), param), Text(ex.expected)))
  }

  lemma {:induction false} ExactSum(exs: seq<Example>, param: real)
    ensures Sum(ExactScores(exs, param)) == |Matching(exs, param)| as real
  {
    if exs != [] {
      var n := |exs| - 1;
      ExactSum(exs[..n], param);
      ExactMatchIff(Some(Prediction(exs[n], param)), exs[n].expected);
      SumAdds(ExactScores(exs[..n], param), [ExampleScore(exs[n], param)]);
      WhereOneMore(exs, (ex: Example) => SameCore(Predict(Text(ex.input), param), Text(ex.expected)));
    } else {
      assert Matching(exs, param) == {};
    }
  }

  /** The exact-match metric is the number of matching examples over the sample count. */
  lemma ExactMean(exs: seq<Example>, param: real)
    requires exs != []
    ensures Mean(ExactScores(exs, param)) == |Matching(exs, param)| as real / |exs| as real
  {
    ExactSum(exs, param);
  }

  /** Every line a process writes about an example: its id, the prediction, the expected text, score 1 or 0
  for sharing a core with it, and the time measured. */
  lemma ResultLine(task: Task, latencies: nat -> real, n: nat)
    requires n < Usable(Evaluated(task))
    ensures var ex := Evaluated(task)[n]; var prediction := Predict(Text(ex.input), task.param);
            && n < |Reports(task, latencies)|
            && Reports(task, latencies)[n] == ResultReport(Text(ex.id), prediction, ex.expected,
                 if SameCore(prediction, Text(ex.expected)) then 1.0 else 0.0, latencies(n))
  {
    var ex := Evaluated(task)[n];
    EndAt(task, latencies);
    ReportAt(task, latencies, n);
    ResultAt(Evaluated(task)[..Usable(Evaluated(task))], task.param, latencies, n);
    ExactMatchIff(Some(Prediction(ex, task.param)), ex.expected);
  }

  /** A trained model scores 1 on every example that expects its input's tokens joined by single spaces; an
  untrained one on every example that expects them so in reverse. */
  lemma ModelScores(task: Task, latencies: nat -> real, n: nat)
    requires n < Usable(Evaluated(task))
    requires var ex := Evaluated(task)[n]; var tokens := Split(Text(ex.input));
             ex.expected == Some(Join(if task.param >= 0.5 then tokens else Backwards(tokens)))
    ensures n < |Reports(task, latencies)|
    ensures Reports(task, latencies)[n].ResultReport? && Reports(task, latencies)[n].score == 1.0
  {
    var ex := Evaluated(task)[n];
    var p := Predict(Text(ex.input), task.param);
    assert p == "" + p + "" && Blank("");
    assert SameCore(p, Text(ex.expected));
    ResultLine(task, latencies, n);
  }

  lemma ExactInFigures(task: Task, value: real, samples: nat)
    requires MetricExact(task, "exact_match", value, samples)
    ensures var exs := Evaluated(task);
            exs != [] && value == |Matching(exs, task.param)| as real / |exs| as real && samples == |exs|
  {
    ExactMean(Evaluated(task), task.param);
  }

  lemma TokensInFigures(task: Task, value: real, samples: nat)
    requires MetricExact(task, "token_accuracy", value, samples)
    ensures var exs := Evaluated(task);
            exs != [] && value == Sum(TokenScores(exs, task.param)) / |exs| as real && samples == |exs|
  {
  }

  lemma MetricLine(task: Task, latencies: nat -> real, n: nat)
    requires n < |Reports(task, latencies)| && Reports(task, latencies)[n].MetricReport?
    ensures var r := Reports(task, latencies)[n]; r.split == task.split && MetricExact(task, r.name, r.value, r.samples)
  {
    ReportMeans(task, latencies, n);
  }

  /** The accuracy lines of a process, in figures. */
  lemma AccuracyLine(task: Task, latencies: nat -> real, n: nat)
    requires n < |Reports(task, latencies)| && Reports(task, latencies)[n].MetricReport?
    ensures var exs, r := Evaluated(task), Reports(task, latencies)[n];
            && (r.name == "exact_match" ==>
                  exs != [] && r.value == |Matching(exs, task.param)| as real / |exs| as real && r.samples == |exs|)
            && (r.name == "token_accuracy" ==>
                  exs != [] && r.value == Sum(TokenScores(exs, task.param)) / |exs| as real && r.samples == |exs|)
  {
    var r := Reports(task, latencies)[n];
    MetricLine(task, latencies, n);
    if r.name == "exact_match" {
      ExactInFigures(task, r.value, r.samples);
    } else if r.name == "token_accuracy" {
      TokensInFigures(task, r.value, r.samples);
    }
  }

  lemma MeanTimesCount(s: seq<real>)
    requires s != []
    ensures Mean(s) * |s| as real == Sum(s)
  {
  }

  /** The latency metrics are over every time measured. */
  lemma {:induction false} LatenciesOf(exs: seq<Example>, param: real, latencies: nat -> real)
    ensures Latencies(Scores(exs, param, latencies)) == seq(|exs|, i requires 0 <= i < |exs| => latencies(i))
  {
    var n := |exs| - 1;
    if exs != [] {
      LatenciesOf(exs[..n], param, latencies);
      LatenciesAdd(Scores(exs[..n], param, latencies), ScoreOf(exs[n], param, latencies(n)));
      TimesAdd(latencies, n);
    }
  }

  lemma TimesAdd(latencies: nat -> real, n: nat)
    ensures seq(n + 1, i requires 0 <= i < n + 1 => latencies(i)) == seq(n, i requires 0 <= i < n => latencies(i)) + [latencies(n)]
  {
  }

  lemma LatencyMetric(scores: seq<Score>, metric: Metric)
    requires metric in Aggregate(scores)
    ensures metric.name == "latency_mean_ms" ==> metric.value == Mean0(Latencies(scores))
    ensures metric.name == "latency_p50_ms" ==> metric.value == Percentile(Latencies(scores), 50.0)
    ensures metric.name == "latency_p95_ms" ==> metric.value == Percentile(Latencies(scores), 95.0)
  {
    var i :| 0 <= i < |Aggregate(scores)| && Aggregate(scores)[i] == metric;
    AggregateShape(scores, i);
  }

  /** The mean, 0 without a sample. */
  function Mean0(s: seq<real>): real {
    if s == [] then 0.0 else Sum(s) / |s| as real
  }

  /** The latency lines of a process, over the times measured for the evaluated examples. */
  lemma LatencyLine(task: Task, latencies: nat -> real, n: nat)
    requires n < |Reports(task, latencies)| && Reports(task, latencies)[n].MetricReport?
    ensures var r, count := Reports(task, latencies)[n], |Evaluated(task)|;
            var times := seq(count, i requires 0 <= i < count => latencies(i));
            && (r.name == "latency_mean_ms" ==> r.value == Mean0(times))
            && (r.name == "latency_p50_ms" ==> r.value == Percentile(times, 50.0))
            && (r.name == "latency_p95_ms" ==> r.value == Percentile(times, 95.0))
  {
    var r := Reports(task, latencies)[n];
    var i := PastResults(task, latencies, n);
    var metric := EndingMetric(task, latencies, i, r);
    LatenciesOf(Evaluated(task), task.param, latencies);
    LatencyMetric(Scores(Evaluated(task), task.param, latencies), metric);
  }

  lemma {:induction false} LatenciesAdd(init: seq<Score>, last: Score)
    requires last.latency.Some?
    ensures Latencies(init + [last]) == Latencies(init) + [last.latency.value]
  {
    if init != [] {
      LatenciesAdd(init[1..], last);
      assert (init + [last])[1..] == init[1..] + [last];
    }
  }

  /** Only the last line ends the process, with the number of examples evaluated or with an error. */
  lemma EndMeans(task: Task, latencies: nat -> real, n: nat)
    requires n < |Reports(task, latencies)|
    ensures var exs, r := Evaluated(task), Reports(task, latencies)[n];
            && (r.FinalReport? || r.ErrorReport? <==> n == |Reports(task, latencies)| - 1)
            && (r.FinalReport? ==> r.count == |exs|)
  {
    EndAt(task, latencies);
    ReportAt(task, latencies, n);
    if n < Usable(Evaluated(task)) {
      ReportMeans(task, latencies, n);
    } else {
      EndingAt(task, latencies, n - Usable(Evaluated(task)));
      EndingKinds(task, latencies, n - Usable(Evaluated(task)));
    }
  }

  lemma EndingKinds(task: Task, latencies: nat -> real, i: nat)
    requires i < |Ending(task, latencies)|
    ensures Ending(task, latencies)[i].FinalReport? || Ending(task, latencies)[i].ErrorReport? <==> i == |Ending(task, latencies)| - 1
  {
  }

  /** A process reports an error exactly when some evaluated example lacks its id or its input. */
  lemma RaisesIff(task: Task, latencies: nat -> real)
    ensures var all, exs := Reports(task, latencies), Evaluated(task);
            && all != []
            && (all[|all| - 1].ErrorReport? <==> exists i :: 0 <= i < |exs| && (exs[i].id.None? || exs[i].input.None?))
            && (all[|all| - 1].ErrorReport? || all[|all| - 1].FinalReport?)
  {
    var exs, n := Evaluated(task), Usable(Evaluated(task));
    EndAt(task, latencies);
    if n < |exs| {
      assert !WellFormed(exs[n]);
      EndingAt(task, latencies, 0);
    } else {
      assert forall i :: 0 <= i < |exs| ==> WellFormed(exs[i]);
    }
  }
}
