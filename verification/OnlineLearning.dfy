/** The logistic model of predictor.js: one stochastic-gradient step per labelled sample,
    the win/loss tallies, and the history walk that trains on past candles.
    The sigmoid, the four-decimal rounding and the default weights are parameters. */
module OnlineLearning {
  import opened Options

  type Features = seq<(string, real)>
  type Weights = map<string, real>

  const LEARNING_RATE := 0.05

  datatype Learner = Learner(sigmoid: real -> real, round4: real -> real, defaults: Weights)

  datatype AppliedEntry = AppliedEntry(predictionId: string, operationId: Option<string>)

  datatype Model = Model(weights: Weights, trained: int, wins: int, losses: int, applied: seq<AppliedEntry>)

  function DefaultModel(l: Learner): Model {
    Model(l.defaults, 0, 0, 0, [])
  }

  function WeightOf(w: Weights, key: string): real {
    if key in w then w[key] else 0.0
  }

  /** The linear score of a feature vector, summed in entry order. */
  function Score(w: Weights, f: Features): real {
    if f == [] then 0.0
    else Score(w, f[..|f|-1]) + WeightOf(w, f[|f|-1].0) * f[|f|-1].1
  }

  function ProbUp(l: Learner, w: Weights, f: Features): real {
    l.sigmoid(Score(w, f))
  }

  function LabelValue(up: bool): real {
    if up then 1.0 else 0.0
  }

  function Delta(err: real, x: real): real {
    LEARNING_RATE * err * x
  }

  function Nudged(l: Learner, w: Weights, feature: (string, real), err: real): Weights {
    w[feature.0 := l.round4(WeightOf(w, feature.0) + Delta(err, feature.1))]
  }

  /** Weights after moving every entry by a fixed error, in entry order. */
  function Shifted(l: Learner, w: Weights, f: Features, err: real): Weights {
    if f == [] then w
    else
      Nudged(l, Shifted(l, w, f[..|f|-1], err), f[|f|-1], err)
  }

  lemma ShiftedOneMore(l: Learner, w: Weights, f: Features, k: nat, err: real)
    requires k < |f|
    ensures Shifted(l, w, f[..k+1], err) == Nudged(l, Shifted(l, w, f[..k], err), f[k], err)
  {
    hide Nudged;
    assert f[..k+1][..k] == f[..k];
  }

  function Sgd(l: Learner, w: Weights, f: Features, up: bool): Weights {
    Shifted(l, w, f, LabelValue(up) - ProbUp(l, w, f))
  }

  predicate Hit(l: Learner, w: Weights, f: Features, up: bool) {
    (ProbUp(l, w, f) >= 0.5) == up
  }

  /** The model after scoring one prediction. */
  function Learned(l: Learner, m: Model, id: string, op: Option<string>, f: Features, up: bool): Model {
    var hit := Hit(l, m.weights, f, up);
    Model(Sgd(l, m.weights, f, up), m.trained + 1,
          if hit then m.wins + 1 else m.wins, if hit then m.losses else m.losses + 1,
          m.applied + [AppliedEntry(id, op)])
  }

  function Ids(applied: seq<AppliedEntry>): (ids: seq<string>)
    ensures |ids| == |applied|
    ensures forall k :: 0 <= k < |ids| ==> ids[k] == applied[k].predictionId
  {
    seq(|applied|, k requires 0 <= k < |applied| => applied[k].predictionId)
  }

  predicate AlreadyApplied(m: Model, id: string) {
    exists k :: 0 <= k < |m.applied| && m.applied[k].predictionId == id
  }

  // ----- walking labelled samples -----

  datatype Sample = Sample(features: Features, up: bool)

  /** Folds `step` over samples while adding up what `count` says of each state it meets. */
  function Walk<W, S>(step: (W, S) -> W, count: (W, S) -> int, w: W, samples: seq<S>): (r: (W, int)) {
    if samples == [] then (w, 0)
    else
      var (before, sum) := Walk(step, count, w, samples[..|samples|-1]);
      var s := samples[|samples|-1];
      (step(before, s), sum + count(before, s))
  }

  lemma WalkSnoc<W, S>(step: (W, S) -> W, count: (W, S) -> int, w: W, samples: seq<S>, s: S)
    ensures var (before, sum) := Walk(step, count, w, samples);
            Walk(step, count, w, samples + [s]) == (step(before, s), sum + count(before, s))
  {
    assert (samples + [s])[..|samples|] == samples;
  }

  lemma {:induction false} WalkConcat<W, S>(step: (W, S) -> W, count: (W, S) -> int, w: W, a: seq<S>, b: seq<S>)
    ensures var (w1, h1) := Walk(step, count, w, a);
            var (w2, h2) := Walk(step, count, w1, b);
            Walk(step, count, w, a + b) == (w2, h1 + h2)
  {
    if b == [] {
      assert a + b == a;
    } else {
      var init, s := b[..|b|-1], b[|b|-1];
      WalkConcat(step, count, w, a, init);
      assert a + b == (a + init) + [s];
      WalkSnoc(step, count, w, a + init, s);
    }
  }

  function SgdStep(l: Learner): (Weights, Sample) -> Weights {
    (w: Weights, s: Sample) => Sgd(l, w, s.features, s.up)
  }

  function HitCount(l: Learner): (Weights, Sample) -> int {
    (w: Weights, s: Sample) => if Hit(l, w, s.features, s.up) then 1 else 0
  }

  /** Weights after one step per sample, and how many samples the model of the moment got right. */
  function Walked(l: Learner, w: Weights, samples: seq<Sample>): (Weights, int) {
    Walk(SgdStep(l), HitCount(l), w, samples)
  }

  /** The model after training on past candles; the tallies are added once, at the end. */
  function Trained(l: Learner, m: Model, samples: seq<Sample>): Model {
    var (w, hits) := Walked(l, m.weights, samples);
    Model(w, m.trained + |samples|, m.wins + hits, m.losses + (|samples| - hits), m.applied)
  }

  // ----- the learning log: what a model must be the result of -----

  /** One learning step, carrying the data it was computed from and, for a scored
      prediction, that prediction's id. */
  datatype LogEntry = LogEntry(source: Option<string>, sample: Sample)

  ghost function Samples(log: seq<LogEntry>): (r: seq<Sample>)
    ensures |r| == |log|
  {
    seq(|log|, k requires 0 <= k < |log| => log[k].sample)
  }

  ghost function PredictionIds(log: seq<LogEntry>): seq<string> {
    if log == [] then []
    else
      var rest := PredictionIds(log[..|log|-1]);
      match log[|log|-1].source
      case None => rest
      case Some(id) => rest + [id]
  }

  /** The samples of the entries that belong to no prediction, in order. */
  ghost function HistorySamples(log: seq<LogEntry>): seq<Sample> {
    if log == [] then []
    else
      var rest := HistorySamples(log[..|log|-1]);
      if log[|log|-1].source.None? then rest + [log[|log|-1].sample] else rest
  }

  /** Every entry belongs to a prediction or to history. */
  lemma {:induction false} EntriesAreOfTwoKinds(log: seq<LogEntry>)
    ensures |log| == |PredictionIds(log)| + |HistorySamples(log)|
  {
    if log != [] {
      EntriesAreOfTwoKinds(log[..|log|-1]);
    }
  }

  ghost predicate OnlyPredictions(log: seq<LogEntry>) {
    forall k :: 0 <= k < |log| ==> log[k].source.Some?
  }

  lemma {:induction false} PredictionsAddNoHistory(log: seq<LogEntry>, more: seq<LogEntry>)
    requires OnlyPredictions(more)
    ensures HistorySamples(log + more) == HistorySamples(log)
  {
    if more == [] {
      assert log + more == log;
    } else {
      PredictionsAddNoHistory(log, more[..|more|-1]);
      assert (log + more)[..|log + more|-1] == log + more[..|more|-1];
    }
  }

  /** The model is exactly what the log produces: weights, tallies and the applied list. */
  ghost predicate Explains(l: Learner, m: Model, log: seq<LogEntry>) {
    && (m.weights, m.wins) == Walked(l, l.defaults, Samples(log))
    && m.trained == |log|
    && m.losses == |log| - m.wins
    && Ids(m.applied) == PredictionIds(log)
  }

  lemma DefaultExplained(l: Learner)
    ensures Explains(l, DefaultModel(l), [])
  {
  }

  lemma AppliedIffInIds(m: Model, id: string)
    ensures AlreadyApplied(m, id) <==> id in Ids(m.applied)
  {
    if AlreadyApplied(m, id) {
      var k :| 0 <= k < |m.applied| && m.applied[k].predictionId == id;
      assert Ids(m.applied)[k] == id;
    }
  }

  function Scored(id: string, f: Features, up: bool): LogEntry {
    LogEntry(Some(id), Sample(f, up))
  }

  /** Scoring one prediction extends the log by exactly its own entry. */
  lemma LearnedExplained(l: Learner, m: Model, log: seq<LogEntry>, id: string, op: Option<string>, f: Features, up: bool)
    requires Explains(l, m, log)
    ensures Explains(l, Learned(l, m, id, op, f, up), log + [Scored(id, f, up)])
    ensures PredictionIds(log + [Scored(id, f, up)]) == PredictionIds(log) + [id]
  {
    var log' := log + [Scored(id, f, up)];
    assert log'[..|log|] == log;
    assert Samples(log') == Samples(log) + [Sample(f, up)];
    WalkSnoc(SgdStep(l), HitCount(l), l.defaults, Samples(log), Sample(f, up));
    assert Ids(Learned(l, m, id, op, f, up).applied) == Ids(m.applied) + [id];
  }

  function AsHistory(samples: seq<Sample>): (r: seq<LogEntry>)
    ensures |r| == |samples|
  {
    seq(|samples|, k requires 0 <= k < |samples| => LogEntry(None, samples[k]))
  }

  lemma {:induction false} HistoryAppliesNoIds(log: seq<LogEntry>, samples: seq<Sample>)
    ensures PredictionIds(log + AsHistory(samples)) == PredictionIds(log)
  {
    if samples == [] {
      assert log + AsHistory(samples) == log;
    } else {
      var init := samples[..|samples|-1];
      HistoryAppliesNoIds(log, init);
      var full := log + AsHistory(samples);
      assert full[..|full|-1] == log + AsHistory(init);
    }
  }

  lemma {:induction false} HistoryAddsItsSamples(log: seq<LogEntry>, samples: seq<Sample>)
    ensures HistorySamples(log + AsHistory(samples)) == HistorySamples(log) + samples
  {
    if samples == [] {
      assert log + AsHistory(samples) == log;
    } else {
      var init := samples[..|samples|-1];
      HistoryAddsItsSamples(log, init);
      var full := log + AsHistory(samples);
      assert full[..|full|-1] == log + AsHistory(init);
      assert init + [samples[|samples|-1]] == samples;
    }
  }

  lemma SamplesConcat(log: seq<LogEntry>, samples: seq<Sample>)
    ensures Samples(log + AsHistory(samples)) == Samples(log) + samples
  {
  }

  /** Training on history extends the log by one history entry per sample and applies no id. */
  lemma TrainedExplained(l: Learner, m: Model, log: seq<LogEntry>, samples: seq<Sample>)
    requires Explains(l, m, log)
    ensures Explains(l, Trained(l, m, samples), log + AsHistory(samples))
    ensures PredictionIds(log + AsHistory(samples)) == PredictionIds(log)
  {
    var full := log + AsHistory(samples);
    var steps := Samples(log);
    HistoryAppliesNoIds(log, samples);
    SamplesConcat(log, samples);
    WalkConcat(SgdStep(l), HitCount(l), l.defaults, steps, samples);
    var (w, hits) := Walked(l, m.weights, samples);
    assert Walked(l, l.defaults, Samples(full)) == (w, m.wins + hits);
  }
}
