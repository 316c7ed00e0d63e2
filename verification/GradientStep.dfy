/** What one learning step does to the model: to each weight, to the score of the sample it learnt
    from, and to the tallies. */
module GradientStep {
  import opened Options
  import opened OnlineLearning
  import opened PredictionRecords
  import opened ScoringRun

  /** Feature keys are pairwise distinct, as the keys of an object are. */
  ghost predicate KeysDistinct(f: Features) {
    forall i, j :: 0 <= i < j < |f| ==> f[i].0 != f[j].0
  }

  function Old(w: Weights, key: string): real {
    if key in w then w[key] else 0.0
  }

  function Product(x: real, y: real): real {
    x * y
  }

  /** The weighted sum of the features. */
  function Dot(w: Weights, f: Features): real {
    if f == [] then 0.0 else Product(Old(w, f[0].0), f[0].1) + Dot(w, f[1..])
  }

  function Probability(l: Learner, w: Weights, f: Features): real {
    l.sigmoid(Dot(w, f))
  }

  /** How far the label, one for a rise and zero for a fall, lies above the probability. */
  function Gap(l: Learner, w: Weights, f: Features, up: bool): real {
    (if up then 1.0 else 0.0) - Probability(l, w, f)
  }

  lemma {:induction false} DotSnoc(w: Weights, f: Features, x: (string, real))
    ensures Dot(w, f + [x]) == Dot(w, f) + Product(Old(w, x.0), x.1)
  {
    if f == [] {
      assert f + [x] == [x] && [x][1..] == [];
    } else {
      DotSnoc(w, f[1..], x);
      assert (f + [x])[1..] == f[1..] + [x];
    }
  }

  lemma {:induction false} ScoreIsDot(w: Weights, f: Features)
    ensures Score(w, f) == Dot(w, f)
  {
    if f != [] {
      var init := f[..|f|-1];
      ScoreIsDot(w, init);
      assert f == init + [f[|f|-1]];
      DotSnoc(w, init, f[|f|-1]);
    }
  }

  /** Five hundredths of a product. */
  function Share(gap: real, x: real): real {
    0.05 * gap * x
  }

  function Moved(l: Learner, was: real, gap: real, x: real): real {
    l.round4(was + Share(gap, x))
  }

  lemma NudgedMoves(l: Learner, w: Weights, x: (string, real), gap: real)
    ensures Nudged(l, w, x, gap) == w[x.0 := Moved(l, Old(w, x.0), gap, x.1)]
  {
    DeltaIsShare(gap, x.1);
    hide Delta, Share;
  }

  lemma DeltaIsShare(gap: real, x: real)
    ensures Delta(gap, x) == Share(gap, x)
  {
  }

  /** Every feature's weight is moved once, from its old value, and no other weight is. */
  ghost predicate EachMoved(l: Learner, w: Weights, r: Weights, f: Features, gap: real) {
    && (forall k :: 0 <= k < |f| ==> f[k].0 in r && r[f[k].0] == Moved(l, Old(w, f[k].0), gap, f[k].1))
    && (forall key :: (forall k :: 0 <= k < |f| ==> f[k].0 != key) ==> (key in r <==> key in w) && Old(r, key) == Old(w, key))
  }

  lemma {:induction false} ShiftedMoves(l: Learner, w: Weights, f: Features, err: real)
    requires KeysDistinct(f)
    ensures EachMoved(l, w, Shifted(l, w, f, err), f, err)
  {
    hide Nudged, EachMoved;
    if f == [] {
      NothingMoved(l, w, f, err);
    } else {
      var init, last := f[..|f|-1], f[|f|-1];
      ShiftedMoves(l, w, init, err);
      var before := Shifted(l, w, init, err);
      assert f == init + [last];
      OneMoreMoved(l, w, before, init, last, err);
      NudgedMoves(l, before, last, err);
    }
  }

  lemma NothingMoved(l: Learner, w: Weights, f: Features, gap: real)
    requires f == []
    ensures EachMoved(l, w, w, f, gap)
  {
  }

  lemma OneMoreMoved(l: Learner, w: Weights, before: Weights, init: Features, last: (string, real), gap: real)
    requires KeysDistinct(init + [last]) && EachMoved(l, w, before, init, gap)
    ensures EachMoved(l, w, before[last.0 := Moved(l, Old(before, last.0), gap, last.1)], init + [last], gap)
  {
    hide Moved;
    var f := init + [last];
    assert f[|init|] == last && forall k :: 0 <= k < |init| ==> f[k] == init[k];
    assert forall k :: 0 <= k < |init| ==> init[k].0 != last.0;
  }

  /** One learning step moves the weight of every feature to the rounded old weight plus
      0.05 * (label - sigmoid(weighted sum)) * feature, and leaves every other weight alone; it counts
      one more sample, as a win exactly when a probability of at least one half met a rise or a smaller
      one a fall. */
  lemma LearningMoves(l: Learner, m: Model, id: string, op: Option<string>, f: Features, up: bool)
    requires KeysDistinct(f)
    ensures var r := Learned(l, m, id, op, f, up);
            && EachMoved(l, m.weights, r.weights, f, Gap(l, m.weights, f, up))
            && r.trained == m.trained + 1 && r.wins + r.losses == m.wins + m.losses + 1
            && (r.wins == m.wins + 1 <==> (up <==> Probability(l, m.weights, f) >= 0.5))
            && (r.losses == m.losses + 1 <==> r.wins == m.wins)
            && r.applied == m.applied + [AppliedEntry(id, op)]
  {
    ScoreIsDot(m.weights, f);
    ShiftedMoves(l, m.weights, f, Gap(l, m.weights, f, up));
    hide EachMoved, Shifted, Score, Dot;
  }

  /** Training on the candle history starts from the model as it is, and every further sample moves the
      weights and counts in the same way, the probability being that of the model of the moment. */
  lemma TrainingMoves(l: Learner, m: Model, samples: seq<Sample>, s: Sample)
    requires KeysDistinct(s.features)
    ensures Trained(l, m, []) == m
    ensures var before, r := Trained(l, m, samples), Trained(l, m, samples + [s]);
            var right := s.up <==> Probability(l, before.weights, s.features) >= 0.5;
            && EachMoved(l, before.weights, r.weights, s.features, Gap(l, before.weights, s.features, s.up))
            && r.trained == before.trained + 1 && r.applied == before.applied == m.applied
            && r.wins == before.wins + (if right then 1 else 0) && r.losses == before.losses + (if right then 0 else 1)
  {
    var w := Trained(l, m, samples).weights;
    WalkSnoc(SgdStep(l), HitCount(l), m.weights, samples, s);
    ScoreIsDot(w, s.features);
    ShiftedMoves(l, w, s.features, Gap(l, w, s.features, s.up));
    hide EachMoved, Shifted, Score, Dot;
  }

  // ----- the step goes towards the label -----

  function SumOfSquares(f: Features): real {
    if f == [] then 0.0 else Product(f[0].1, f[0].1) + SumOfSquares(f[1..])
  }

  lemma NonNegativeSquare(x: real)
    ensures Product(x, x) >= 0.0
  {
  }

  lemma {:induction false} SquaresNonNegative(f: Features)
    ensures SumOfSquares(f) >= 0.0
  {
    hide Product;
    if f != [] {
      NonNegativeSquare(f[0].1);
      SquaresNonNegative(f[1..]);
    }
  }

  ghost predicate ExactRounding(l: Learner) {
    forall x :: l.round4(x) == x
  }

  lemma TermMoves(was: real, gap: real, x: real, rest: real)
    ensures Product(was + Share(gap, x), x) + Share(gap, rest) == Product(was, x) + Share(gap, Product(x, x) + rest)
  {
    Distributes(was, Share(gap, x), x);
    assert Share(gap, x) * x == Share(gap, x * x);
    SharesAdd(gap, x * x, rest);
  }

  lemma Distributes(a: real, b: real, x: real)
    ensures (a + b) * x == a * x + b * x
  {
  }

  lemma SharesAdd(gap: real, a: real, b: real)
    ensures Share(gap, a + b) == Share(gap, a) + Share(gap, b)
  {
  }

  lemma NothingShared(gap: real)
    ensures Share(gap, 0.0) == 0.0
  {
  }

  lemma {:induction false} DotMoves(l: Learner, w: Weights, r: Weights, f: Features, gap: real)
    requires ExactRounding(l) && forall k :: 0 <= k < |f| ==> f[k].0 in r && r[f[k].0] == Moved(l, Old(w, f[k].0), gap, f[k].1)
    ensures Dot(r, f) == Dot(w, f) + Share(gap, SumOfSquares(f))
  {
    hide Product, Share;
    if f == [] {
      NothingShared(gap);
    } else {
      DotMoves(l, w, r, f[1..], gap);
      TermMoves(Old(w, f[0].0), gap, f[0].1, SumOfSquares(f[1..]));
    }
  }

  /** Without rounding, the weighted sum of the sample moves by 0.05 * (label - probability) times the
      sum of its squared features: with a sigmoid between zero and one it never falls on a rise and
      never rises on a fall. */
  lemma StepsTowardsLabel(l: Learner, m: Model, id: string, op: Option<string>, f: Features, up: bool)
    requires KeysDistinct(f) && ExactRounding(l)
    ensures var r := Learned(l, m, id, op, f, up);
            && Dot(r.weights, f) == Dot(m.weights, f) + 0.05 * Gap(l, m.weights, f, up) * SumOfSquares(f)
            && (0.0 <= Probability(l, m.weights, f) <= 1.0 ==>
                  if up then Dot(r.weights, f) >= Dot(m.weights, f) else Dot(r.weights, f) <= Dot(m.weights, f))
  {
    hide Dot, SumOfSquares, Learned;
    LearningMoves(l, m, id, op, f, up);
    var r, gap := Learned(l, m, id, op, f, up), Gap(l, m.weights, f, up);
    DotMoves(l, m.weights, r.weights, f, gap);
    SquaresNonNegative(f);
    ShareSign(gap, SumOfSquares(f));
  }

  lemma ShareSign(gap: real, squares: real)
    requires squares >= 0.0
    ensures gap >= 0.0 ==> Share(gap, squares) >= 0.0
    ensures gap <= 0.0 ==> Share(gap, squares) <= 0.0
  {
  }

  // ----- what the record says of it -----

  /** A probability of at least one half was right about a rise, a smaller one about a fall. */
  ghost predicate Right(l: Learner, w: Weights, p: Prediction, price: real)
    requires HasModelInputs(p)
  {
    Probability(l, w, p.features.value) >= 0.5 <==> price > p.entry.value
  }

  /** Recording a price notes the price, the direction from the entry and whether the model of the moment was
      right, asks for a model step under the operation's id, and changes nothing that identifies the record. */
  lemma PriceNoted(l: Learner, w: Weights, p: Prediction, price: real, operationId: string)
    requires HasModelInputs(p)
    ensures var q := PriceRecorded(l, w, p, price, operationId);
            && q.targetClose == Some(price) && q.actualUp == Some(price > p.entry.value)
            && q.correct == Some(Right(l, w, p, price))
            && q.operationId == Some(operationId) && q.modelUpdate == Queued && !q.resolved
            && (IsLegacy(p) || p.targetStatus.Confirmed? <==> q.status == ModelUpdatePending)
            && q == p.(targetClose := q.targetClose, actualUp := q.actualUp, correct := q.correct, operationId := q.operationId,
                       modelUpdate := q.modelUpdate, resolved := q.resolved, status := q.status)
  {
    ScoreIsDot(w, p.features.value);
    hide Score, Dot;
  }

  /** A model step notes anew whether the model it starts from was right. */
  lemma StepNoted(l: Learner, env: RunEnv, s: RunState, i: nat)
    requires i < |s.updated| && PassesGate(s.updated[i]) && CanLearn(s.updated[i]) && !AlreadyApplied(s.model, s.updated[i].id)
    ensures var p := s.updated[i];
            UpdateModel(l, env, s, i).updated[i].correct == Some(Right(l, s.model.weights, p, p.targetClose.value))
  {
    ScoreIsDot(s.model.weights, s.updated[i].features.value);
    hide Score, Dot, LearnedFrom;
  }
}
