/** What a run in which no call fails completes: exactly which records end settled, with the
    unfinished work of earlier runs always completed and candle fetches within the budget. */
module ScoringRecovery {
  import opened Options
  import opened OnlineLearning
  import opened PredictionRecords
  import opened ScoringRun
  import opened ScoringSafety
  import opened ScoringRecords

  /** No store call is rejected and the process is not stopped. Fetches may still throw. */
  ghost predicate Clean(env: RunEnv) {
    && (forall i :: env.priceCommit(i).Done?)
    && (forall i :: env.modelSave(i).Done?)
    && (forall i :: env.settleCommit(i).Done?)
    && (forall i :: !env.fetch(i).FetchStopped?)
    && env.finalCommit.Done?
  }

  /** A record owing its model step can be settled. */
  predicate CanSettle(m: Model, p: Prediction) {
    PassesGate(p) && (AlreadyApplied(m, p.id) || CanLearn(p))
  }

  predicate IsDue(env: RunEnv, p: Prediction) {
    !InFlight(p) && PlanFor(env, p).Due?
  }

  /** How many of the first n records ask for candles. */
  function DueAmong(env: RunEnv, preds: seq<Prediction>, n: nat): (count: nat)
    requires n <= |preds|
    ensures count <= n
  {
    if n == 0 then 0
    else DueAmong(env, preds, n - 1) + if IsDue(env, preds[n-1]) then 1 else 0
  }

  predicate PriceAvailable(env: RunEnv, i: nat, p: Prediction)
    requires IsDue(env, p)
  {
    var plan := PlanFor(env, p);
    var price := FetchedPrice(env, plan.p, i, plan.day);
    price.Some? && PassesGate(ScoredRecord(env, i, plan.p, price.value))
  }

  /** Whether record i is settled after a clean run, read off the loaded stores alone. */
  predicate EndsSettled(l: Learner, env: RunEnv, d: Durable, i: nat)
    requires i < |d.predictions|
  {
    var p := d.predictions[i];
    if IsSettled(p) then true
    else if AwaitsModel(p) then CanSettle(LoadedModel(l, d.model), p)
    else IsDue(env, p) && DueAmong(env, d.predictions, i) < env.maxPerRun && PriceAvailable(env, i, p)
  }

  // ----- one clean step -----

  /** Memory and store agree on which records are settled, and on the model. */
  ghost predicate InStep(l: Learner, s: RunState) {
    && s.phase.Running?
    && s.model == LoadedModel(l, s.durable.model)
    && |s.updated| == |s.durable.predictions|
    && forall j :: 0 <= j < |s.updated| ==> (IsSettled(s.updated[j]) <==> IsSettled(s.durable.predictions[j]))
  }

  /** The model gained at most one entry, for `id`. */
  ghost predicate GainsAtMost(m: Model, m': Model, id: string) {
    m'.applied == m.applied || exists op :: m'.applied == m.applied + [AppliedEntry(id, op)]
  }

  /** What a clean step does to record i: it stays in step, changes no other record in memory,
      applies no other id, and leaves record i settled exactly when `settles`. */
  ghost predicate CleanStep(l: Learner, s: RunState, r: RunState, i: nat, settles: bool) {
    && i < |s.updated| == |r.updated|
    && InStep(l, r)
    && (forall j :: 0 <= j < |s.updated| && j != i ==> r.updated[j] == s.updated[j])
    && GainsAtMost(s.model, r.model, s.updated[i].id)
    && (IsSettled(r.updated[i]) <==> settles)
  }

  lemma CleanSettle(l: Learner, env: RunEnv, s: RunState, i: nat)
    requires Clean(env) && InStep(l, s) && i < |s.updated|
    ensures CleanStep(l, s, Settle(env, s, i), i, true)
    ensures Settle(env, s, i).fetches == s.fetches && Settle(env, s, i).model == s.model
  {
  }

  lemma CleanUpdate(l: Learner, env: RunEnv, s: RunState, i: nat)
    requires Clean(env) && InStep(l, s) && i < |s.updated| && !IsSettled(s.updated[i])
    ensures CleanStep(l, s, UpdateModel(l, env, s, i), i, CanSettle(s.model, s.updated[i]))
    ensures UpdateModel(l, env, s, i).fetches == s.fetches
  {
    hide Settle, Hit, AlreadyApplied;
    var p := s.updated[i];
    if !PassesGate(p) {
    } else if AlreadyApplied(s.model, p.id) {
      CleanSettle(l, env, s, i);
    } else if CanLearn(p) {
      var m' := LearnedFrom(l, s.model, p);
      var q := p.(correct := Some(Hit(l, s.model.weights, p.features.value, Outcome(p))));
      var s' := ModelSaved(s.(model := m', updated := s.updated[i := q]), Done);
      assert GainsAtMost(s.model, m', p.id) by {
        assert m'.applied == s.model.applied + [AppliedEntry(p.id, p.operationId)];
      }
      assert env.modelSave(i).Done?;
      assert InStep(l, s');
      CleanSettle(l, env, s', i);
    }
  }

  lemma CleanRecordPrice(l: Learner, env: RunEnv, s: RunState, i: nat, price: real)
    requires Clean(env) && InStep(l, s) && i < |s.updated| && HasModelInputs(s.updated[i]) && !IsSettled(s.updated[i])
    ensures CleanStep(l, s, RecordPrice(l, env, s, i, price), i, PassesGate(ScoredRecord(env, i, s.updated[i], price)))
    ensures RecordPrice(l, env, s, i, price).fetches == s.fetches
  {
    hide UpdateModel, Hit, AlreadyApplied;
    var scored := PriceRecorded(l, s.model.weights, s.updated[i], price, env.operationId(i));
    GateIgnoresCorrect(ScoredRecord(env, i, s.updated[i], price), scored);
    assert env.priceCommit(i).Done?;
    var s' := Committed(s.(updated := s.updated[i := scored]), Done);
    CleanUpdate(l, env, s', i);
  }

  lemma CleanStepDone(l: Learner, env: RunEnv, s: RunState, i: nat)
    requires Clean(env) && InStep(l, s) && i < |s.updated|
    ensures var p := s.updated[i];
            && CleanStep(l, s, Step(l, env, s, i), i,
                         if IsSettled(p) then true
                         else if AwaitsModel(p) then CanSettle(s.model, p)
                         else IsDue(env, p) && s.fetches < env.maxPerRun && PriceAvailable(env, i, p))
            && Step(l, env, s, i).fetches == s.fetches + if IsDue(env, p) && s.fetches < env.maxPerRun then 1 else 0
  {
    hide UpdateModel, RecordPrice, PlanFor, FetchedPrice, ScoredRecord, CanSettle;
    var p := s.updated[i];
    if IsSettled(p) {
    } else if AwaitsModel(p) {
      CleanUpdate(l, env, s, i);
    } else {
      PlanIsSafe(env, p);
      var plan := PlanFor(env, p);
      if plan.Due? && s.fetches < env.maxPerRun {
        var s1 := s.(updated := s.updated[i := plan.p], dirty := s.dirty || plan.changed, fetches := s.fetches + 1);
        var price := FetchedPrice(env, plan.p, i, plan.day);
        if price.Some? {
          CleanRecordPrice(l, env, s1, i, price.value);
        }
      }
    }
  }

  // ----- the whole clean run -----

  lemma GainIsLocal(m: Model, m': Model, id: string, other: string)
    requires GainsAtMost(m, m', id) && other != id
    ensures AlreadyApplied(m', other) == AlreadyApplied(m, other)
  {
    if AlreadyApplied(m, other) {
      var k :| 0 <= k < |m.applied| && m.applied[k].predictionId == other;
      assert m'.applied[k].predictionId == other;
    }
  }

  /** Fetches spent when `due` records have asked for candles. */
  function Spent(env: RunEnv, due: nat): int {
    if due <= env.maxPerRun then due else if env.maxPerRun < 0 then 0 else env.maxPerRun
  }

  /** Records not reached are as loaded, and whether their ids are applied is as loaded. */
  ghost predicate Unreached(l: Learner, d: Durable, s: RunState, n: nat) {
    && |s.updated| == |d.predictions|
    && forall j :: n <= j < |d.predictions| ==>
         s.updated[j] == d.predictions[j]
         && AlreadyApplied(s.model, d.predictions[j].id) == AlreadyApplied(LoadedModel(l, d.model), d.predictions[j].id)
  }

  ghost predicate CleanUpTo(l: Learner, env: RunEnv, d: Durable, s: RunState, n: nat)
    requires n <= |d.predictions|
  {
    && InStep(l, s)
    && Unreached(l, d, s, n)
    && (forall j :: 0 <= j < n ==> (IsSettled(s.updated[j]) <==> EndsSettled(l, env, d, j)))
    && s.fetches == Spent(env, DueAmong(env, d.predictions, n))
  }

  lemma StepLeavesUnreached(l: Learner, d: Durable, s: RunState, r: RunState, n: nat, settles: bool)
    requires n < |d.predictions| && DistinctIds(d.predictions)
    requires Unreached(l, d, s, n) && CleanStep(l, s, r, n, settles)
    ensures Unreached(l, d, r, n + 1)
  {
    hide AlreadyApplied, InStep, GainsAtMost;
    forall j | n + 1 <= j < |d.predictions|
      ensures AlreadyApplied(r.model, d.predictions[j].id) == AlreadyApplied(s.model, d.predictions[j].id)
    {
      GainIsLocal(s.model, r.model, d.predictions[n].id, d.predictions[j].id);
    }
  }

  lemma {:induction false} CleanRunUpTo(l: Learner, env: RunEnv, d: Durable, n: nat)
    requires Clean(env) && DistinctIds(d.predictions) && n <= |d.predictions|
    ensures CleanUpTo(l, env, d, RunUpTo(l, env, d, n), n)
  {
    hide Clean, Step, IsDue, AlreadyApplied, PriceAvailable, PassesGate, CanLearn, DistinctIds, GainsAtMost;
    if n > 0 {
      CleanRunUpTo(l, env, d, n - 1);
      var s := RunUpTo(l, env, d, n - 1);
      CleanStepDone(l, env, s, n - 1);
      StepLeavesUnreached(l, d, s, Step(l, env, s, n - 1), n - 1, EndsSettled(l, env, d, n - 1));
    }
  }

  /** After a run in which no call fails, record i is settled exactly when EndsSettled says so:
      in particular every record left with a recorded price by an earlier run is settled if
      its data allows it, whatever the fetch budget is. */
  lemma CleanRunSettlesExactly(l: Learner, env: RunEnv, d: Durable, i: nat)
    requires Clean(env) && DistinctIds(d.predictions) && i < |d.predictions|
    ensures |Run(l, env, d).durable.predictions| == |d.predictions|
    ensures IsSettled(Run(l, env, d).durable.predictions[i]) <==> EndsSettled(l, env, d, i)
    ensures Run(l, env, d).phase.Running?
  {
    hide EndsSettled, IsSettled;
    CleanRunUpTo(l, env, d, |d.predictions|);
  }

  // ----- budget and no second step, for every environment -----

  lemma UpdateFetchesNothing(l: Learner, env: RunEnv, s: RunState, i: nat)
    requires i < |s.updated|
    ensures UpdateModel(l, env, s, i).fetches == s.fetches
  {
    hide Hit, AlreadyApplied, LearnedFrom;
  }

  lemma RecordPriceFetchesNothing(l: Learner, env: RunEnv, s: RunState, i: nat, price: real)
    requires i < |s.updated| && HasModelInputs(s.updated[i])
    ensures RecordPrice(l, env, s, i, price).fetches == s.fetches
  {
    hide UpdateModel, PriceRecorded;
    var scored := PriceRecorded(l, s.model.weights, s.updated[i], price, env.operationId(i));
    UpdateFetchesNothing(l, env, Committed(s.(updated := s.updated[i := scored]), env.priceCommit(i)), i);
  }

  lemma StepFetches(l: Learner, env: RunEnv, s: RunState, i: nat)
    requires i < |s.updated|
    ensures var f := Step(l, env, s, i).fetches; f == s.fetches || (f == s.fetches + 1 && s.fetches < env.maxPerRun)
  {
    hide PlanFor, FetchedPrice, UpdateModel, RecordPrice;
    UpdateFetchesNothing(l, env, s, i);
    var p := s.updated[i];
    if !InFlight(p) && PlanFor(env, p).Due? {
      var plan := PlanFor(env, p);
      var s1 := s.(updated := s.updated[i := plan.p], dirty := s.dirty || plan.changed, fetches := s.fetches + 1);
      var price := FetchedPrice(env, plan.p, i, plan.day);
      if price.Some? {
        RecordPriceFetchesNothing(l, env, s1, i, price.value);
      }
    }
  }

  /** Candle fetches never exceed the budget, however the run ends. */
  lemma {:induction false} FetchBudget(l: Learner, env: RunEnv, d: Durable, n: nat)
    requires n <= |d.predictions|
    ensures RunUpTo(l, env, d, n).fetches <= if env.maxPerRun < 0 then 0 else env.maxPerRun
  {
    hide Step;
    if n > 0 {
      FetchBudget(l, env, d, n - 1);
      StepFetches(l, env, RunUpTo(l, env, d, n - 1), n - 1);
    }
  }
}
