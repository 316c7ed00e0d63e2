/** The predictor as it runs: a store whose two files are written separately, a working copy of
    the predictions edited in place, a live model object, and the loops of predictor.js.
    Each method is proved to do exactly what the run and event functions say. */
module PredictorService {
  import opened Options
  import opened OnlineLearning
  import opened PredictionRecords
  import opened ScoringRun
  import opened PredictionLifecycle

  class Store {
    var predictions: seq<Prediction>
    var model: Option<Model>

    constructor ()
      ensures Contents() == EMPTY
    {
      predictions, model := [], None;
    }

    function Contents(): Durable
      reads this
    {
      Durable(predictions, model)
    }

    /** Writes the whole list; only a call that reaches the store writes it. */
    method CommitPredictions(next: seq<Prediction>, outcome: CallOutcome)
      modifies this`predictions
      ensures predictions == if Reaches(outcome) then next else old(predictions)
    {
      if Reaches(outcome) {
        predictions := next;
      }
    }

    method SaveModel(next: Model, outcome: CallOutcome)
      modifies this`model
      ensures model == if Reaches(outcome) then Some(next) else old(model)
    {
      if Reaches(outcome) {
        model := Some(next);
      }
    }
  }

  /** The model object a run loads and edits in place. */
  class LiveModel {
    var weights: Weights
    var trained: int
    var wins: int
    var losses: int
    var applied: seq<AppliedEntry>

    constructor (m: Model)
      ensures Value() == m
    {
      weights, trained, wins, losses, applied := m.weights, m.trained, m.wins, m.losses, m.applied;
    }

    function Value(): Model
      reads this
    {
      Model(weights, trained, wins, losses, applied)
    }

    /** One gradient step, one feature at a time; the error is fixed before the first. */
    method Descend(l: Learner, features: Features, up: bool) returns (hit: bool)
      modifies this`weights
      ensures weights == Sgd(l, old(weights), features, up)
      ensures hit == Hit(l, old(weights), features, up)
    {
      var prob := ProbUp(l, weights, features);
      var err := LabelValue(up) - prob;
      for k := 0 to |features|
        invariant weights == Shifted(l, old(weights), features[..k], err)
      {
        ShiftedOneMore(l, old(weights), features, k, err);
        weights := Nudged(l, weights, features[k], err);
      }
      assert features[..|features|] == features;
      hit := (prob >= 0.5) == up;
    }

    method Apply(l: Learner, p: Prediction) returns (hit: bool)
      requires CanLearn(p)
      modifies this
      ensures Value() == LearnedFrom(l, old(Value()), p)
      ensures hit == Hit(l, old(weights), p.features.value, Outcome(p))
    {
      hit := Descend(l, p.features.value, p.targetClose.value > p.entry.value);
      trained := trained + 1;
      if hit {
        wins := wins + 1;
      } else {
        losses := losses + 1;
      }
      applied := applied + [AppliedEntry(p.id, p.operationId)];
    }
  }

  /** The objects of a run hold the values of a run state. */
  ghost predicate Shows(store: Store, updated: array<Prediction>, live: LiveModel, s: RunState)
    reads store, updated, live
  {
    store.Contents() == s.durable && updated[..] == s.updated && live.Value() == s.model
  }

  /** Everything but the stores, the working copy, the model, the phase and `processed`. */
  predicate SameTallies(s: RunState, r: RunState) {
    && r.fetches == s.fetches && r.dirty == s.dirty && r.calendarPending == s.calendarPending
    && r.pending == s.pending && r.skipped == s.skipped
  }

  /** The EVALUATED commit; on rejection the record is handed back to the next run. */
  method SettleRecord(env: RunEnv, store: Store, updated: array<Prediction>, live: LiveModel, i: nat, ghost s: RunState)
    returns (evaluated: bool)
    requires i < updated.Length && Shows(store, updated, live, s) && s.phase.Running?
    modifies store, updated
    ensures Shows(store, updated, live, Settle(env, s, i))
    ensures SameTallies(s, Settle(env, s, i))
    ensures Settle(env, s, i).processed == s.processed + if evaluated then 1 else 0
    ensures Settle(env, s, i).phase == if env.settleCommit(i).StoppedBefore? || env.settleCommit(i).StoppedAfter? then Stopped else Running
  {
    var before := updated[i];
    updated[i] := before.(status := Evaluated, resolved := true, modelUpdate := Applied);
    store.CommitPredictions(updated[..], env.settleCommit(i));
    evaluated := env.settleCommit(i).Done?;
    if env.settleCommit(i).Rejected? || env.settleCommit(i).RejectedAfter? {
      updated[i] := before.(status := if before.status.Evaluated? || before.status.NoStatus? then ModelUpdatePending else before.status,
                            resolved := false, modelUpdate := Queued);
    }
  }

  /** The state of the run after record i was learnt from and the model save returned. */
  ghost function LearntState(l: Learner, env: RunEnv, s: RunState, i: nat): RunState
    requires i < |s.updated| && CanLearn(s.updated[i])
  {
    var p := s.updated[i];
    var hit := Hit(l, s.model.weights, p.features.value, Outcome(p));
    ModelSaved(s.(model := LearnedFrom(l, s.model, p), updated := s.updated[i := p.(correct := Some(hit))]), env.modelSave(i))
  }

  /** One step of the live model, then its save. */
  method LearnAndSave(l: Learner, env: RunEnv, store: Store, updated: array<Prediction>, live: LiveModel, i: nat, ghost s: RunState)
    returns (phase: Phase)
    requires i < updated.Length && Shows(store, updated, live, s) && s.phase.Running? && CanLearn(updated[i])
    modifies store, updated, live
    ensures Shows(store, updated, live, LearntState(l, env, s, i))
    ensures phase == LearntState(l, env, s, i).phase
  {
    hide Hit, LearnedFrom;
    var p := updated[i];
    var hit := live.Apply(l, p);
    updated[i] := p.(correct := Some(hit));
    store.SaveModel(live.Value(), env.modelSave(i));
    phase := match env.modelSave(i) case Done => Running case Rejected => ModelSaveFailed case RejectedAfter => ModelSaveFailed case _ => Stopped;
  }

  lemma UpdateFromLearnt(l: Learner, env: RunEnv, s: RunState, i: nat)
    requires i < |s.updated| && s.phase.Running? && PassesGate(s.updated[i])
    requires !AlreadyApplied(s.model, s.updated[i].id) && CanLearn(s.updated[i])
    ensures var s' := LearntState(l, env, s, i);
            && UpdateModel(l, env, s, i) == (if s'.phase.Running? then Settle(env, s', i) else s')
            && SameTallies(s, s') && s'.processed == s.processed && |s'.updated| == |s.updated|
  {
    hide Settle, Hit, LearnedFrom, AlreadyApplied;
  }

  method ApplyModelUpdate(l: Learner, env: RunEnv, store: Store, updated: array<Prediction>, live: LiveModel, i: nat, ghost s: RunState)
    returns (evaluated: bool, phase: Phase)
    requires i < updated.Length && Shows(store, updated, live, s) && s.phase.Running?
    modifies store, updated, live
    ensures var r := UpdateModel(l, env, s, i);
            Shows(store, updated, live, r) && SameTallies(s, r) && r.phase == phase
            && r.processed == s.processed + if evaluated then 1 else 0
  {
    hide Hit, LearnedFrom, AlreadyApplied, LearntState, Settle;
    evaluated, phase := false, Running;
    var p := updated[i];
    if !IsLegacy(p) && (!p.targetStatus.Confirmed? || p.targetClose.None?) {
      return;
    }
    ghost var s' := s;
    if !AlreadyApplied(live.Value(), p.id) {
      if p.features.None? || p.entry.None? || p.entry.value <= 0.0 || p.targetClose.None? {
        return;
      }
      UpdateFromLearnt(l, env, s, i);
      s' := LearntState(l, env, s, i);
      phase := LearnAndSave(l, env, store, updated, live, i, s);
      if !phase.Running? {
        return;
      }
    }
    evaluated := SettleRecord(env, store, updated, live, i, s');
    phase := if env.settleCommit(i).StoppedBefore? || env.settleCommit(i).StoppedAfter? then Stopped else Running;
  }

  method PlanDated(env: RunEnv, p: Prediction, dirty: bool) returns (plan: Plan)
    requires p.target.Some?
    ensures plan == DatedPlan(env, p, dirty)
  {
    hide CalendarAnnotated, Sanitized;
    if (env.calendar.listed && !env.calendar.has(p.target.value)) || p.target.value.Malformed? {
      var q := CalendarAnnotated(p, NoTargetStatus);
      return NeedsCalendar(q, dirty || q != p);
    }
    var day := p.target.value.day;
    if p.base.Some? && p.base.value.Known? && day <= p.base.value.day {
      return Wait(p.(targetRejected := true), dirty || !p.targetRejected);
    }
    if env.asOf.None? || env.asOf.value < day {
      var q := WithStatus(p, Pending);
      return Wait(q, dirty || q != p);
    }
    return Due(p, dirty, day);
  }

  /** The triage of one unsettled record, branch by branch. */
  method PlanRecord(env: RunEnv, loaded: Prediction) returns (plan: Plan)
    ensures plan == PlanFor(env, loaded)
  {
    hide CalendarAnnotated, Sanitized, StatusOfAnswer, DatedPlan;
    var p, dirty := loaded, false;
    if p.target.None? {
      if p.horizonType == LEGACY_HORIZON {
        if p.base.None? {
          return NeedsCalendar(CalendarAnnotated(p, NoTargetStatus), CalendarAnnotated(p, NoTargetStatus) != p);
        }
        var answer := env.calendar.legacyTarget(p.base.value);
        if answer.ok && answer.target.Some? {
          p := p.(target := answer.target);
          if !IsLegacy(p) {
            p := p.(targetStatus := Confirmed);
          }
          p := WithStatus(p, Pending);
          p := p.(missing := answer.missing);
          dirty := true;
        } else {
          var q := CalendarAnnotated(p, StatusOfAnswer(answer));
          return NeedsCalendar(q, q != p);
        }
      } else {
        return NeedsCalendar(CalendarAnnotated(p, NoTargetStatus), CalendarAnnotated(p, NoTargetStatus) != p);
      }
    }
    plan := PlanDated(env, p, dirty);
  }

  /** The loop variables of processMatured beside the stores, the working copy and the model. */
  class Tally {
    var fetches: nat
    var dirty: bool
    var processed: nat
    var calendarPending: nat
    var pending: nat
    var skipped: nat

    constructor ()
      ensures fetches == processed == calendarPending == pending == skipped == 0 && !dirty
    {
      fetches, dirty, processed, calendarPending, pending, skipped := 0, false, 0, 0, 0, 0;
    }
  }

  ghost predicate ShowsAll(store: Store, updated: array<Prediction>, live: LiveModel, t: Tally, s: RunState)
    reads store, updated, live, t
  {
    && Shows(store, updated, live, s)
    && t.fetches == s.fetches && t.dirty == s.dirty && t.processed == s.processed
    && t.calendarPending == s.calendarPending && t.pending == s.pending && t.skipped == s.skipped
  }

  /** Price, then model, then EVALUATED, for a record whose target candle was found. */
  method RecordPriceAndLearn(l: Learner, env: RunEnv, store: Store, updated: array<Prediction>, live: LiveModel, t: Tally,
                             i: nat, price: real, ghost s: RunState)
    returns (phase: Phase)
    requires i < updated.Length && ShowsAll(store, updated, live, t, s) && s.phase.Running?
    requires HasModelInputs(updated[i])
    modifies store, updated, live, t
    ensures ShowsAll(store, updated, live, t, RecordPrice(l, env, s, i, price))
    ensures phase == RecordPrice(l, env, s, i, price).phase
  {
    hide Hit, UpdateModel;
    updated[i] := PriceRecorded(l, live.weights, updated[i], price, env.operationId(i));
    store.CommitPredictions(updated[..], env.priceCommit(i));
    ghost var s' := Committed(s.(updated := updated[..]), env.priceCommit(i));
    if env.priceCommit(i).Rejected? || env.priceCommit(i).RejectedAfter? {
      t.pending := t.pending + 1;
      return Running;
    }
    if !env.priceCommit(i).Done? {
      return Stopped;
    }
    var evaluated;
    evaluated, phase := ApplyModelUpdate(l, env, store, updated, live, i, s');
    if evaluated {
      t.processed := t.processed + 1;
    }
  }

  method PostponeRecord(store: Store, updated: array<Prediction>, live: LiveModel, t: Tally, i: nat, ghost s: RunState)
    requires i < updated.Length && ShowsAll(store, updated, live, t, s)
    modifies updated, t
    ensures ShowsAll(store, updated, live, t, Postponed(s, i))
  {
    var p := WithStatus(updated[i], Pending);
    if p != updated[i] {
      t.dirty := true;
    }
    updated[i] := p;
    t.pending := t.pending + 1;
  }

  /** The candle fetch for a due record and what follows it. */
  method ScoreDueRecord(l: Learner, env: RunEnv, store: Store, updated: array<Prediction>, live: LiveModel, t: Tally,
                        i: nat, day: int, ghost s: RunState)
    returns (phase: Phase)
    requires i < updated.Length && ShowsAll(store, updated, live, t, s) && s.phase.Running? && env.asOf.Some?
    modifies store, updated, live, t
    ensures ShowsAll(store, updated, live, t, ScoreDue(l, env, s, i, day))
    ensures phase == ScoreDue(l, env, s, i, day).phase
  {
    hide RecordPrice, FetchedPrice, Postponed;
    t.fetches := t.fetches + 1;
    ghost var s' := s.(fetches := s.fetches + 1);
    if env.fetch(i).FetchStopped? {
      return Stopped;
    }
    var price := FetchedPrice(env, updated[i], i, day);
    if price.None? {
      PostponeRecord(store, updated, live, t, i, s');
      assert Postponed(s', i).phase == Running by { PostponedRuns(s', i); }
      return Running;
    }
    phase := RecordPriceAndLearn(l, env, store, updated, live, t, i, price.value, s');
  }

  lemma PostponedRuns(s: RunState, i: nat)
    requires i < |s.updated|
    ensures Postponed(s, i).phase == s.phase
  {
  }

  /** One iteration of the loop over the working copy. */
  method ProcessRecord(l: Learner, env: RunEnv, store: Store, updated: array<Prediction>, live: LiveModel, t: Tally,
                       i: nat, ghost s: RunState)
    returns (phase: Phase)
    requires i < updated.Length && ShowsAll(store, updated, live, t, s) && s.phase.Running?
    modifies store, updated, live, t
    ensures ShowsAll(store, updated, live, t, Step(l, env, s, i))
    ensures phase == Step(l, env, s, i).phase
  {
    hide UpdateModel, PlanFor, ScoreDue;
    var p := updated[i];
    if IsSettled(p) {
      t.skipped := t.skipped + 1;
      return Running;
    }
    if p.status.PriceEvaluated? || p.status.ModelUpdatePending? {
      var evaluated;
      evaluated, phase := ApplyModelUpdate(l, env, store, updated, live, i, s);
      if evaluated {
        t.processed := t.processed + 1;
      }
      return;
    }
    var plan := PlanRecord(env, p);
    updated[i] := plan.p;
    t.dirty := t.dirty || plan.changed;
    if plan.NeedsCalendar? {
      t.calendarPending := t.calendarPending + 1;
      return Running;
    }
    if plan.Wait? || t.fetches >= env.maxPerRun {
      t.pending := t.pending + 1;
      return Running;
    }
    ghost var s' := s.(updated := updated[..], dirty := t.dirty);
    phase := ScoreDueRecord(l, env, store, updated, live, t, i, plan.day, s');
  }

  lemma {:induction false} NothingAfterStop(l: Learner, env: RunEnv, d: Durable, n: nat, m: nat)
    requires n <= m <= |d.predictions| && !RunUpTo(l, env, d, n).phase.Running?
    ensures RunUpTo(l, env, d, m) == RunUpTo(l, env, d, n)
  {
    hide Step;
    if n < m {
      NothingAfterStop(l, env, d, n, m - 1);
    }
  }

  /** One whole run; `phase` reports a stop or a failed model save. */
  method ProcessMatured(l: Learner, env: RunEnv, store: Store) returns (t: Tally, phase: Phase)
    modifies store
    ensures fresh(t)
    ensures var r := Run(l, env, old(store.Contents()));
            && store.Contents() == r.durable && phase == r.phase
            && t.processed == r.processed && t.calendarPending == r.calendarPending && t.pending == r.pending
            && t.skipped == r.skipped && t.fetches == r.fetches
  {
    hide Step;
    ghost var d := store.Contents();
    var preds := store.predictions;
    var live := new LiveModel(LoadedModel(l, store.model));
    var updated := new Prediction[|preds|](k requires 0 <= k < |preds| => preds[k]);
    t := new Tally();
    phase := Running;
    var i := 0;
    while i < updated.Length
      invariant 0 <= i <= updated.Length == |d.predictions|
      invariant phase.Running? && RunUpTo(l, env, d, i).phase.Running?
      invariant ShowsAll(store, updated, live, t, RunUpTo(l, env, d, i))
    {
      phase := ProcessRecord(l, env, store, updated, live, t, i, RunUpTo(l, env, d, i));
      i := i + 1;
      if !phase.Running? {
        NothingAfterStop(l, env, d, i, |d.predictions|);
        return;
      }
    }
    if t.dirty {
      store.CommitPredictions(updated[..], env.finalCommit);
      if env.finalCommit.StoppedBefore? || env.finalCommit.StoppedAfter? {
        phase := Stopped;
      }
    }
  }

  /** Training on past candles; the model is saved once, after the walk. */
  method TrainFromHistory(l: Learner, store: Store, samples: seq<Sample>, saved: bool)
    modifies store`model
    ensures store.Contents() == After(l, old(store.Contents()), HistoryTraining(samples, saved))
  {
    hide Sgd, Hit;
    var live := new LiveModel(LoadedModel(l, store.model));
    ghost var start := LoadedModel(l, store.model).weights;
    var wins := 0;
    for k := 0 to |samples|
      invariant unchanged(store) && fresh(live)
      invariant live.Value() == LoadedModel(l, store.model).(weights := live.weights)
      invariant (live.weights, wins) == Walked(l, start, samples[..k])
    {
      WalkSnoc(SgdStep(l), HitCount(l), start, samples[..k], samples[k]);
      assert samples[..k+1] == samples[..k] + [samples[k]];
      var hit := live.Descend(l, samples[k].features, samples[k].up);
      if hit {
        wins := wins + 1;
      }
    }
    assert samples[..|samples|] == samples;
    var loaded := LoadedModel(l, store.model);
    assert Walked(l, loaded.weights, samples) == (live.weights, wins);
    if |samples| > 0 {
      live.trained := live.trained + |samples|;
      live.wins := live.wins + wins;
      live.losses := live.losses + (|samples| - wins);
      store.SaveModel(live.Value(), if saved then Done else Rejected);
    }
  }

  /** Recording a prediction, unless one with the same six fields is stored. */
  method Predict(l: Learner, store: Store, cal: Calendar, r: Request, id: string, saved: bool)
    modifies store`predictions
    ensures store.Contents() == After(l, old(store.Contents()), NewPrediction(cal, r, id, saved))
  {
    hide Recordable, Draft;
    if Recordable(cal, r) {
      var p := Draft(cal, r, id);
      if !IsDuplicate(store.predictions, KeyOf(p)) && saved {
        store.predictions := store.predictions + [p];
      }
    }
  }
}
