/** What one run can turn a single stored record into, and the record facts every run keeps. */
module ScoringRecords {
  import opened Options
  import opened OnlineLearning
  import opened PredictionRecords
  import opened ScoringRun
  import opened ScoringSafety

  /** Equal up to the `correct` flag, whose value depends on the weights of the moment. */
  predicate Alike(p: Prediction, q: Prediction) {
    p.(correct := q.correct) == q
  }

  predicate UpdateImage(p: Prediction, q: Prediction) {
    Alike(p, q) || (PassesGate(p) && (Alike(Settled(p), q) || Alike(Unsettled(p), q)))
  }

  /** The record after its price was recorded, up to the `correct` flag. */
  function ScoredRecord(env: RunEnv, i: nat, p: Prediction, price: real): Prediction
    requires HasModelInputs(p)
  {
    WithStatus(p.(resolved := false, targetClose := Some(price), actualUp := Some(price > p.entry.value),
                  operationId := Some(env.operationId(i)), modelUpdate := Queued),
               ModelUpdatePending)
  }

  predicate DueImage(env: RunEnv, i: nat, p: Prediction, day: int, q: Prediction)
    requires env.asOf.Some?
  {
    || q == WithStatus(p, Pending)
    || (FetchedPrice(env, p, i, day).Some? && UpdateImage(ScoredRecord(env, i, p, FetchedPrice(env, p, i, day).value), q))
  }

  /** Every value record i can take, in memory or in the store, during a run that loaded p. */
  predicate Image(env: RunEnv, i: nat, p: Prediction, q: Prediction) {
    || q == p
    || (!IsSettled(p) && AwaitsModel(p) && UpdateImage(p, q))
    || (!InFlight(p) &&
          var plan := PlanFor(env, p);
          q == plan.p || (plan.Due? && DueImage(env, i, plan.p, plan.day, q)))
  }

  // ----- each step of the run changes one record, to one of its images -----

  /** r came from s by giving record i the memory value r.updated[i] and, possibly, writing
      memory to the store; the stored value of record i is old or satisfies `image`. */
  ghost predicate TouchesOnly(s: RunState, r: RunState, i: nat, image: Prediction -> bool) {
    && i < |s.updated| == |r.updated| == |s.durable.predictions| == |r.durable.predictions|
    && image(r.updated[i])
    && (r.durable.predictions[i] == s.durable.predictions[i] || image(r.durable.predictions[i]))
    && (forall j :: 0 <= j < |s.updated| && j != i ==>
          r.updated[j] == s.updated[j]
          && (r.durable.predictions[j] == s.durable.predictions[j] || r.durable.predictions[j] == s.updated[j]))
  }

  lemma SettleTouches(env: RunEnv, s: RunState, i: nat)
    requires i < |s.updated| == |s.durable.predictions| && PassesGate(s.updated[i])
    ensures TouchesOnly(s, Settle(env, s, i), i, q => UpdateImage(s.updated[i], q))
  {
  }

  lemma AlikeUpdateImage(p: Prediction, p': Prediction)
    requires Alike(p, p')
    ensures forall q :: UpdateImage(p', q) ==> UpdateImage(p, q)
  {
  }

  lemma LearnTouches(l: Learner, env: RunEnv, s: RunState, i: nat)
    requires i < |s.updated| == |s.durable.predictions|
    requires PassesGate(s.updated[i]) && !AlreadyApplied(s.model, s.updated[i].id) && CanLearn(s.updated[i])
    ensures TouchesOnly(s, UpdateModel(l, env, s, i), i, q => UpdateImage(s.updated[i], q))
  {
    hide Settle, AlreadyApplied, LearnedFrom, Hit, PassesGate, Settled, Unsettled;
    var p := s.updated[i];
    var q := p.(correct := Some(Hit(l, s.model.weights, p.features.value, Outcome(p))));
    var s' := ModelSaved(s.(model := LearnedFrom(l, s.model, p), updated := s.updated[i := q]), env.modelSave(i));
    assert PassesGate(q) by { GateIgnoresCorrect(p, q); }
    AlikeUpdateImage(p, q);
    if s'.phase.Running? {
      SettleTouches(env, s', i);
    }
  }

  lemma GateIgnoresCorrect(p: Prediction, q: Prediction)
    requires Alike(p, q)
    ensures PassesGate(p) == PassesGate(q)
  {
  }

  lemma UpdateTouches(l: Learner, env: RunEnv, s: RunState, i: nat)
    requires i < |s.updated| == |s.durable.predictions|
    ensures TouchesOnly(s, UpdateModel(l, env, s, i), i, q => UpdateImage(s.updated[i], q))
  {
    hide Settle, AlreadyApplied, LearnedFrom, Hit, CanLearn, PassesGate;
    var p := s.updated[i];
    if PassesGate(p) {
      if AlreadyApplied(s.model, p.id) {
        SettleTouches(env, s, i);
      } else if CanLearn(p) {
        LearnTouches(l, env, s, i);
      }
    }
  }

  /** Writing the list after an edit of record i, and then touching record i only. */
  lemma TouchesAfterCommit(s: RunState, x: Prediction, r: RunState, i: nat, image: Prediction -> bool)
    requires i < |s.updated| == |s.durable.predictions| && image(x)
    requires TouchesOnly(Committed(s.(updated := s.updated[i := x]), Done), r, i, image)
    ensures TouchesOnly(s, r, i, image)
  {
  }

  lemma CommitTouches(s: RunState, x: Prediction, i: nat, image: Prediction -> bool, outcome: CallOutcome, pending: nat)
    requires i < |s.updated| == |s.durable.predictions| && image(x)
    ensures TouchesOnly(s, Committed(s.(updated := s.updated[i := x]), outcome).(pending := pending), i, image)
  {
  }

  lemma RecordPriceTouches(l: Learner, env: RunEnv, s: RunState, i: nat, price: real)
    requires i < |s.updated| == |s.durable.predictions| && HasModelInputs(s.updated[i])
    ensures TouchesOnly(s, RecordPrice(l, env, s, i, price), i,
                        q => UpdateImage(ScoredRecord(env, i, s.updated[i], price), q))
  {
    hide UpdateModel, Hit, PassesGate, Settled, Unsettled;
    var p := ScoredRecord(env, i, s.updated[i], price);
    var scored := PriceRecorded(l, s.model.weights, s.updated[i], price, env.operationId(i));
    assert UpdateImage(p, scored);
    AlikeUpdateImage(p, scored);
    hide UpdateImage, TouchesOnly, PriceRecorded, ScoredRecord;
    var image := q => UpdateImage(p, q);
    if env.priceCommit(i).Done? {
      var s' := Committed(s.(updated := s.updated[i := scored]), Done);
      UpdateTouches(l, env, s', i);
      TouchesMore(s', UpdateModel(l, env, s', i), i, q => UpdateImage(s'.updated[i], q), image);
      TouchesAfterCommit(s, scored, UpdateModel(l, env, s', i), i, image);
      TouchesMore(s, UpdateModel(l, env, s', i), i, image, q => UpdateImage(ScoredRecord(env, i, s.updated[i], price), q));
    } else {
      CommitTouches(s, scored, i, image, env.priceCommit(i), RecordPrice(l, env, s, i, price).pending);
      TouchesMore(s, RecordPrice(l, env, s, i, price), i, image, q => UpdateImage(ScoredRecord(env, i, s.updated[i], price), q));
    }
  }

  lemma TouchesMore(s: RunState, r: RunState, i: nat, image: Prediction -> bool, wider: Prediction -> bool)
    requires TouchesOnly(s, r, i, image) && forall q :: image(q) ==> wider(q)
    ensures TouchesOnly(s, r, i, wider)
  {
  }

  lemma ScoreDueTouches(l: Learner, env: RunEnv, s: RunState, i: nat, day: int)
    requires i < |s.updated| == |s.durable.predictions| && env.asOf.Some?
    ensures TouchesOnly(s, ScoreDue(l, env, s, i, day), i,
                        q => q == s.updated[i] || DueImage(env, i, s.updated[i], day, q))
  {
    hide RecordPrice, FetchedPrice;
    var price := FetchedPrice(env, s.updated[i], i, day);
    if !env.fetch(i).FetchStopped? && price.Some? {
      RecordPriceTouches(l, env, s.(fetches := s.fetches + 1), i, price.value);
    }
  }

  lemma StepTouches(l: Learner, env: RunEnv, s: RunState, i: nat)
    requires i < |s.updated| == |s.durable.predictions|
    ensures TouchesOnly(s, Step(l, env, s, i), i, q => Image(env, i, s.updated[i], q))
  {
    hide UpdateModel, ScoreDue, PlanFor, DueImage;
    var p := s.updated[i];
    if IsSettled(p) {
    } else if AwaitsModel(p) {
      UpdateTouches(l, env, s, i);
    } else {
      var plan := PlanFor(env, p);
      if plan.Due? && s.fetches < env.maxPerRun {
        ScoreDueTouches(l, env, s.(updated := s.updated[i := plan.p], dirty := s.dirty || plan.changed), i, plan.day);
      }
    }
  }

  /** In memory and in the store, records already reached are images of what was loaded and
      the others are still as loaded. */
  ghost predicate ImagesUpTo(env: RunEnv, d: Durable, s: RunState, n: nat) {
    && |s.updated| == |d.predictions| == |s.durable.predictions|
    && forall j :: 0 <= j < |d.predictions| ==>
         if j < n then Image(env, j, d.predictions[j], s.updated[j]) && Image(env, j, d.predictions[j], s.durable.predictions[j])
         else s.updated[j] == d.predictions[j] == s.durable.predictions[j]
  }

  lemma {:induction false} RunUpToImages(l: Learner, env: RunEnv, d: Durable, n: nat)
    requires n <= |d.predictions|
    ensures ImagesUpTo(env, d, RunUpTo(l, env, d, n), n)
  {
    hide Image, Step;
    if n > 0 {
      RunUpToImages(l, env, d, n - 1);
      var s := RunUpTo(l, env, d, n - 1);
      if s.phase.Running? {
        StepTouches(l, env, s, n - 1);
      } else {
        ImageReflexive(env, n - 1, d.predictions[n-1]);
      }
      ImageReflexive(env, n - 1, d.predictions[n-1]);
    }
  }

  lemma ImageReflexive(env: RunEnv, i: nat, p: Prediction)
    ensures Image(env, i, p, p)
  {
    hide DueImage, PlanFor;
  }

  /** Each stored record is an image of the record loaded at the same place. */
  lemma RunImages(l: Learner, env: RunEnv, d: Durable)
    ensures |Run(l, env, d).durable.predictions| == |d.predictions|
    ensures forall j :: 0 <= j < |d.predictions| ==>
              Image(env, j, d.predictions[j], Run(l, env, d).durable.predictions[j])
  {
    hide Image;
    RunUpToImages(l, env, d, |d.predictions|);
  }

  /** An EVALUATED commit that stays although it was reported as failed is taken back by the next
      write of the same run that reaches the store; a later run acknowledges the record again. */
  lemma ReportedFailureIsTakenBack(env: RunEnv, s: RunState, i: nat, outcome: CallOutcome)
    requires i < |s.updated| == |s.durable.predictions| && !IsSettled(s.updated[i]) && AwaitsModel(s.updated[i])
    requires env.settleCommit(i).RejectedAfter?
    ensures var r := Settle(env, s, i);
            && IsSettled(r.durable.predictions[i]) && !IsSettled(r.updated[i]) && AwaitsModel(r.updated[i])
            && (IsSettled(Committed(r, outcome).durable.predictions[i]) <==> !Reaches(outcome))
  {
  }

  // ----- what follows for one record -----

  /** A record as `predict` writes it and every run keeps it. */
  predicate WellFormed(p: Prediction) {
    && !IsLegacy(p)
    && (p.targetStatus.Confirmed? <==> p.target.Some?)
    && p.status in {NoStatus, Pending, ModelUpdatePending, Evaluated}
    && (p.status in {ModelUpdatePending, Evaluated} <==> p.targetClose.Some?)
    && (!p.status.NoStatus? ==> p.targetStatus.Confirmed?)
    && (p.resolved <==> p.status.Evaluated?)
    && (p.actualUp.Some? <==> p.targetClose.Some?)
  }

  lemma DatedPlanWellFormed(env: RunEnv, p: Prediction, changed: bool)
    requires WellFormed(p) && !InFlight(p) && p.target.Some?
    ensures WellFormed(DatedPlan(env, p, changed).p)
  {
    hide Merged;
  }

  lemma PlanWellFormed(env: RunEnv, p: Prediction)
    requires WellFormed(p) && !InFlight(p) && HonestCalendar(env.calendar)
    ensures WellFormed(PlanFor(env, p).p)
  {
    hide Merged, DatedPlan;
    if p.target.Some? {
      DatedPlanWellFormed(env, p, false);
    } else if p.horizonType == LEGACY_HORIZON && p.base.Some? {
      var answer := env.calendar.legacyTarget(p.base.value);
      if answer.ok && answer.target.Some? {
        DatedPlanWellFormed(env, Redated(p, answer), true);
      }
    }
  }

  lemma UpdateWellFormed(p: Prediction, q: Prediction)
    requires WellFormed(p) && p.status.ModelUpdatePending? && UpdateImage(p, q)
    ensures WellFormed(q)
  {
  }

  lemma DueWellFormed(env: RunEnv, i: nat, p: Prediction, day: int, q: Prediction)
    requires WellFormed(p) && !InFlight(p) && p.target == Some(Known(day)) && env.asOf.Some? && DueImage(env, i, p, day, q)
    ensures WellFormed(q)
  {
    hide FetchedPrice, UpdateImage;
    if q != WithStatus(p, Pending) {
      UpdateWellFormed(ScoredRecord(env, i, p, FetchedPrice(env, p, i, day).value), q);
    }
  }

  /** Target confirmed exactly when dated, and scored exactly when priced: kept by every run. */
  lemma ImageWellFormed(env: RunEnv, i: nat, p: Prediction, q: Prediction)
    requires WellFormed(p) && Image(env, i, p, q) && HonestCalendar(env.calendar)
    ensures WellFormed(q)
  {
    hide PlanFor, DueImage, UpdateImage, HonestCalendar;
    if q == p {
    } else if AwaitsModel(p) {
      UpdateWellFormed(p, q);
    } else {
      var plan := PlanFor(env, p);
      PlanIsSafe(env, p);
      PlanWellFormed(env, p);
      if q != plan.p {
        DueWellFormed(env, i, plan.p, plan.day, q);
      }
    }
  }

  /** The conditions under which a price may be recorded. */
  ghost predicate FairPrice(env: RunEnv, i: nat, p: Prediction, q: Prediction) {
    && q.target.Some? && q.target.value.Known? && env.asOf.Some? && env.fetch(i).Fetched?
    && var day := q.target.value.day;
       && day <= env.asOf.value
       && (p.base.Some? && p.base.value.Known? ==> p.base.value.day < day)
       && q.targetClose.Some?
       && OffersPrice(p, env.fetch(i).candles, day, env.asOf.value, q.targetClose.value)
       && q.actualUp == Some(q.targetClose.value > p.entry.value)
  }

  predicate SameIdentity(p: Prediction, q: Prediction) {
    && q.id == p.id && q.symbol == p.symbol && q.base == p.base && q.horizonType == p.horizonType
    && q.horizonDays == p.horizonDays && q.modelVersion == p.modelVersion && q.featureVersion == p.featureVersion
    && q.features == p.features && q.entry == p.entry && (IsLegacy(q) <==> IsLegacy(p))
  }

  predicate KeepsFacts(p: Prediction, q: Prediction) {
    SameIdentity(p, q) && q.actualUp == p.actualUp && q.operationId == p.operationId
  }

  lemma DatedPlanKeepsFacts(env: RunEnv, p: Prediction, changed: bool)
    requires p.target.Some?
    ensures KeepsFacts(p, DatedPlan(env, p, changed).p)
  {
    hide Merged, Sanitized;
  }

  lemma PlanKeepsFacts(env: RunEnv, p: Prediction)
    ensures KeepsFacts(p, PlanFor(env, p).p)
  {
    hide Merged, Sanitized, DatedPlan, StatusOfAnswer;
    if p.target.Some? {
      DatedPlanKeepsFacts(env, p, false);
    } else if p.horizonType == LEGACY_HORIZON && p.base.Some? {
      var answer := env.calendar.legacyTarget(p.base.value);
      if answer.ok && answer.target.Some? {
        DatedPlanKeepsFacts(env, Redated(p, answer), true);
      }
    }
  }

  /** How any run may change a stored record: identity fields never, a settled record never,
      a recorded price and outcome never again, and a new price only from the final candle
      of the target day. */
  ghost predicate Evolves(env: RunEnv, i: nat, p: Prediction, q: Prediction) {
    && SameIdentity(p, q)
    && (IsSettled(p) ==> q == p)
    && (InFlight(p) ==> InFlight(q) && q.targetClose == p.targetClose && q.actualUp == p.actualUp
                        && q.operationId == p.operationId && q.target == p.target)
    && (q.targetClose != p.targetClose ==> FairPrice(env, i, p, q))
  }

  lemma UpdateEvolves(env: RunEnv, i: nat, p: Prediction, q: Prediction)
    requires !IsSettled(p) && AwaitsModel(p) && UpdateImage(p, q)
    ensures Evolves(env, i, p, q)
  {
    hide FairPrice;
  }

  lemma FetchedPriceIsFair(env: RunEnv, i: nat, p: Prediction, day: int)
    requires p.target == Some(Known(day)) && env.asOf.Some? && day <= env.asOf.value
    requires p.base.Some? && p.base.value.Known? ==> p.base.value.day < day
    requires FetchedPrice(env, p, i, day).Some?
    ensures FairPrice(env, i, p, ScoredRecord(env, i, p, FetchedPrice(env, p, i, day).value))
  {
    hide Sanitized;
  }

  lemma DueEvolves(env: RunEnv, i: nat, p: Prediction, plan: Plan, q: Prediction)
    requires !InFlight(p) && plan == PlanFor(env, p) && plan.Due? && DueImage(env, i, plan.p, plan.day, q)
    ensures Evolves(env, i, p, q)
  {
    hide PlanFor, FetchedPrice, Sanitized;
    PlanIsSafe(env, p);
    PlanKeepsFacts(env, p);
    if q != WithStatus(plan.p, Pending) {
      FetchedPriceIsFair(env, i, plan.p, plan.day);
    }
  }

  lemma ImageEvolves(env: RunEnv, i: nat, p: Prediction, q: Prediction)
    requires Image(env, i, p, q)
    ensures Evolves(env, i, p, q)
  {
    hide PlanFor, DueImage, UpdateImage, FairPrice;
    if q == p {
    } else if AwaitsModel(p) {
      UpdateEvolves(env, i, p, q);
    } else {
      var plan := PlanFor(env, p);
      PlanIsSafe(env, p);
      PlanKeepsFacts(env, p);
      if q != plan.p {
        DueEvolves(env, i, p, plan, q);
      }
    }
  }

  /** Every run evolves every stored record, whatever fails and wherever the process stops. */
  lemma RunEvolves(l: Learner, env: RunEnv, d: Durable, i: nat)
    requires i < |d.predictions|
    ensures |Run(l, env, d).durable.predictions| == |d.predictions|
    ensures Evolves(env, i, d.predictions[i], Run(l, env, d).durable.predictions[i])
    ensures WellFormed(d.predictions[i]) && HonestCalendar(env.calendar) ==> WellFormed(Run(l, env, d).durable.predictions[i])
  {
    hide Image, Evolves, WellFormed, Run;
    var q := Run(l, env, d).durable.predictions;
    RunImages(l, env, d);
    ImageEvolves(env, i, d.predictions[i], q[i]);
    if WellFormed(d.predictions[i]) && HonestCalendar(env.calendar) {
      ImageWellFormed(env, i, d.predictions[i], q[i]);
    }
  }
}
