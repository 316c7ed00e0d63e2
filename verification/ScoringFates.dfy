/** What becomes of every record in a run in which no call fails, said on the loaded stores, the
    calendar's answers, the fetched candles and the date of the run; and what the run reports. */
module ScoringFates {
  import opened Options
  import opened OnlineLearning
  import opened PredictionRecords
  import opened ScoringRun
  import opened ScoringTriage
  import opened ScoringSafety
  import opened ScoringRecords
  import opened ScoringRecovery

  /** Settled before; settled now; without a usable target date; waiting; or with a recorded price
      that cannot be learnt from. */
  datatype Fate = AlreadySettled | SettledNow | NoDate | Waiting | Unusable

  /** An open record whose target day has come asks for candles. */
  ghost predicate Asks(env: RunEnv, p: Prediction) {
    !InFlight(p) && exists day :: DueOn(env, p, day)
  }

  ghost function AskedAmong(env: RunEnv, preds: seq<Prediction>, n: nat): nat
    requires n <= |preds|
  {
    if n == 0 then 0 else AskedAmong(env, preds, n - 1) + if Asks(env, preds[n-1]) then 1 else 0
  }

  /** The candles fetched for record i offer its price. */
  ghost predicate Priced(env: RunEnv, i: nat, p: Prediction) {
    env.fetch(i).Fetched?
    && exists day, price :: DueOn(env, p, day) && OffersPrice(p, env.fetch(i).candles, day, env.asOf.value, price)
  }

  ghost function FateOf(l: Learner, env: RunEnv, d: Durable, i: nat): Fate
    requires i < |d.predictions|
  {
    var p := d.predictions[i];
    if IsSettled(p) then AlreadySettled
    else if AwaitsModel(p) then
      var learnable := p.features.Some? && p.entry.Some? && p.entry.value > 0.0 && p.targetClose.Some?;
      if (IsLegacy(p) || (p.targetStatus.Confirmed? && p.targetClose.Some?))
         && (p.id in Ids(LoadedModel(l, d.model).applied) || learnable)
      then SettledNow else Unusable
    else if Undated(env, p) then NoDate
    else if Priced(env, i, p) && AskedAmong(env, d.predictions, i) < env.maxPerRun then
      if IsLegacy(p) || p.target.None? || p.targetStatus.Confirmed? then SettledNow else Unusable
    else Waiting
  }

  // ----- fields and plans agree -----

  lemma AsksIffDue(env: RunEnv, p: Prediction)
    ensures Asks(env, p) <==> IsDue(env, p)
  {
    PlanOnFields(env, p);
    hide PlanFor, DueOn, Undated, WaitsFor, TargetCleared;
  }

  lemma {:induction false} AskedIsDue(env: RunEnv, preds: seq<Prediction>, n: nat)
    requires n <= |preds|
    ensures AskedAmong(env, preds, n) == DueAmong(env, preds, n)
  {
    if n > 0 {
      hide Asks, IsDue;
      AskedIsDue(env, preds, n - 1);
      AsksIffDue(env, preds[n-1]);
    }
  }

  /** The plan of a due record keeps what scoring reads, and its target status is confirmed if the
      calendar supplied the target. */
  lemma DuePlan(env: RunEnv, p: Prediction)
    requires PlanFor(env, p).Due?
    ensures var q := PlanFor(env, p).p;
            q.features == p.features && q.entry == p.entry && (IsLegacy(q) <==> IsLegacy(p))
            && (q.targetStatus.Confirmed? <==> p.targetStatus.Confirmed? || (p.target.None? && !IsLegacy(p)))
  {
    hide Merged, Sanitized, StatusOfAnswer, CalendarAnnotated;
  }

  lemma PricedIffFetched(env: RunEnv, i: nat, p: Prediction)
    requires IsDue(env, p)
    ensures env.asOf.Some?
    ensures var plan := PlanFor(env, p); Priced(env, i, p) <==> FetchedPrice(env, plan.p, i, plan.day).Some?
  {
    PlanOnFields(env, p);
    DuePlan(env, p);
    var plan := PlanFor(env, p);
    hide PlanFor, Undated, WaitsFor, TargetCleared, PlansOnFields;
    assert exists day :: DueOn(env, p, day);
    if env.fetch(i).Fetched? {
      SameOffers(p, plan.p, env.fetch(i).candles, plan.day, env.asOf.value);
      hide OffersPrice, ScoringPrice;
      assert DueOn(env, p, plan.day);
    }
  }

  lemma SameOffers(p: Prediction, q: Prediction, candles: seq<Candle>, day: int, asOf: int)
    requires q.features == p.features && q.entry == p.entry
    ensures forall price :: OffersPrice(p, candles, day, asOf, price) <==> ScoringPrice(q, candles, day, asOf) == Some(price)
  {
    hide ScoringPrice;
    assert forall price :: OffersPrice(p, candles, day, asOf, price) <==> OffersPrice(q, candles, day, asOf, price);
  }

  lemma ScoredGate(env: RunEnv, i: nat, q: Prediction, price: real)
    requires HasModelInputs(q)
    ensures PassesGate(ScoredRecord(env, i, q, price)) <==> IsLegacy(q) || q.targetStatus.Confirmed?
  {
  }

  predicate EndsIn(fate: Fate) {
    fate.AlreadySettled? || fate.SettledNow?
  }

  lemma FateSettles(l: Learner, env: RunEnv, d: Durable, i: nat)
    requires i < |d.predictions|
    ensures EndsIn(FateOf(l, env, d, i)) <==> EndsSettled(l, env, d, i)
  {
    var p := d.predictions[i];
    AppliedIffInIds(LoadedModel(l, d.model), p.id);
    if !InFlight(p) {
      PlanOnFields(env, p);
      AsksIffDue(env, p);
      AskedIsDue(env, d.predictions, i);
      hide PlanFor, FetchedPrice, ScoredRecord, AskedAmong, DueAmong, Undated, DueOn, Priced, WaitsFor, TargetCleared, PassesGate;
      if IsDue(env, p) {
        PricedIffFetched(env, i, p);
        DuePlan(env, p);
        var plan := PlanFor(env, p);
        var price := FetchedPrice(env, plan.p, i, plan.day);
        if price.Some? {
          ScoredGate(env, i, plan.p, price.value);
        }
      }
    }
  }

  // ----- the four tallies -----

  /** r reports one record of this fate more than s. */
  predicate Counts(s: RunState, r: RunState, fate: Fate) {
    && r.skipped == s.skipped + (if fate.AlreadySettled? then 1 else 0)
    && r.processed == s.processed + (if fate.SettledNow? then 1 else 0)
    && r.calendarPending == s.calendarPending + (if fate.NoDate? then 1 else 0)
    && r.pending == s.pending + (if fate.Waiting? then 1 else 0)
  }

  function WhetherSettled(settles: bool): Fate {
    if settles then SettledNow else Unusable
  }

  lemma UpdateCounts(l: Learner, env: RunEnv, s: RunState, i: nat)
    requires Clean(env) && i < |s.updated| && s.phase.Running?
    ensures Counts(s, UpdateModel(l, env, s, i), WhetherSettled(CanSettle(s.model, s.updated[i])))
  {
    hide Hit, AlreadyApplied, LearnedFrom;
    assert env.modelSave(i).Done? && env.settleCommit(i).Done?;
  }

  lemma RecordCounts(l: Learner, env: RunEnv, s: RunState, i: nat, price: real)
    requires Clean(env) && i < |s.updated| && s.phase.Running? && HasModelInputs(s.updated[i])
    ensures Counts(s, RecordPrice(l, env, s, i, price), WhetherSettled(PassesGate(ScoredRecord(env, i, s.updated[i], price))))
  {
    var p := ScoredRecord(env, i, s.updated[i], price);
    var scored := PriceRecorded(l, s.model.weights, s.updated[i], price, env.operationId(i));
    GateIgnoresCorrect(p, scored);
    assert CanLearn(scored);
    assert env.priceCommit(i).Done?;
    hide UpdateModel, Hit, AlreadyApplied, PriceRecorded, ScoredRecord, PassesGate;
    UpdateCounts(l, env, Committed(s.(updated := s.updated[i := scored]), Done), i);
  }

  /** By plan, what one step of a clean run reports. */
  lemma StepCounts(l: Learner, env: RunEnv, s: RunState, i: nat)
    requires Clean(env) && i < |s.updated| && s.phase.Running?
    ensures var p := s.updated[i];
            Counts(s, Step(l, env, s, i),
                   if IsSettled(p) then AlreadySettled
                   else if AwaitsModel(p) then WhetherSettled(CanSettle(s.model, p))
                   else if PlanFor(env, p).NeedsCalendar? then NoDate
                   else if IsDue(env, p) && s.fetches < env.maxPerRun && FetchedPrice(env, PlanFor(env, p).p, i, PlanFor(env, p).day).Some?
                   then WhetherSettled(PriceAvailable(env, i, p))
                   else Waiting)
  {
    hide UpdateModel, RecordPrice, PlanFor, FetchedPrice, ScoredRecord, CanSettle, PassesGate;
    var p := s.updated[i];
    if IsSettled(p) {
    } else if AwaitsModel(p) {
      UpdateCounts(l, env, s, i);
    } else {
      var plan := PlanFor(env, p);
      assert !env.fetch(i).FetchStopped?;
      if plan.Due? && s.fetches < env.maxPerRun {
        var s1 := s.(updated := s.updated[i := plan.p], dirty := s.dirty || plan.changed, fetches := s.fetches + 1);
        var price := FetchedPrice(env, plan.p, i, plan.day);
        if price.Some? {
          RecordCounts(l, env, s1, i, price.value);
        }
      }
    }
  }

  /** By fields, the same. */
  lemma StepCountsFate(l: Learner, env: RunEnv, d: Durable, s: RunState, i: nat)
    requires Clean(env) && i < |d.predictions| && CleanUpTo(l, env, d, s, i)
    ensures i < |s.updated| && Counts(s, Step(l, env, s, i), FateOf(l, env, d, i))
  {
    var p := d.predictions[i];
    StepCounts(l, env, s, i);
    AppliedIffInIds(LoadedModel(l, d.model), p.id);
    assert s.updated[i] == p && AlreadyApplied(s.model, p.id) == AlreadyApplied(LoadedModel(l, d.model), p.id);
    hide Step, CleanUpTo, Clean, AlreadyApplied;
    if !InFlight(p) {
      PlanOnFields(env, p);
      AskedIsDue(env, d.predictions, i);
      assert s.fetches < env.maxPerRun <==> DueAmong(env, d.predictions, i) < env.maxPerRun by { BudgetLeft(l, env, d, s, i); }
      OpenFate(env, p, i);
      hide PlanFor, FetchedPrice, ScoredRecord, AskedAmong, DueAmong, Undated, DueOn, Priced, WaitsFor, TargetCleared, PassesGate, Counts, PriceAvailable;
    }
  }

  lemma BudgetLeft(l: Learner, env: RunEnv, d: Durable, s: RunState, i: nat)
    requires i < |d.predictions| && CleanUpTo(l, env, d, s, i)
    ensures s.fetches < env.maxPerRun <==> DueAmong(env, d.predictions, i) < env.maxPerRun
  {
    hide InStep, Unreached, DueAmong;
  }

  /** For an open record, priced on fields is priced by plan, and then the gate is on fields. */
  lemma OpenFate(env: RunEnv, p: Prediction, i: nat)
    requires !InFlight(p)
    ensures Priced(env, i, p) ==> IsDue(env, p)
    ensures IsDue(env, p) ==>
              && (Priced(env, i, p) <==> FetchedPrice(env, PlanFor(env, p).p, i, PlanFor(env, p).day).Some?)
              && (PriceAvailable(env, i, p) <==> Priced(env, i, p) && (IsLegacy(p) || p.target.None? || p.targetStatus.Confirmed?))
  {
    AsksIffDue(env, p);
    hide PlanFor, FetchedPrice, ScoredRecord, DueOn, PassesGate;
    if IsDue(env, p) {
      PricedIffFetched(env, i, p);
      DuePlan(env, p);
      var plan := PlanFor(env, p);
      var price := FetchedPrice(env, plan.p, i, plan.day);
      if price.Some? {
        ScoredGate(env, i, plan.p, price.value);
      }
    }
  }

  ghost function NumberOf(l: Learner, env: RunEnv, d: Durable, n: nat, fate: Fate): nat
    requires n <= |d.predictions|
  {
    if n == 0 then 0 else NumberOf(l, env, d, n - 1, fate) + if FateOf(l, env, d, n - 1) == fate then 1 else 0
  }

  ghost predicate Reports(l: Learner, env: RunEnv, d: Durable, s: RunState, n: nat)
    requires n <= |d.predictions|
  {
    && s.skipped == NumberOf(l, env, d, n, AlreadySettled) && s.processed == NumberOf(l, env, d, n, SettledNow)
    && s.calendarPending == NumberOf(l, env, d, n, NoDate) && s.pending == NumberOf(l, env, d, n, Waiting)
  }

  lemma {:induction false} RunUpToReports(l: Learner, env: RunEnv, d: Durable, n: nat)
    requires Clean(env) && DistinctIds(d.predictions) && n <= |d.predictions|
    ensures Reports(l, env, d, RunUpTo(l, env, d, n), n)
  {
    hide Clean, Step, FateOf, CleanUpTo, DistinctIds;
    if n > 0 {
      RunUpToReports(l, env, d, n - 1);
      CleanRunUpTo(l, env, d, n - 1);
      var s := RunUpTo(l, env, d, n - 1);
      assert s.phase.Running? by { StillRunning(l, env, d, s, n - 1); }
      StepCountsFate(l, env, d, s, n - 1);
    }
  }

  lemma StillRunning(l: Learner, env: RunEnv, d: Durable, s: RunState, n: nat)
    requires n <= |d.predictions| && CleanUpTo(l, env, d, s, n)
    ensures s.phase.Running?
  {
  }

  /** In a run in which no call fails every record meets its fate, read off the loaded stores: it is
      settled afterwards exactly if it was or is settled now, and the run reports exactly how many
      records were skipped, processed, without a date and left waiting. */
  lemma CleanRunFates(l: Learner, env: RunEnv, d: Durable)
    requires Clean(env) && DistinctIds(d.predictions)
    ensures var r := Run(l, env, d);
            && r.phase.Running? && |r.durable.predictions| == |d.predictions|
            && (forall i :: 0 <= i < |d.predictions| ==> (IsSettled(r.durable.predictions[i]) <==> EndsIn(FateOf(l, env, d, i))))
            && Reports(l, env, d, r, |d.predictions|)
  {
    assert env.finalCommit.Done?;
    hide EndsSettled, IsSettled, FateOf, EndsIn, Clean, DistinctIds, RunUpTo;
    RunUpToReports(l, env, d, |d.predictions|);
    RunSizeKept(l, env, d);
    CleanRunUpTo(l, env, d, |d.predictions|);
    StillRunning(l, env, d, RunUpTo(l, env, d, |d.predictions|), |d.predictions|);
    forall i | 0 <= i < |d.predictions| ensures IsSettled(Run(l, env, d).durable.predictions[i]) <==> EndsIn(FateOf(l, env, d, i)) {
      CleanRunSettlesExactly(l, env, d, i);
      FateSettles(l, env, d, i);
    }
  }

  lemma RunSizeKept(l: Learner, env: RunEnv, d: Durable)
    ensures |Run(l, env, d).durable.predictions| == |d.predictions|
  {
    RunImages(l, env, d);
  }
}
