/** What the run mutex does not cover: a prediction saved while a scoring run is waiting. The run
    goes on from what it loaded, so its next write of the list drops the saved prediction. */
module InterleavedSave {
  import opened Options
  import opened OnlineLearning
  import opened PredictionRecords
  import opened ScoringRun
  import opened ScoringSafety
  import opened ScoringRecords
  import opened ScoringRecovery
  import opened ScoringTriage
  import opened ScoringFates
  import opened PredictionLifecycle

  /** The same moment of a run, with one more prediction in the store. */
  function Saved(s: RunState, p: Prediction): RunState {
    s.(durable := s.durable.(predictions := s.durable.predictions + [p]))
  }

  function SavedUnless(lost: bool, s: RunState, p: Prediction): RunState {
    if lost then s else Saved(s, p)
  }

  // ----- which parts of a run write the prediction list -----

  predicate UpdateWrites(env: RunEnv, s: RunState, i: nat)
    requires i < |s.updated|
  {
    var p := s.updated[i];
    PassesGate(p) && (AlreadyApplied(s.model, p.id) || (CanLearn(p) && env.modelSave(i).Done?)) && Reaches(env.settleCommit(i))
  }

  predicate ScoreWrites(env: RunEnv, p: Prediction, i: nat, day: int)
    requires env.asOf.Some?
  {
    !env.fetch(i).FetchStopped? && FetchedPrice(env, p, i, day).Some? && Reaches(env.priceCommit(i))
  }

  predicate StepWrites(env: RunEnv, s: RunState, i: nat)
    requires i < |s.updated|
  {
    var p := s.updated[i];
    if IsSettled(p) then false
    else if AwaitsModel(p) then UpdateWrites(env, s, i)
    else
      var plan := PlanFor(env, p);
      plan.Due? && s.fetches < env.maxPerRun && ScoreWrites(env, plan.p, i, plan.day)
  }

  // ----- a save commutes with every part that does not write, and vanishes in one that does -----

  lemma SettleCommutes(env: RunEnv, s: RunState, i: nat, p: Prediction)
    requires i < |s.updated|
    ensures Settle(env, Saved(s, p), i) == SavedUnless(Reaches(env.settleCommit(i)), Settle(env, s, i), p)
  {
  }

  lemma UpdateCommutes(l: Learner, env: RunEnv, s: RunState, i: nat, p: Prediction)
    requires i < |s.updated| && s.phase.Running?
    ensures UpdateModel(l, env, Saved(s, p), i) == SavedUnless(UpdateWrites(env, s, i), UpdateModel(l, env, s, i), p)
  {
    hide Settle, Hit, LearnedFrom, AlreadyApplied, PassesGate;
    SettleCommutes(env, s, i, p);
    var q := s.updated[i];
    if PassesGate(q) && !AlreadyApplied(s.model, q.id) && CanLearn(q) {
      var hit := Hit(l, s.model.weights, q.features.value, Outcome(q));
      var s1 := s.(model := LearnedFrom(l, s.model, q), updated := s.updated[i := q.(correct := Some(hit))]);
      SettleCommutes(env, ModelSaved(s1, env.modelSave(i)), i, p);
      assert ModelSaved(Saved(s1, p), env.modelSave(i)) == Saved(ModelSaved(s1, env.modelSave(i)), p);
    }
  }

  lemma RecordPriceCommutes(l: Learner, env: RunEnv, s: RunState, i: nat, price: real, p: Prediction)
    requires i < |s.updated| && s.phase.Running? && HasModelInputs(s.updated[i])
    ensures RecordPrice(l, env, Saved(s, p), i, price) == SavedUnless(Reaches(env.priceCommit(i)), RecordPrice(l, env, s, i, price), p)
  {
    hide UpdateModel, PriceRecorded;
  }

  lemma ScoreDueCommutes(l: Learner, env: RunEnv, s: RunState, i: nat, day: int, p: Prediction)
    requires i < |s.updated| && s.phase.Running? && env.asOf.Some?
    ensures ScoreDue(l, env, Saved(s, p), i, day) == SavedUnless(ScoreWrites(env, s.updated[i], i, day), ScoreDue(l, env, s, i, day), p)
  {
    hide RecordPrice, FetchedPrice, WithStatus;
    var price := FetchedPrice(env, s.updated[i], i, day);
    if !env.fetch(i).FetchStopped? && price.Some? {
      RecordPriceCommutes(l, env, s.(fetches := s.fetches + 1), i, price.value, p);
    }
  }

  lemma StepCommutes(l: Learner, env: RunEnv, s: RunState, i: nat, p: Prediction)
    requires i < |s.updated| && s.phase.Running?
    ensures Step(l, env, Saved(s, p), i) == SavedUnless(StepWrites(env, s, i), Step(l, env, s, i), p)
  {
    hide UpdateModel, UpdateWrites, ScoreDue, ScoreWrites, PlanFor;
    var q := s.updated[i];
    if !IsSettled(q) && AwaitsModel(q) {
      UpdateCommutes(l, env, s, i, p);
    } else if !IsSettled(q) {
      var plan := PlanFor(env, q);
      if plan.Due? && s.fetches < env.maxPerRun {
        ScoreDueCommutes(l, env, s.(updated := s.updated[i := plan.p], dirty := s.dirty || plan.changed), i, plan.day, p);
      }
    }
  }

  // ----- the rest of a run -----

  function Next(l: Learner, env: RunEnv, s: RunState, i: nat): (r: RunState)
    requires i < |s.updated|
    ensures |r.updated| == |s.updated|
  {
    if s.phase.Running? then Step(l, env, s, i) else s
  }

  /** The run from record i on, and its closing commit. */
  function RunFrom(l: Learner, env: RunEnv, s: RunState, i: nat): RunState
    requires i <= |s.updated|
    decreases |s.updated| - i
  {
    if i < |s.updated| then RunFrom(l, env, Next(l, env, s, i), i + 1)
    else if s.phase.Running? && s.dirty then Committed(s, env.finalCommit)
    else s
  }

  /** Whether any write of the list from record i on reaches the store. */
  predicate WritesFrom(l: Learner, env: RunEnv, s: RunState, i: nat)
    requires i <= |s.updated|
    decreases |s.updated| - i
  {
    s.phase.Running?
    && if i < |s.updated| then StepWrites(env, s, i) || WritesFrom(l, env, Step(l, env, s, i), i + 1)
       else s.dirty && Reaches(env.finalCommit)
  }

  lemma {:induction false} RunFromIsRun(l: Learner, env: RunEnv, d: Durable, n: nat)
    requires n <= |d.predictions|
    ensures RunFrom(l, env, RunUpTo(l, env, d, n), n) == Run(l, env, d)
    decreases |d.predictions| - n
  {
    hide Step, Committed;
    if n < |d.predictions| {
      RunFromIsRun(l, env, d, n + 1);
    }
  }

  lemma {:induction false} StoppedStays(l: Learner, env: RunEnv, s: RunState, i: nat)
    requires i <= |s.updated| && !s.phase.Running?
    ensures RunFrom(l, env, s, i) == s
    decreases |s.updated| - i
  {
    hide Step;
    if i < |s.updated| {
      StoppedStays(l, env, s, i + 1);
    }
  }

  lemma {:induction false} RunFromCommutes(l: Learner, env: RunEnv, s: RunState, i: nat, p: Prediction)
    requires i <= |s.updated|
    ensures RunFrom(l, env, Saved(s, p), i) == SavedUnless(WritesFrom(l, env, s, i), RunFrom(l, env, s, i), p)
    decreases |s.updated| - i
  {
    hide Step, StepWrites;
    if !s.phase.Running? {
      StoppedStays(l, env, s, i);
      StoppedStays(l, env, Saved(s, p), i);
    } else if i < |s.updated| {
      StepCommutes(l, env, s, i, p);
      RunFromCommutes(l, env, Step(l, env, s, i), i + 1, p);
    }
  }

  // ----- a save at any await of a run -----

  /** Where the run waits: before or in the candle fetch of a record, where everything the run
      does until its next store call is in memory; with the record's price committed; or with
      the model saved. The EVALUATED commit of a record ends where the next record begins. */
  datatype Await = AtRecord(n: nat) | PriceCommitted(n: nat) | ModelIsSaved(n: nat)

  /** The state of a live run that has just committed the price of record n, if it gets there. */
  function PriceState(l: Learner, env: RunEnv, d: Durable, n: nat): (r: Option<RunState>)
    requires n < |d.predictions|
    ensures r.Some? ==> n < |r.value.updated| && r.value.phase.Running?
  {
    var s := RunUpTo(l, env, d, n);
    var p := s.updated[n];
    if !s.phase.Running? || InFlight(p) then None
    else
      var plan := PlanFor(env, p);
      if !plan.Due? || s.fetches >= env.maxPerRun || env.fetch(n).FetchStopped? then None
      else
        var price := FetchedPrice(env, plan.p, n, plan.day);
        if price.None? || !env.priceCommit(n).Done? then None
        else
          var scored := PriceRecorded(l, s.model.weights, plan.p, price.value, env.operationId(n));
          Some(Committed(s.(updated := s.updated[n := scored], dirty := s.dirty || plan.changed, fetches := s.fetches + 1), Done))
  }

  /** The state in which record n enters the model step. */
  function UpdateState(l: Learner, env: RunEnv, d: Durable, n: nat): (r: Option<RunState>)
    requires n < |d.predictions|
    ensures r.Some? ==> n < |r.value.updated| && r.value.phase.Running?
  {
    var s := RunUpTo(l, env, d, n);
    if s.phase.Running? && !IsSettled(s.updated[n]) && AwaitsModel(s.updated[n]) then Some(s)
    else PriceState(l, env, d, n)
  }

  function ModelState(l: Learner, env: RunEnv, d: Durable, n: nat): (r: Option<RunState>)
    requires n < |d.predictions|
    ensures r.Some? ==> n < |r.value.updated| && r.value.phase.Running?
  {
    match UpdateState(l, env, d, n)
    case None => None
    case Some(s) =>
      var p := s.updated[n];
      if !PassesGate(p) || AlreadyApplied(s.model, p.id) || !CanLearn(p) || !env.modelSave(n).Done? then None
      else
        var hit := Hit(l, s.model.weights, p.features.value, Outcome(p));
        Some(ModelSaved(s.(model := LearnedFrom(l, s.model, p), updated := s.updated[n := p.(correct := Some(hit))]), Done))
  }

  predicate AwaitOf(d: Durable, a: Await) {
    if a.AtRecord? then a.n <= |d.predictions| else a.n < |d.predictions|
  }

  /** The state of the run at an await, if it ever waits there. */
  function At(l: Learner, env: RunEnv, d: Durable, a: Await): Option<RunState>
    requires AwaitOf(d, a)
  {
    match a
    case AtRecord(n) => if RunUpTo(l, env, d, n).phase.Running? then Some(RunUpTo(l, env, d, n)) else None
    case PriceCommitted(n) => PriceState(l, env, d, n)
    case ModelIsSaved(n) => ModelState(l, env, d, n)
  }

  predicate Resumable(s: RunState, a: Await) {
    if a.AtRecord? then a.n <= |s.updated| else a.n < |s.updated|
  }

  /** What the run does from an await to its end. */
  function Resumed(l: Learner, env: RunEnv, s: RunState, a: Await): RunState
    requires Resumable(s, a)
  {
    match a
    case AtRecord(n) => RunFrom(l, env, s, n)
    case PriceCommitted(n) => RunFrom(l, env, UpdateModel(l, env, s, n), n + 1)
    case ModelIsSaved(n) => RunFrom(l, env, Settle(env, s, n), n + 1)
  }

  /** Whether the run writes the list again after the await, and the write reaches the store. */
  predicate WritesAfter(l: Learner, env: RunEnv, s: RunState, a: Await)
    requires Resumable(s, a)
  {
    match a
    case AtRecord(n) => WritesFrom(l, env, s, n)
    case PriceCommitted(n) => UpdateWrites(env, s, n) || WritesFrom(l, env, UpdateModel(l, env, s, n), n + 1)
    case ModelIsSaved(n) => Reaches(env.settleCommit(n)) || WritesFrom(l, env, Settle(env, s, n), n + 1)
  }

  lemma PricePausesStep(l: Learner, env: RunEnv, d: Durable, n: nat)
    requires n < |d.predictions| && PriceState(l, env, d, n).Some?
    ensures Step(l, env, RunUpTo(l, env, d, n), n) == UpdateModel(l, env, PriceState(l, env, d, n).value, n)
  {
    hide UpdateModel, PlanFor, FetchedPrice, PriceRecorded;
    var s := RunUpTo(l, env, d, n);
    var plan := PlanFor(env, s.updated[n]);
    var scored := PriceRecorded(l, s.model.weights, plan.p, FetchedPrice(env, plan.p, n, plan.day).value, env.operationId(n));
    assert s.updated[n := plan.p][n := scored] == s.updated[n := scored];
  }

  lemma UpdatePausesStep(l: Learner, env: RunEnv, d: Durable, n: nat)
    requires n < |d.predictions| && UpdateState(l, env, d, n).Some?
    ensures RunUpTo(l, env, d, n).phase.Running?
    ensures Step(l, env, RunUpTo(l, env, d, n), n) == UpdateModel(l, env, UpdateState(l, env, d, n).value, n)
  {
    hide UpdateModel, PlanFor, FetchedPrice, PriceRecorded;
    if PriceState(l, env, d, n).Some? {
      PricePausesStep(l, env, d, n);
    }
  }

  lemma ModelPausesUpdate(l: Learner, env: RunEnv, d: Durable, n: nat)
    requires n < |d.predictions| && ModelState(l, env, d, n).Some?
    ensures UpdateState(l, env, d, n).Some?
    ensures UpdateModel(l, env, UpdateState(l, env, d, n).value, n) == Settle(env, ModelState(l, env, d, n).value, n)
  {
    hide Settle, Hit, LearnedFrom, AlreadyApplied, PassesGate, UpdateState;
  }

  /** Left alone, the run at an await goes on to the end of the run. */
  lemma ResumedIsRun(l: Learner, env: RunEnv, d: Durable, a: Await)
    requires AwaitOf(d, a) && At(l, env, d, a).Some?
    ensures Resumable(At(l, env, d, a).value, a)
    ensures At(l, env, d, a).value.phase.Running?
    ensures Resumed(l, env, At(l, env, d, a).value, a) == Run(l, env, d)
  {
    hide Step, UpdateModel, Settle, Run, RunFrom, PriceState, UpdateState, ModelState;
    if a.AtRecord? {
      RunFromIsRun(l, env, d, a.n);
    } else {
      RunFromIsRun(l, env, d, a.n + 1);
      if a.ModelIsSaved? {
        ModelPausesUpdate(l, env, d, a.n);
      } else {
        PriceIsUpdateState(l, env, d, a.n);
      }
      UpdatePausesStep(l, env, d, a.n);
    }
  }

  lemma PriceIsUpdateState(l: Learner, env: RunEnv, d: Durable, n: nat)
    requires n < |d.predictions| && PriceState(l, env, d, n).Some?
    ensures UpdateState(l, env, d, n) == PriceState(l, env, d, n)
  {
    hide PlanFor, FetchedPrice, PriceRecorded;
  }

  lemma ResumedCommutes(l: Learner, env: RunEnv, s: RunState, a: Await, p: Prediction)
    requires Resumable(s, a) && s.phase.Running?
    ensures Resumed(l, env, Saved(s, p), a) == SavedUnless(WritesAfter(l, env, s, a), Resumed(l, env, s, a), p)
  {
    hide UpdateModel, Settle, RunFrom, WritesFrom, UpdateWrites;
    match a
    case AtRecord(n) => RunFromCommutes(l, env, s, n, p);
    case PriceCommitted(n) =>
      UpdateCommutes(l, env, s, n, p);
      RunFromCommutes(l, env, UpdateModel(l, env, s, n), n + 1, p);
    case ModelIsSaved(n) =>
      SettleCommutes(env, s, n, p);
      RunFromCommutes(l, env, Settle(env, s, n), n + 1, p);
  }

  /** A prediction saved while the run waits survives the run if and only if none of the run's
      remaining writes of the list reaches the store; otherwise the run ends exactly as if the
      prediction had never been saved. */
  lemma InterleavedSaveSurvivesIff(l: Learner, env: RunEnv, d: Durable, a: Await, p: Prediction)
    requires AwaitOf(d, a) && At(l, env, d, a).Some?
    requires forall j :: 0 <= j < |d.predictions| ==> d.predictions[j].id != p.id
    ensures var s := At(l, env, d, a).value;
            && Resumable(s, a)
            && var r := Resumed(l, env, Saved(s, p), a);
               && (p in r.durable.predictions <==> !WritesAfter(l, env, s, a))
               && (WritesAfter(l, env, s, a) ==> r == Run(l, env, d))
               && (!WritesAfter(l, env, s, a) ==> r == Saved(Run(l, env, d), p))
  {
    hide At, Resumed, WritesAfter, Run, Evolves, WellFormed;
    var s := At(l, env, d, a).value;
    ResumedIsRun(l, env, d, a);
    ResumedCommutes(l, env, s, a, p);
    var final := Run(l, env, d).durable.predictions;
    forall j | 0 <= j < |final| ensures final[j].id != p.id {
      RunSize(l, env, d);
      RunKeepsId(l, env, d, j);
    }
  }

  lemma RunKeepsId(l: Learner, env: RunEnv, d: Durable, j: nat)
    requires j < |d.predictions|
    ensures |Run(l, env, d).durable.predictions| == |d.predictions|
    ensures Run(l, env, d).durable.predictions[j].id == d.predictions[j].id
  {
    hide Run, WellFormed, FairPrice;
    RunEvolves(l, env, d, j);
  }

  // ----- runs in which no call fails: the condition on what was loaded -----

  predicate InBudget(env: RunEnv, d: Durable, j: nat)
    requires j < |d.predictions|
  {
    IsDue(env, d.predictions[j]) && DueAmong(env, d.predictions, j) < env.maxPerRun
  }

  function PriceOf(env: RunEnv, d: Durable, j: nat): Option<real>
    requires j < |d.predictions| && IsDue(env, d.predictions[j])
  {
    var plan := PlanFor(env, d.predictions[j]);
    FetchedPrice(env, plan.p, j, plan.day)
  }

  /** The run settles loaded record j or records its price. */
  predicate WritesOn(l: Learner, env: RunEnv, d: Durable, j: nat)
    requires j < |d.predictions|
  {
    var p := d.predictions[j];
    if IsSettled(p) then false
    else if AwaitsModel(p) then CanSettle(LoadedModel(l, d.model), p)
    else InBudget(env, d, j) && PriceOf(env, d, j).Some?
  }

  /** On the loaded stores: the run writes for record j exactly when it settles it, or records a
      price nothing can be learnt from. */
  lemma WritesOnFields(l: Learner, env: RunEnv, d: Durable, j: nat)
    requires j < |d.predictions|
    ensures WritesOn(l, env, d, j) <==>
              FateOf(l, env, d, j).SettledNow? || (FateOf(l, env, d, j).Unusable? && !AwaitsModel(d.predictions[j]))
  {
    var p := d.predictions[j];
    AppliedIffInIds(LoadedModel(l, d.model), p.id);
    if !InFlight(p) {
      AsksIffDue(env, p);
      AskedIsDue(env, d.predictions, j);
      PlanOnFields(env, p);
      hide PlanFor, FetchedPrice, AskedAmong, DueAmong, Undated, DueOn, Priced, WaitsFor, TargetCleared;
      if IsDue(env, p) {
        PricedIffFetched(env, j, p);
      }
    }
  }

  /** The run notes a change of loaded record j for its closing commit. */
  predicate NotesOn(env: RunEnv, d: Durable, j: nat)
    requires j < |d.predictions|
  {
    var p := d.predictions[j];
    !InFlight(p) &&
    var plan := PlanFor(env, p);
    plan.changed || (InBudget(env, d, j) && PriceOf(env, d, j).None? && WithStatus(plan.p, Pending) != plan.p)
  }

  lemma CleanStepWrites(l: Learner, env: RunEnv, d: Durable, s: RunState, j: nat)
    requires Clean(env) && j < |d.predictions| && CleanUpTo(l, env, d, s, j)
    ensures StepWrites(env, s, j) == WritesOn(l, env, d, j)
  {
    hide PlanFor, FetchedPrice, PassesGate, CanLearn, AlreadyApplied, EndsSettled, DueAmong, InStep, IsDue, Unreached;
    assert s.updated[j] == d.predictions[j] && AlreadyApplied(s.model, d.predictions[j].id) == AlreadyApplied(LoadedModel(l, d.model), d.predictions[j].id) by {
      UnreachedAt(l, d, s, j);
    }
    CleanOutcomes(env, j);
    DueRecord(env, d.predictions[j]);
  }

  lemma UnreachedAt(l: Learner, d: Durable, s: RunState, j: nat)
    requires j < |d.predictions| && Unreached(l, d, s, j)
    ensures |s.updated| == |d.predictions| && s.updated[j] == d.predictions[j]
    ensures AlreadyApplied(s.model, d.predictions[j].id) == AlreadyApplied(LoadedModel(l, d.model), d.predictions[j].id)
  {
  }

  lemma CleanOutcomes(env: RunEnv, j: nat)
    requires Clean(env)
    ensures env.priceCommit(j).Done? && env.modelSave(j).Done? && env.settleCommit(j).Done? && !env.fetch(j).FetchStopped?
  {
  }

  lemma DueRecord(env: RunEnv, p: Prediction)
    ensures IsDue(env, p) <==> !InFlight(p) && PlanFor(env, p).Due?
  {
  }

  lemma UpdateNotesNothing(l: Learner, env: RunEnv, s: RunState, i: nat)
    requires i < |s.updated|
    ensures UpdateModel(l, env, s, i).dirty == s.dirty
  {
    hide Hit, AlreadyApplied, LearnedFrom;
  }

  lemma RecordPriceNotesNothing(l: Learner, env: RunEnv, s: RunState, i: nat, price: real)
    requires i < |s.updated| && HasModelInputs(s.updated[i])
    ensures RecordPrice(l, env, s, i, price).dirty == s.dirty
  {
    hide UpdateModel, PriceRecorded;
    var scored := PriceRecorded(l, s.model.weights, s.updated[i], price, env.operationId(i));
    UpdateNotesNothing(l, env, Committed(s.(updated := s.updated[i := scored]), env.priceCommit(i)), i);
  }

  lemma CleanStepNotes(l: Learner, env: RunEnv, d: Durable, s: RunState, j: nat)
    requires Clean(env) && j < |d.predictions| && CleanUpTo(l, env, d, s, j)
    ensures j < |s.updated| && Step(l, env, s, j).dirty == (s.dirty || NotesOn(env, d, j))
  {
    UnreachedAt(l, d, s, j);
    CleanOutcomes(env, j);
    DueRecord(env, d.predictions[j]);
    hide UpdateModel, RecordPrice, PlanFor, FetchedPrice, IsDue, DueAmong, Clean, EndsSettled, Unreached, InStep, AlreadyApplied;
    var p := s.updated[j];
    if IsSettled(p) {
    } else if AwaitsModel(p) {
      UpdateNotesNothing(l, env, s, j);
    } else {
      var plan := PlanFor(env, p);
      if InBudget(env, d, j) {
        var s1 := s.(updated := s.updated[j := plan.p], dirty := s.dirty || plan.changed, fetches := s.fetches + 1);
        var price := FetchedPrice(env, plan.p, j, plan.day);
        if price.Some? {
          RecordPriceNotesNothing(l, env, s1, j, price.value);
        }
      }
    }
  }

  ghost predicate NotesAmong(env: RunEnv, d: Durable, n: nat)
    requires n <= |d.predictions|
  {
    exists j: nat :: j < n && NotesOn(env, d, j)
  }

  lemma {:induction false} CleanNotes(l: Learner, env: RunEnv, d: Durable, n: nat)
    requires Clean(env) && DistinctIds(d.predictions) && n <= |d.predictions|
    ensures RunUpTo(l, env, d, n).dirty <==> NotesAmong(env, d, n)
  {
    hide Step, NotesOn, Clean, CleanUpTo, DistinctIds;
    if n > 0 {
      CleanNotes(l, env, d, n - 1);
      CleanRunUpTo(l, env, d, n - 1);
      CleanRunning(l, env, d, n - 1);
      CleanStepNotes(l, env, d, RunUpTo(l, env, d, n - 1), n - 1);
    }
  }

  lemma CleanRunning(l: Learner, env: RunEnv, d: Durable, n: nat)
    requires n <= |d.predictions| && CleanUpTo(l, env, d, RunUpTo(l, env, d, n), n)
    ensures RunUpTo(l, env, d, n).phase.Running?
  {
    hide RunUpTo;
  }

  ghost predicate WritesAmong(l: Learner, env: RunEnv, d: Durable, n: nat) {
    exists j: nat :: n <= j < |d.predictions| && WritesOn(l, env, d, j)
  }

  lemma {:induction false} CleanWritesFrom(l: Learner, env: RunEnv, d: Durable, n: nat)
    requires Clean(env) && DistinctIds(d.predictions) && n <= |d.predictions|
    ensures WritesFrom(l, env, RunUpTo(l, env, d, n), n) <==> WritesAmong(l, env, d, n) || NotesAmong(env, d, |d.predictions|)
    decreases |d.predictions| - n
  {
    hide Step, StepWrites, WritesOn, NotesAmong, CleanUpTo, DistinctIds, Clean;
    CleanRunUpTo(l, env, d, n);
    CleanRunning(l, env, d, n);
    if n == |d.predictions| {
      CleanNotes(l, env, d, n);
      assert env.finalCommit.Done? by { CleanClosing(env); }
    } else {
      CleanStepWrites(l, env, d, RunUpTo(l, env, d, n), n);
      CleanWritesFrom(l, env, d, n + 1);
    }
  }

  lemma CleanClosing(env: RunEnv)
    requires Clean(env)
    ensures env.finalCommit.Done?
  {
  }

  /** The record whose price was committed can never be learnt from, as its target is unconfirmed. */
  predicate PriceUnusable(env: RunEnv, d: Durable, n: nat)
    requires n < |d.predictions| && IsDue(env, d.predictions[n])
  {
    var plan := PlanFor(env, d.predictions[n]);
    PriceOf(env, d, n).Some? && !PassesGate(ScoredRecord(env, n, plan.p, PriceOf(env, d, n).value))
  }

  /** By the loaded stores, the run writes nothing more to the list after the await. */
  ghost predicate QuietAfter(l: Learner, env: RunEnv, d: Durable, a: Await)
    requires AwaitOf(d, a)
  {
    match a
    case AtRecord(n) => !WritesAmong(l, env, d, n) && !NotesAmong(env, d, |d.predictions|)
    case PriceCommitted(n) =>
      IsDue(env, d.predictions[n]) && PriceUnusable(env, d, n)
      && !WritesAmong(l, env, d, n + 1) && !NotesAmong(env, d, |d.predictions|)
    case ModelIsSaved(n) => false
  }

  lemma CleanPriceWrites(l: Learner, env: RunEnv, d: Durable, n: nat)
    requires Clean(env) && DistinctIds(d.predictions) && n < |d.predictions| && PriceState(l, env, d, n).Some?
    ensures IsDue(env, d.predictions[n])
    ensures UpdateWrites(env, PriceState(l, env, d, n).value, n) <==> !PriceUnusable(env, d, n)
  {
    hide PlanFor, FetchedPrice, Hit, AlreadyApplied, EndsSettled, DueAmong, InStep, CleanUpTo, DistinctIds, RunUpTo, WithStatus, HasModelInputs;
    CleanOutcomes(env, n);
    CleanRunUpTo(l, env, d, n);
    CleanUnreached(l, env, d, n);
    DueRecord(env, d.predictions[n]);
    var s := RunUpTo(l, env, d, n);
    var plan := PlanFor(env, d.predictions[n]);
    var price := FetchedPrice(env, plan.p, n, plan.day);
    ScoredCanLearn(l, env, s, n, plan.p, price.value);
  }

  lemma CleanUnreached(l: Learner, env: RunEnv, d: Durable, n: nat)
    requires n < |d.predictions| && CleanUpTo(l, env, d, RunUpTo(l, env, d, n), n)
    ensures RunUpTo(l, env, d, n).updated[n] == d.predictions[n]
  {
    hide RunUpTo;
  }

  lemma ScoredCanLearn(l: Learner, env: RunEnv, s: RunState, n: nat, p: Prediction, price: real)
    requires HasModelInputs(p)
    ensures var scored := PriceRecorded(l, s.model.weights, p, price, env.operationId(n));
            CanLearn(scored) && PassesGate(scored) == PassesGate(ScoredRecord(env, n, p, price))
  {
    hide Hit;
  }

  lemma CleanWritesAfter(l: Learner, env: RunEnv, d: Durable, a: Await)
    requires Clean(env) && DistinctIds(d.predictions) && AwaitOf(d, a) && At(l, env, d, a).Some?
    ensures Resumable(At(l, env, d, a).value, a)
    ensures WritesAfter(l, env, At(l, env, d, a).value, a) <==> !QuietAfter(l, env, d, a)
  {
    hide WritesFrom, RunUpTo, Step, UpdateModel, UpdateWrites, WritesOn, NotesAmong, PriceUnusable, DistinctIds, PriceState, Settle, ModelState;
    match a
    case AtRecord(n) => CleanWritesFrom(l, env, d, n);
    case PriceCommitted(n) =>
      CleanPriceWrites(l, env, d, n);
      PriceIsUpdateState(l, env, d, n);
      UpdatePausesStep(l, env, d, n);
      RunAdvances(l, env, d, n);
      CleanWritesFrom(l, env, d, n + 1);
    case ModelIsSaved(n) => CleanOutcomes(env, n);
  }

  lemma RunAdvances(l: Learner, env: RunEnv, d: Durable, n: nat)
    requires n < |d.predictions| && RunUpTo(l, env, d, n).phase.Running?
    ensures RunUpTo(l, env, d, n + 1) == Step(l, env, RunUpTo(l, env, d, n), n)
  {
    hide Step;
  }

  /** In a run in which no call fails, a prediction saved at an await survives if and only if, by the
      loaded stores, the run has nothing more to write: no record from there on is settled or priced
      and no record at all is noted as changed. After a model save it is always lost, and after a
      price commit unless the price just committed can never be learnt from. */
  lemma CleanSaveSurvivesIff(l: Learner, env: RunEnv, d: Durable, a: Await, p: Prediction)
    requires Clean(env) && DistinctIds(d.predictions) && AwaitOf(d, a) && At(l, env, d, a).Some?
    requires forall j :: 0 <= j < |d.predictions| ==> d.predictions[j].id != p.id
    ensures Resumable(At(l, env, d, a).value, a)
    ensures p in Resumed(l, env, Saved(At(l, env, d, a).value, p), a).durable.predictions <==> QuietAfter(l, env, d, a)
  {
    hide At, Resumed, WritesAfter, QuietAfter, Clean, DistinctIds, Run;
    CleanWritesAfter(l, env, d, a);
    InterleavedSaveSurvivesIff(l, env, d, a, p);
  }

  /** A clean run reaches every record: it waits there. */
  lemma CleanRunWaits(l: Learner, env: RunEnv, d: Durable, n: nat)
    requires Clean(env) && DistinctIds(d.predictions) && n <= |d.predictions|
    ensures At(l, env, d, AtRecord(n)) == Some(RunUpTo(l, env, d, n))
  {
    hide CleanUpTo, RunUpTo, DistinctIds;
    CleanRunUpTo(l, env, d, n);
    CleanRunning(l, env, d, n);
  }

  // ----- a run that loses a prediction -----

  /** The calendar answers every question with a target five days later. */
  function FiveDays(base: StoredDate): CalendarAnswer {
    CalendarAnswer(true, Some(if base.Known? then Known(base.day + 5) else Known(5)), Confirmed, NoCode, [])
  }

  const PLAIN_CALENDAR := Calendar(false, _ => true, FiveDays, (base, n) => FiveDays(base))

  /** A prediction for `symbol` on day 0, made on a final candle at price 100. */
  function RequestFor(symbol: string): Request {
    Request(symbol, Some(100.0), [("bias", 1.0)], Some(0), Some(0), Some(CandleFlags(Some(true), UnknownSession)), None,
            LEGACY_HORIZON, None, "m1", "f1")
  }

  /** A run on day 9 in which nothing fails and the target candle is found. */
  const SMOOTH_RUN := RunEnv(Some(9), 10, PLAIN_CALENDAR, _ => Fetched([Candle(Some(5), Some(true), Closed, Some(110.0))]),
                             _ => Done, _ => Done, _ => Done, Done, _ => "op")

  /** From empty stores: one prediction, then a run in which nothing fails, and a second prediction
      saved while the run fetches candles. The run scores the first and loses the second. */
  lemma ASaveIsLost(l: Learner)
    ensures var d := Execute(l, EMPTY, [NewPrediction(PLAIN_CALENDAR, RequestFor("A"), "a", true)]);
            var p := Draft(PLAIN_CALENDAR, RequestFor("B"), "b");
            && History(l, EMPTY, [NewPrediction(PLAIN_CALENDAR, RequestFor("A"), "a", true)])
            && |d.predictions| == 1 && Clean(SMOOTH_RUN) && HonestCalendar(PLAIN_CALENDAR)
            && Predicted(PLAIN_CALENDAR, d.predictions, RequestFor("B"), "b") == Some(p)
            && p !in Resumed(l, SMOOTH_RUN, Saved(RunUpTo(l, SMOOTH_RUN, d, 0), p), AtRecord(0)).durable.predictions
  {
    var first := NewPrediction(PLAIN_CALENDAR, RequestFor("A"), "a", true);
    var a, p := Draft(PLAIN_CALENDAR, RequestFor("A"), "a"), Draft(PLAIN_CALENDAR, RequestFor("B"), "b");
    var d := Durable([a], None);
    assert [first][..0] == [];
    assert Execute(l, EMPTY, []) == EMPTY;
    assert Predicted(PLAIN_CALENDAR, [], RequestFor("A"), "a") == Some(a);
    assert Execute(l, EMPTY, [first]) == After(l, EMPTY, first) == d;
    var plan := PlanFor(SMOOTH_RUN, a);
    assert plan.Due? && plan.day == 5;
    assert TargetCandle(SMOOTH_RUN.fetch(0).candles, 5).Some?;
    assert DueAmong(SMOOTH_RUN, d.predictions, 0) == 0;
    assert WritesOn(l, SMOOTH_RUN, d, 0);
    CleanRunWaits(l, SMOOTH_RUN, d, 0);
    CleanSaveSurvivesIff(l, SMOOTH_RUN, d, AtRecord(0), p);
  }
}
