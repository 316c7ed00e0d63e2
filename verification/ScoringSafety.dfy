/** Exactly-once learning and write ordering of a scoring run, for every outcome of every
    store call and for a stop at any of them. */
module ScoringSafety {
  import opened Options
  import opened OnlineLearning
  import opened PredictionRecords
  import opened ScoringRun

  ghost predicate DistinctIds(preds: seq<Prediction>) {
    forall i, j :: 0 <= i < j < |preds| ==> preds[i].id != preds[j].id
  }

  ghost predicate NoRepeats(ids: seq<string>) {
    forall i, j :: 0 <= i < j < |ids| ==> ids[i] != ids[j]
  }

  /** Price recorded and never to be recorded again. */
  predicate InFlight(p: Prediction) {
    IsSettled(p) || AwaitsModel(p)
  }

  /** The stored record carries the features and the committed price this log entry learnt from. */
  ghost predicate Backs(p: Prediction, e: LogEntry) {
    && e.source == Some(p.id)
    && InFlight(p)
    && p.features.Some? && p.entry.Some? && p.entry.value > 0.0 && p.targetClose.Some?
    && e.sample.features == p.features.value
    && (e.sample.up <==> p.targetClose.value > p.entry.value)
  }

  ghost predicate Grounded(preds: seq<Prediction>, log: seq<LogEntry>) {
    forall k :: 0 <= k < |log| && log[k].source.Some? ==> exists j :: 0 <= j < |preds| && Backs(preds[j], log[k])
  }

  /** The two stores agree. `exempt` holds ids settled before the applied list existed. */
  ghost predicate Consistent(l: Learner, exempt: set<string>, preds: seq<Prediction>, m: Model, log: seq<LogEntry>) {
    && DistinctIds(preds)
    && Explains(l, m, log)
    && NoRepeats(PredictionIds(log))
    && Grounded(preds, log)
    && forall i :: 0 <= i < |preds| && IsSettled(preds[i]) ==>
         preds[i].id in PredictionIds(log) || preds[i].id in exempt
  }

  ghost predicate ConsistentStores(l: Learner, exempt: set<string>, d: Durable, log: seq<LogEntry>) {
    Consistent(l, exempt, d.predictions, LoadedModel(l, d.model), log)
  }

  // ----- how one edit keeps the agreement -----

  /** A record may be replaced when its identity stays, a recorded price stays, and it only
      becomes settled if its id is already applied. */
  predicate SafeEdit(p: Prediction, q: Prediction) {
    && q.id == p.id
    && (InFlight(p) ==> InFlight(q) && q.features == p.features && q.entry == p.entry && q.targetClose == p.targetClose)
  }

  lemma ReplaceKeepsConsistent(l: Learner, exempt: set<string>, preds: seq<Prediction>, m: Model,
                               log: seq<LogEntry>, i: nat, q: Prediction)
    requires i < |preds| && Consistent(l, exempt, preds, m, log)
    requires SafeEdit(preds[i], q)
    requires IsSettled(q) ==> q.id in PredictionIds(log) || q.id in exempt
    ensures Consistent(l, exempt, preds[i := q], m, log)
  {
    var preds' := preds[i := q];
    forall k | 0 <= k < |log| && log[k].source.Some?
      ensures exists j :: 0 <= j < |preds'| && Backs(preds'[j], log[k])
    {
      var j :| 0 <= j < |preds| && Backs(preds[j], log[k]);
      assert Backs(preds'[j], log[k]);
    }
  }

  lemma LearningKeepsConsistent(l: Learner, exempt: set<string>, preds: seq<Prediction>, m: Model,
                                log: seq<LogEntry>, i: nat, p: Prediction)
    requires i < |preds| && Consistent(l, exempt, preds, m, log)
    requires CanLearn(p) && !AlreadyApplied(m, p.id)
    requires Backs(preds[i], Scored(p.id, p.features.value, Outcome(p)))
    ensures var log' := log + [Scored(p.id, p.features.value, Outcome(p))];
            && Consistent(l, exempt, preds, LearnedFrom(l, m, p), log')
            && p.id in PredictionIds(log')
  {
    var e := Scored(p.id, p.features.value, Outcome(p));
    LearnedExplained(l, m, log, p.id, p.operationId, p.features.value, Outcome(p));
    AppliedIffInIds(m, p.id);
    var log' := log + [e];
    forall k | 0 <= k < |log'| && log'[k].source.Some?
      ensures exists j :: 0 <= j < |preds| && Backs(preds[j], log'[k])
    {
      if k == |log| {
        assert Backs(preds[i], log'[k]);
      } else {
        assert log'[k] == log[k];
      }
    }
    assert PredictionIds(log')[|PredictionIds(log)|] == p.id;
  }

  // ----- the invariant of a run -----

  /** The stores agree; while the run is alive its memory agrees too, has the stored model,
      and equals the store on the records it has not reached. */
  ghost predicate RunInvariant(l: Learner, exempt: set<string>, s: RunState, n: nat, log: seq<LogEntry>) {
    && |s.updated| == |s.durable.predictions|
    && ConsistentStores(l, exempt, s.durable, log)
    && (s.phase.Running? ==>
          && s.model == LoadedModel(l, s.durable.model)
          && Consistent(l, exempt, s.updated, s.model, log)
          && forall j :: n <= j < |s.updated| ==> s.updated[j] == s.durable.predictions[j])
  }

  /** Committing memory is always safe: memory agrees with the stored model. */
  lemma CommitKeepsInvariant(l: Learner, exempt: set<string>, s: RunState, n: nat, log: seq<LogEntry>, outcome: CallOutcome)
    requires s.phase.Running? && RunInvariant(l, exempt, s, n, log)
    ensures RunInvariant(l, exempt, Committed(s, outcome), n, log)
  {
  }

  lemma EditKeepsInvariant(l: Learner, exempt: set<string>, s: RunState, i: nat, log: seq<LogEntry>, q: Prediction)
    requires i < |s.updated| && s.phase.Running? && SafeEdit(s.updated[i], q)
    requires RunInvariant(l, exempt, s, i, log) || RunInvariant(l, exempt, s, i + 1, log)
    requires IsSettled(q) ==> q.id in PredictionIds(log) || q.id in exempt
    ensures RunInvariant(l, exempt, s.(updated := s.updated[i := q]), i + 1, log)
  {
    ReplaceKeepsConsistent(l, exempt, s.updated, s.model, log, i, q);
  }

  lemma SettleKeepsInvariant(l: Learner, exempt: set<string>, env: RunEnv, s: RunState, i: nat, log: seq<LogEntry>)
    requires i < |s.updated| && s.phase.Running? && RunInvariant(l, exempt, s, i + 1, log)
    requires InFlight(s.updated[i]) && !IsSettled(s.updated[i])
    requires s.updated[i].id in PredictionIds(log)
    ensures RunInvariant(l, exempt, Settle(env, s, i), i + 1, log)
  {
    var p := s.updated[i];
    var s1 := s.(updated := s.updated[i := Settled(p)]);
    EditKeepsInvariant(l, exempt, s, i, log, Settled(p));
    CommitKeepsInvariant(l, exempt, s1, i + 1, log, env.settleCommit(i));
    EditKeepsInvariant(l, exempt, s, i, log, Unsettled(p));
  }

  /** The price of record i is in the store, equal to the price in memory. */
  predicate PriceStored(s: RunState, i: nat)
    requires i < |s.updated| && |s.updated| == |s.durable.predictions|
  {
    s.durable.predictions[i] == s.updated[i] && AwaitsModel(s.updated[i]) && !IsSettled(s.updated[i])
  }

  // ----- what a run learns -----

  /** The learning steps of one model step on record i that reach the store: one, from the record's
      features and committed price, if its id is not applied yet, and none otherwise. */
  ghost function UpdateLog(env: RunEnv, m: Model, p: Prediction, i: nat): seq<LogEntry> {
    if PassesGate(p) && !AlreadyApplied(m, p.id) && CanLearn(p) && Reaches(env.modelSave(i))
    then [Scored(p.id, p.features.value, Outcome(p))] else []
  }

  /** A price is learnt from in this run only once it is committed. */
  ghost function RecordLog(l: Learner, env: RunEnv, s: RunState, i: nat, price: real): seq<LogEntry>
    requires i < |s.updated| && HasModelInputs(s.updated[i])
  {
    if env.priceCommit(i).Done?
    then UpdateLog(env, s.model, PriceRecorded(l, s.model.weights, s.updated[i], price, env.operationId(i)), i)
    else []
  }

  ghost function ScoreDueLog(l: Learner, env: RunEnv, s: RunState, i: nat, day: int): seq<LogEntry>
    requires i < |s.updated| && env.asOf.Some?
  {
    var price := FetchedPrice(env, s.updated[i], i, day);
    if env.fetch(i).FetchStopped? || price.None? then [] else RecordLog(l, env, s, i, price.value)
  }

  ghost function StepLog(l: Learner, env: RunEnv, s: RunState, i: nat): seq<LogEntry>
    requires i < |s.updated|
  {
    var p := s.updated[i];
    if IsSettled(p) then []
    else if AwaitsModel(p) then UpdateLog(env, s.model, p, i)
    else
      var plan := PlanFor(env, p);
      if plan.Due? && s.fetches < env.maxPerRun
      then ScoreDueLog(l, env, s.(updated := s.updated[i := plan.p]), i, plan.day)
      else []
  }

  /** The learning steps of a run on its first n records, in order. */
  ghost function RunLog(l: Learner, env: RunEnv, d: Durable, n: nat): seq<LogEntry>
    requires n <= |d.predictions|
  {
    if n == 0 then []
    else
      var s := RunUpTo(l, env, d, n - 1);
      RunLog(l, env, d, n - 1) + if s.phase.Running? then StepLog(l, env, s, n - 1) else []
  }

  /** A run learns from predictions only. */
  lemma {:induction false} RunLearnsPredictions(l: Learner, env: RunEnv, d: Durable, n: nat)
    requires n <= |d.predictions|
    ensures OnlyPredictions(RunLog(l, env, d, n))
  {
    hide PlanFor, FetchedPrice, PriceRecorded;
    if n > 0 {
      RunLearnsPredictions(l, env, d, n - 1);
    }
  }

  /** A record whose id is applied is only acknowledged: nothing is learnt, in memory or in the store. */
  lemma AppliedLearnsNothing(l: Learner, env: RunEnv, s: RunState, i: nat)
    requires i < |s.updated| && AlreadyApplied(s.model, s.updated[i].id)
    ensures var r := UpdateModel(l, env, s, i); r.model == s.model && r.durable.model == s.durable.model
  {
    hide AlreadyApplied;
  }

  /** The model step learns exactly its log. */
  lemma UpdateKeepsInvariant(l: Learner, exempt: set<string>, env: RunEnv, s: RunState, i: nat, log: seq<LogEntry>)
    requires i < |s.updated| && s.phase.Running? && RunInvariant(l, exempt, s, i + 1, log)
    requires PriceStored(s, i)
    ensures RunInvariant(l, exempt, UpdateModel(l, env, s, i), i + 1, log + UpdateLog(env, s.model, s.updated[i], i))
    ensures AlreadyApplied(s.model, s.updated[i].id) ==>
              UpdateModel(l, env, s, i).model == s.model && UpdateModel(l, env, s, i).durable.model == s.durable.model
  {
    hide Consistent, Settle, LearnedFrom, Hit;
    var p := s.updated[i];
    if !PassesGate(p) {
      assert log + [] == log;
    } else if AlreadyApplied(s.model, p.id) {
      AppliedLearnsNothing(l, env, s, i);
      AppliedInLog(l, exempt, s, i, log);
      SettleKeepsInvariant(l, exempt, env, s, i, log);
      assert log + [] == log;
    } else if CanLearn(p) {
      LearnKeepsInvariant(l, exempt, env, s, i, log);
    } else {
      assert log + [] == log;
    }
  }

  lemma AppliedInLog(l: Learner, exempt: set<string>, s: RunState, i: nat, log: seq<LogEntry>)
    requires i < |s.updated| && s.phase.Running? && RunInvariant(l, exempt, s, i + 1, log)
    requires AlreadyApplied(s.model, s.updated[i].id)
    ensures s.updated[i].id in PredictionIds(log)
  {
    AppliedIffInIds(s.model, s.updated[i].id);
  }

  /** The model save decides: the log gains exactly this prediction's entry exactly when the save
      reached the store. */
  lemma LearnKeepsInvariant(l: Learner, exempt: set<string>, env: RunEnv, s: RunState, i: nat, log: seq<LogEntry>)
    requires i < |s.updated| && s.phase.Running? && RunInvariant(l, exempt, s, i + 1, log)
    requires PriceStored(s, i)
    requires PassesGate(s.updated[i]) && !AlreadyApplied(s.model, s.updated[i].id) && CanLearn(s.updated[i])
    ensures var p := s.updated[i];
            RunInvariant(l, exempt, UpdateModel(l, env, s, i), i + 1,
                         if Reaches(env.modelSave(i)) then log + [Scored(p.id, p.features.value, Outcome(p))] else log)
  {
    var p := s.updated[i];
    LearnOutcome(l, exempt, env, s, i, log, log + [Scored(p.id, p.features.value, Outcome(p))]);
  }

  lemma LearnOutcome(l: Learner, exempt: set<string>, env: RunEnv, s: RunState, i: nat, log: seq<LogEntry>, log': seq<LogEntry>)
    requires i < |s.updated| && s.phase.Running? && RunInvariant(l, exempt, s, i + 1, log)
    requires PriceStored(s, i)
    requires PassesGate(s.updated[i]) && !AlreadyApplied(s.model, s.updated[i].id) && CanLearn(s.updated[i])
    requires log' == log + [Scored(s.updated[i].id, s.updated[i].features.value, Outcome(s.updated[i]))]
    ensures RunInvariant(l, exempt, UpdateModel(l, env, s, i), i + 1, if Reaches(env.modelSave(i)) then log' else log)
  {
    hide Consistent, Settle, LearnedFrom, LearntInMemory, UpdateModel;
    var s1 := LearntInMemory(l, s, i);
    LearntStates(l, exempt, s, i, log);
    SavedInvariant(l, exempt, s, s1, i, log, log', env.modelSave(i));
    UpdateIsLearntThenSettled(l, env, s, i);
    if env.modelSave(i).Done? {
      SettleKeepsInvariant(l, exempt, env, ModelSaved(s1, Done), i, log');
    }
  }

  /** Saving the model, for every outcome of the call. */
  lemma SavedInvariant(l: Learner, exempt: set<string>, s: RunState, s1: RunState, i: nat,
                       log: seq<LogEntry>, log': seq<LogEntry>, outcome: CallOutcome)
    requires i < |s.updated| && s.phase.Running? && RunInvariant(l, exempt, s, i + 1, log)
    requires Consistent(l, exempt, s.durable.predictions, s1.model, log') && Consistent(l, exempt, s1.updated, s1.model, log')
    requires |s1.updated| == |s.updated| && s1.durable == s.durable && s1.phase == s.phase
    requires forall j :: 0 <= j < |s.updated| && j != i ==> s1.updated[j] == s.updated[j]
    ensures RunInvariant(l, exempt, ModelSaved(s1, outcome), i + 1, if Reaches(outcome) then log' else log)
  {
    hide Consistent;
  }

  /** Memory after the learning step on record i. */
  ghost function LearntInMemory(l: Learner, s: RunState, i: nat): RunState
    requires i < |s.updated| && CanLearn(s.updated[i])
  {
    var p := s.updated[i];
    s.(model := LearnedFrom(l, s.model, p),
       updated := s.updated[i := p.(correct := Some(Hit(l, s.model.weights, p.features.value, Outcome(p))))])
  }

  lemma UpdateIsLearntThenSettled(l: Learner, env: RunEnv, s: RunState, i: nat)
    requires i < |s.updated| && PassesGate(s.updated[i]) && !AlreadyApplied(s.model, s.updated[i].id) && CanLearn(s.updated[i])
    ensures var saved := ModelSaved(LearntInMemory(l, s, i), env.modelSave(i));
            UpdateModel(l, env, s, i) == if saved.phase.Running? then Settle(env, saved, i) else saved
  {
    hide Settle, LearnedFrom, Hit, AlreadyApplied;
  }

  /** With the learnt model the stores and memory agree on the longer log. */
  lemma LearntStates(l: Learner, exempt: set<string>, s: RunState, i: nat, log: seq<LogEntry>)
    requires i < |s.updated| && s.phase.Running? && RunInvariant(l, exempt, s, i + 1, log)
    requires PriceStored(s, i) && !AlreadyApplied(s.model, s.updated[i].id) && CanLearn(s.updated[i])
    ensures var p, s1 := s.updated[i], LearntInMemory(l, s, i);
            var log' := log + [Scored(p.id, p.features.value, Outcome(p))];
            && Consistent(l, exempt, s.durable.predictions, s1.model, log')
            && Consistent(l, exempt, s1.updated, s1.model, log')
            && p.id in PredictionIds(log')
            && InFlight(s1.updated[i]) && !IsSettled(s1.updated[i]) && s1.updated[i].id == p.id
            && |s1.updated| == |s.updated| && s1.durable == s.durable && s1.phase == s.phase
            && forall j :: 0 <= j < |s.updated| && j != i ==> s1.updated[j] == s.updated[j]
  {
    var p, s1 := s.updated[i], LearntInMemory(l, s, i);
    hide Explains, Hit;
    LearningKeepsConsistent(l, exempt, s.durable.predictions, s.model, log, i, p);
    ReplaceKeepsConsistent(l, exempt, s.updated, s.model, log, i, s1.updated[i]);
    LearningKeepsConsistent(l, exempt, s1.updated, s.model, log, i, p);
  }

  /** Planning never touches a price, features, an entry or an identity, and settles nothing. */
  predicate Untouched(p: Prediction, q: Prediction) {
    && !InFlight(q) && q.id == p.id && q.entry == p.entry && q.features == p.features && q.targetClose == p.targetClose
  }

  lemma DatedPlanIsSafe(env: RunEnv, p: Prediction, changed: bool)
    requires !InFlight(p) && p.target.Some?
    ensures Untouched(p, DatedPlan(env, p, changed).p)
  {
    hide Merged;
  }

  lemma PlanIsSafe(env: RunEnv, p: Prediction)
    requires !InFlight(p)
    ensures Untouched(p, PlanFor(env, p).p)
  {
    hide DatedPlan, Merged;
    if p.target.Some? {
      DatedPlanIsSafe(env, p, false);
    } else if p.horizonType == LEGACY_HORIZON && p.base.Some? {
      var answer := env.calendar.legacyTarget(p.base.value);
      if answer.ok && answer.target.Some? {
        DatedPlanIsSafe(env, Redated(p, answer), true);
      }
    }
  }

  lemma PostponeKeepsInvariant(l: Learner, exempt: set<string>, s: RunState, i: nat, log: seq<LogEntry>)
    requires i < |s.updated| && s.phase.Running? && !InFlight(s.updated[i]) && RunInvariant(l, exempt, s, i + 1, log)
    ensures RunInvariant(l, exempt, Postponed(s, i), i + 1, log)
  {
    EditKeepsInvariant(l, exempt, s, i, log, WithStatus(s.updated[i], Pending));
  }

  lemma RecordPriceKeepsInvariant(l: Learner, exempt: set<string>, env: RunEnv, s: RunState, i: nat, price: real, log: seq<LogEntry>)
    requires i < |s.updated| && s.phase.Running? && HasModelInputs(s.updated[i])
    requires !InFlight(s.updated[i]) && RunInvariant(l, exempt, s, i + 1, log)
    ensures RunInvariant(l, exempt, RecordPrice(l, env, s, i, price), i + 1, log + RecordLog(l, env, s, i, price))
  {
    hide UpdateModel, UpdateLog, Consistent, ConsistentStores, Hit;
    var q := PriceRecorded(l, s.model.weights, s.updated[i], price, env.operationId(i));
    var s1 := s.(updated := s.updated[i := q]);
    EditKeepsInvariant(l, exempt, s, i, log, q);
    CommitKeepsInvariant(l, exempt, s1, i + 1, log, env.priceCommit(i));
    assert log + [] == log;
    if env.priceCommit(i).Done? {
      if PassesGate(q) {
        UpdateKeepsInvariant(l, exempt, env, Committed(s1, Done), i, log);
      } else {
        NoGateNoUpdate(l, env, Committed(s1, Done), i);
      }
    }
  }

  lemma NoGateNoUpdate(l: Learner, env: RunEnv, s: RunState, i: nat)
    requires i < |s.updated| && !PassesGate(s.updated[i])
    ensures UpdateModel(l, env, s, i) == s && UpdateLog(env, s.model, s.updated[i], i) == []
  {
  }

  lemma ScoreDueKeepsInvariant(l: Learner, exempt: set<string>, env: RunEnv, s: RunState, i: nat, day: int, log: seq<LogEntry>)
    requires i < |s.updated| && env.asOf.Some? && s.phase.Running?
    requires !InFlight(s.updated[i]) && RunInvariant(l, exempt, s, i + 1, log)
    ensures RunInvariant(l, exempt, ScoreDue(l, env, s, i, day), i + 1, log + ScoreDueLog(l, env, s, i, day))
  {
    hide RecordPrice, UpdateLog, PriceRecorded, Postponed, FetchedPrice, Consistent;
    var s1 := s.(fetches := s.fetches + 1);
    var price := FetchedPrice(env, s.updated[i], i, day);
    assert log + [] == log;
    if env.fetch(i).FetchStopped? {
      return;
    }
    if price.Some? {
      RecordPriceKeepsInvariant(l, exempt, env, s1, i, price.value, log);
      return;
    }
    PostponeKeepsInvariant(l, exempt, s1, i, log);
  }

  /** One record, whatever branch it takes, learns exactly its log. */
  lemma StepKeepsInvariant(l: Learner, exempt: set<string>, env: RunEnv, s: RunState, i: nat, log: seq<LogEntry>)
    requires i < |s.updated| && s.phase.Running? && RunInvariant(l, exempt, s, i, log)
    ensures RunInvariant(l, exempt, Step(l, env, s, i), i + 1, log + StepLog(l, env, s, i))
  {
    hide UpdateModel, UpdateLog, ScoreDue, ScoreDueLog, PlanFor, Consistent;
    var p := s.updated[i];
    assert log + [] == log;
    if IsSettled(p) {
    } else if AwaitsModel(p) {
      UpdateKeepsInvariant(l, exempt, env, s, i, log);
    } else {
      PlanIsSafe(env, p);
      var plan := PlanFor(env, p);
      EditKeepsInvariant(l, exempt, s, i, log, plan.p);
      if plan.Due? && s.fetches < env.maxPerRun {
        var s1 := s.(updated := s.updated[i := plan.p], dirty := s.dirty || plan.changed);
        ScoreDueKeepsInvariant(l, exempt, env, s1, i, plan.day, log);
        SameScoreLog(l, env, s.(updated := s.updated[i := plan.p]), s1, i, plan.day);
      }
    }
  }

  lemma SameScoreLog(l: Learner, env: RunEnv, s: RunState, t: RunState, i: nat, day: int)
    requires i < |s.updated| && env.asOf.Some? && t == s.(dirty := t.dirty)
    ensures ScoreDueLog(l, env, t, i, day) == ScoreDueLog(l, env, s, i, day)
  {
    hide FetchedPrice, UpdateLog, PriceRecorded;
  }

  lemma StoppedInvariant(l: Learner, exempt: set<string>, s: RunState, n: nat, log: seq<LogEntry>)
    requires !s.phase.Running? && RunInvariant(l, exempt, s, n, log)
    ensures RunInvariant(l, exempt, s, n + 1, log)
  {
    hide Consistent;
  }

  lemma RunLogSteps(l: Learner, env: RunEnv, d: Durable, n: nat, log: seq<LogEntry>)
    requires n < |d.predictions|
    ensures var s := RunUpTo(l, env, d, n);
            log + RunLog(l, env, d, n + 1)
            == (log + RunLog(l, env, d, n)) + if s.phase.Running? then StepLog(l, env, s, n) else []
  {
    hide StepLog, RunUpTo;
  }

  lemma EmptyRun(l: Learner, env: RunEnv, d: Durable)
    ensures RunUpTo(l, env, d, 0) == Loaded(l, d) && RunLog(l, env, d, 0) == []
  {
  }

  lemma RunSteps(l: Learner, env: RunEnv, d: Durable, n: nat)
    requires n < |d.predictions|
    ensures var s := RunUpTo(l, env, d, n);
            RunUpTo(l, env, d, n + 1) == if s.phase.Running? then Step(l, env, s, n) else s
  {
    hide Step;
  }

  lemma {:induction false} RunUpToKeepsInvariant(l: Learner, exempt: set<string>, env: RunEnv, d: Durable, n: nat, log: seq<LogEntry>)
    requires n <= |d.predictions| && ConsistentStores(l, exempt, d, log)
    ensures RunInvariant(l, exempt, RunUpTo(l, env, d, n), n, log + RunLog(l, env, d, n))
  {
    hide Consistent, Step, StepLog, RunUpTo;
    if n == 0 {
      EmptyRun(l, env, d);
      assert log + [] == log;
    } else {
      RunUpToKeepsInvariant(l, exempt, env, d, n - 1, log);
      RunLogSteps(l, env, d, n - 1, log);
      RunSteps(l, env, d, n - 1);
      var s, before := RunUpTo(l, env, d, n - 1), log + RunLog(l, env, d, n - 1);
      if s.phase.Running? {
        StepKeepsInvariant(l, exempt, env, s, n - 1, before);
      } else {
        StoppedInvariant(l, exempt, s, n - 1, before);
        assert before + [] == before;
      }
    }
  }

  /** Whatever the stores answer and wherever the process stops, the stores agree afterwards on the
      log extended by what the run learnt: one step each from predictions whose ids were not yet
      applied, and nothing else. */
  lemma RunKeepsConsistent(l: Learner, exempt: set<string>, env: RunEnv, d: Durable, log: seq<LogEntry>)
    requires ConsistentStores(l, exempt, d, log)
    ensures var learnt := RunLog(l, env, d, |d.predictions|);
            && ConsistentStores(l, exempt, Run(l, env, d).durable, log + learnt)
            && OnlyPredictions(learnt)
            && forall k :: 0 <= k < |learnt| ==> !AlreadyApplied(LoadedModel(l, d.model), learnt[k].source.value)
  {
    var n := |d.predictions|;
    var learnt := RunLog(l, env, d, n);
    RunUpToKeepsInvariant(l, exempt, env, d, n, log);
    RunLearnsPredictions(l, env, d, n);
    var s := RunUpTo(l, env, d, n);
    if s.phase.Running? {
      CommitKeepsInvariant(l, exempt, s, n, log + learnt, env.finalCommit);
    }
    hide RunUpTo, RunLog;
    forall k | 0 <= k < |learnt| ensures !AlreadyApplied(LoadedModel(l, d.model), learnt[k].source.value) {
      AppliedIffInIds(LoadedModel(l, d.model), learnt[k].source.value);
      LaterEntryIsNew(log, learnt, k);
    }
  }

  lemma LaterEntryIsNew(log: seq<LogEntry>, more: seq<LogEntry>, k: nat)
    requires k < |more| && OnlyPredictions(more) && NoRepeats(PredictionIds(log + more))
    ensures more[k].source.value !in PredictionIds(log)
  {
    IdsConcat(log, more);
    IdsOfPredictions(more);
    var ids, a := PredictionIds(log + more), PredictionIds(log);
    forall i | 0 <= i < |a| ensures a[i] != more[k].source.value {
      assert ids[i] == a[i] && ids[|a| + k] == more[k].source.value;
    }
  }

  lemma {:induction false} IdsConcat(log: seq<LogEntry>, more: seq<LogEntry>)
    ensures PredictionIds(log + more) == PredictionIds(log) + PredictionIds(more)
  {
    if more == [] {
      assert log + more == log;
    } else {
      IdsConcat(log, more[..|more|-1]);
      assert (log + more)[..|log + more|-1] == log + more[..|more|-1];
    }
  }

  lemma {:induction false} IdsOfPredictions(log: seq<LogEntry>)
    requires OnlyPredictions(log)
    ensures |PredictionIds(log)| == |log| && forall k :: 0 <= k < |log| ==> PredictionIds(log)[k] == log[k].source.value
  {
    if log != [] {
      IdsOfPredictions(log[..|log|-1]);
    }
  }
}
