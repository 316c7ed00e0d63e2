/** Whole histories of the predictor: predictions recorded, history trainings and scoring runs,
    in any order and with any failures, starting from empty stores. */
module PredictionLifecycle {
  import opened Options
  import opened OnlineLearning
  import opened PredictionRecords
  import opened ScoringRun
  import opened ScoringSafety
  import opened ScoringRecords
  import opened ScoringRecovery

  // ----- recording a prediction -----

  datatype Finality = FinalCandle | NotFinalCandle | UnknownFinality | OtherFinality

  datatype CandleFlags = CandleFlags(isFinal: Option<bool>, session: Session)

  datatype Request = Request(
    symbol: string,
    close: Option<real>,
    features: Features,
    base: Option<int>,
    asOf: Option<int>,
    candle: Option<CandleFlags>,
    finality: Option<Finality>,
    horizonType: string,
    horizonDays: Option<int>,
    modelVersion: string,
    featureVersion: string)

  predicate SaysFinal(c: Option<CandleFlags>) {
    c.Some? && (c.value.isFinal == Some(true) || c.value.session.Closed?)
  }

  predicate SaysNotFinal(c: Option<CandleFlags>) {
    c.Some? && (c.value.isFinal == Some(false) || c.value.session.Open?)
  }

  predicate IsHistorical(r: Request) {
    r.base.Some? && r.asOf.Some? && r.base.value < r.asOf.value
  }

  /** The finality recorded with the prediction; the caller's word wins. */
  function FinalityOf(r: Request): Finality {
    match r.finality
    case Some(f) => f
    case None =>
      if SaysFinal(r.candle) then FinalCandle
      else if SaysNotFinal(r.candle) then NotFinalCandle
      else if IsHistorical(r) then FinalCandle
      else UnknownFinality
  }

  /** The independent check of the candle itself; here a not-final flag wins. */
  predicate CandleAccepted(r: Request) {
    !SaysNotFinal(r.candle) && (SaysFinal(r.candle) || IsHistorical(r))
  }

  function HorizonDaysOf(r: Request): Option<int> {
    if r.horizonType == LEGACY_HORIZON then None else r.horizonDays
  }

  predicate HorizonAccepted(r: Request) {
    r.horizonType == LEGACY_HORIZON || (r.horizonDays.Some? && r.horizonDays.value >= 1)
  }

  function TargetAnswer(cal: Calendar, r: Request): CalendarAnswer
    requires r.base.Some? && HorizonAccepted(r)
  {
    if r.horizonType == LEGACY_HORIZON then cal.legacyTarget(Known(r.base.value))
    else cal.addTradingDays(Known(r.base.value), r.horizonDays.value)
  }

  predicate TargetAccepted(base: int, a: CalendarAnswer) {
    if !a.ok then !a.code.HorizonCode? && !a.code.DateFormatCode?
    else a.target.Some? && a.target.value.Known? ==> base < a.target.value.day
  }

  predicate Recordable(cal: Calendar, r: Request) {
    && r.base.Some?
    && (r.asOf.Some? ==> r.base.value <= r.asOf.value)
    && HorizonAccepted(r)
    && CandleAccepted(r)
    && !FinalityOf(r).UnknownFinality? && !FinalityOf(r).NotFinalCandle?
    && TargetAccepted(r.base.value, TargetAnswer(cal, r))
    && r.close.Some? && r.close.value > 0.0
  }

  /** The six fields that identify a prediction. */
  datatype Key = Key(symbol: string, base: Option<StoredDate>, horizonType: string, horizonDays: Option<int>,
                     modelVersion: string, featureVersion: string)

  function KeyOf(p: Prediction): Key {
    Key(p.symbol, p.base, p.horizonType, p.horizonDays, p.modelVersion, p.featureVersion)
  }

  predicate IsDuplicate(preds: seq<Prediction>, key: Key) {
    exists i :: 0 <= i < |preds| && KeyOf(preds[i]) == key
  }

  function Draft(cal: Calendar, r: Request, id: string): Prediction
    requires Recordable(cal, r)
  {
    var a := TargetAnswer(cal, r);
    var target := if a.ok then a.target else None;
    var targetStatus := ConfirmedIffTarget(target, if a.ok then Confirmed else StatusOfAnswer(a));
    Prediction(id, r.symbol, Some(Known(r.base.value)), r.horizonType, HorizonDaysOf(r), r.modelVersion,
               r.featureVersion, Some(r.features), r.close, target, targetStatus, None,
               Sanitized(if a.ok then Pending else NoStatus, targetStatus, None),
               false, None, None, NotRequested, None,
               Merged(if SaysFinal(r.candle) then [] else ["isFinal"], a.missing), false)
  }

  /** The record `predict` asks the store to save, if any. */
  function Predicted(cal: Calendar, preds: seq<Prediction>, r: Request, id: string): Option<Prediction> {
    if !Recordable(cal, r) then None
    else
      var p := Draft(cal, r, id);
      if IsDuplicate(preds, KeyOf(p)) then None else Some(p)
  }

  /** A recorded prediction is well formed, was made on a final candle no later than the
      data, and targets a later day. */
  lemma DraftWellFormed(cal: Calendar, r: Request, id: string)
    requires Recordable(cal, r)
    ensures var p := Draft(cal, r, id);
            && WellFormed(p) && HasModelInputs(p) && p.targetClose.None?
            && (r.asOf.Some? ==> r.base.value <= r.asOf.value)
            && (SaysFinal(r.candle) || IsHistorical(r)) && !SaysNotFinal(r.candle)
            && (p.target.Some? && p.target.value.Known? ==> r.base.value < p.target.value.day)
            && (p.status.Pending? <==> p.target.Some?)
  {
    hide Merged;
  }

  // ----- histories -----

  datatype Event =
    | ScoringPass(env: RunEnv)
    | NewPrediction(calendar: Calendar, request: Request, id: string, saved: bool)
    | HistoryTraining(samples: seq<Sample>, saved: bool)

  function After(l: Learner, d: Durable, e: Event): Durable {
    match e
    case ScoringPass(env) => Run(l, env, d).durable
    case NewPrediction(cal, r, id, saved) =>
      var p := Predicted(cal, d.predictions, r, id);
      if p.Some? && saved then d.(predictions := d.predictions + [p.value]) else d
    case HistoryTraining(samples, saved) =>
      if samples != [] && saved then d.(model := Some(Trained(l, LoadedModel(l, d.model), samples))) else d
  }

  /** Calendars keep their promise and prediction ids are new. */
  ghost predicate Admissible(d: Durable, e: Event) {
    match e
    case ScoringPass(env) => HonestCalendar(env.calendar)
    case NewPrediction(_, _, id, _) => forall i :: 0 <= i < |d.predictions| ==> d.predictions[i].id != id
    case HistoryTraining(_, _) => true
  }

  function Execute(l: Learner, d: Durable, events: seq<Event>): Durable {
    if events == [] then d
    else After(l, Execute(l, d, events[..|events|-1]), events[|events|-1])
  }

  ghost predicate History(l: Learner, d: Durable, events: seq<Event>) {
    forall k :: 0 <= k < |events| ==> Admissible(Execute(l, d, events[..k]), events[k])
  }

  const EMPTY := Durable([], None)

  ghost predicate DistinctKeys(preds: seq<Prediction>) {
    forall i, j :: 0 <= i < j < |preds| ==> KeyOf(preds[i]) != KeyOf(preds[j])
  }

  /** What every reachable pair of stores satisfies. */
  ghost predicate Sound(l: Learner, d: Durable, log: seq<LogEntry>) {
    && ConsistentStores(l, {}, d, log)
    && DistinctKeys(d.predictions)
    && forall i :: 0 <= i < |d.predictions| ==> WellFormed(d.predictions[i]) && HasModelInputs(d.predictions[i])
  }

  // ----- what a history learns -----

  /** What one event learns: a scoring run its own log, a saved training its samples in order, and a
      prediction nothing. */
  ghost function EventLog(l: Learner, d: Durable, e: Event): seq<LogEntry> {
    match e
    case ScoringPass(env) => RunLog(l, env, d, |d.predictions|)
    case NewPrediction(_, _, _, _) => []
    case HistoryTraining(samples, saved) => if saved then AsHistory(samples) else []
  }

  /** What a history learns, event by event. */
  ghost function HistoryLog(l: Learner, d: Durable, events: seq<Event>): seq<LogEntry> {
    if events == [] then []
    else
      var init := events[..|events|-1];
      HistoryLog(l, d, init) + EventLog(l, Execute(l, d, init), events[|events|-1])
  }

  /** The samples of the trainings whose model was saved, in order. */
  function TrainedSamples(events: seq<Event>): seq<Sample> {
    if events == [] then []
    else
      var rest := TrainedSamples(events[..|events|-1]);
      match events[|events|-1]
      case HistoryTraining(samples, true) => rest + samples
      case _ => rest
  }

  /** The entries of a history's log that belong to no prediction are the samples it trained on. */
  lemma {:induction false} HistoryLogSamples(l: Learner, d: Durable, events: seq<Event>)
    ensures HistorySamples(HistoryLog(l, d, events)) == TrainedSamples(events)
  {
    if events != [] {
      var init, last := events[..|events|-1], events[|events|-1];
      HistoryLogSamples(l, d, init);
      hide RunLog, Execute;
      var log, mid := HistoryLog(l, d, init), Execute(l, d, init);
      match last
      case ScoringPass(env) =>
        RunLearnsPredictions(l, env, mid, |mid.predictions|);
        PredictionsAddNoHistory(log, RunLog(l, env, mid, |mid.predictions|));
      case NewPrediction(_, _, _, _) =>
        assert log + [] == log;
      case HistoryTraining(samples, saved) =>
        HistoryAddsItsSamples(log, samples);
        assert log + [] == log;
    }
  }

  lemma EmptyIsSound(l: Learner)
    ensures Sound(l, EMPTY, [])
  {
    DefaultExplained(l);
  }

  lemma NewPredictionKeepsSound(l: Learner, d: Durable, log: seq<LogEntry>, cal: Calendar, r: Request, id: string)
    requires Sound(l, d, log) && Predicted(cal, d.predictions, r, id).Some?
    requires forall i :: 0 <= i < |d.predictions| ==> d.predictions[i].id != id
    ensures Sound(l, d.(predictions := d.predictions + [Predicted(cal, d.predictions, r, id).value]), log)
  {
    hide WellFormed, HasModelInputs, Recordable, Explains, Draft;
    var p := Predicted(cal, d.predictions, r, id).value;
    DraftWellFormed(cal, r, id);
    DraftIsFresh(cal, r, id);
    var preds' := d.predictions + [p];
    forall k | 0 <= k < |log| && log[k].source.Some?
      ensures exists j :: 0 <= j < |preds'| && Backs(preds'[j], log[k])
    {
      var j :| 0 <= j < |d.predictions| && Backs(d.predictions[j], log[k]);
      assert Backs(preds'[j], log[k]);
    }
  }

  lemma DraftIsFresh(cal: Calendar, r: Request, id: string)
    requires Recordable(cal, r)
    ensures Draft(cal, r, id).id == id && !IsSettled(Draft(cal, r, id))
  {
    hide Merged;
  }

  lemma ScoringKeepsSound(l: Learner, d: Durable, log: seq<LogEntry>, env: RunEnv)
    requires Sound(l, d, log) && HonestCalendar(env.calendar)
    ensures Sound(l, Run(l, env, d).durable, log + RunLog(l, env, d, |d.predictions|))
  {
    hide Run, RunLog, WellFormed, HonestCalendar, Explains, Grounded, FairPrice;
    RunKeepsConsistent(l, {}, env, d, log);
    var preds' := Run(l, env, d).durable.predictions;
    forall i | 0 <= i < |d.predictions|
      ensures |preds'| == |d.predictions| && WellFormed(preds'[i]) && SameIdentity(d.predictions[i], preds'[i])
    {
      RunEvolves(l, env, d, i);
    }
    RunSize(l, env, d);
  }

  lemma RunSize(l: Learner, env: RunEnv, d: Durable)
    ensures |Run(l, env, d).durable.predictions| == |d.predictions|
  {
    RunImages(l, env, d);
  }

  /** One event keeps the stores in agreement on the log extended by exactly what it learns. */
  lemma EventKeepsSound(l: Learner, d: Durable, log: seq<LogEntry>, e: Event)
    requires Sound(l, d, log) && Admissible(d, e)
    ensures Sound(l, After(l, d, e), log + EventLog(l, d, e))
  {
    hide WellFormed, HasModelInputs, Recordable, Draft, Run, RunLog, Trained, HonestCalendar, Explains;
    assert log + [] == log;
    match e
    case ScoringPass(env) =>
      ScoringKeepsSound(l, d, log, env);
    case NewPrediction(cal, r, id, saved) =>
      if saved && Predicted(cal, d.predictions, r, id).Some? {
        NewPredictionKeepsSound(l, d, log, cal, r, id);
      }
    case HistoryTraining(samples, saved) =>
      if samples != [] && saved {
        TrainingKeepsSound(l, d, log, samples);
      } else {
        assert log + AsHistory([]) == log;
      }
  }

  lemma TrainingKeepsSound(l: Learner, d: Durable, log: seq<LogEntry>, samples: seq<Sample>)
    requires Sound(l, d, log)
    ensures Sound(l, d.(model := Some(Trained(l, LoadedModel(l, d.model), samples))), log + AsHistory(samples))
    ensures PredictionIds(log + AsHistory(samples)) == PredictionIds(log)
    ensures HistorySamples(log + AsHistory(samples)) == HistorySamples(log) + samples
  {
    hide WellFormed, HasModelInputs, Explains, Trained, Backs;
    var log' := log + AsHistory(samples);
    TrainedExplained(l, LoadedModel(l, d.model), log, samples);
    HistoryAddsItsSamples(log, samples);
    forall k | 0 <= k < |log'| && log'[k].source.Some?
      ensures exists j :: 0 <= j < |d.predictions| && Backs(d.predictions[j], log'[k])
    {
      if k < |log| {
        assert log'[k] == log[k];
      }
    }
  }

  /** Every history from sound stores ends in stores sound on the log extended by exactly what the
      history learns, whose history entries are the samples of its saved trainings. */
  lemma {:induction false} HistoriesStaySound(l: Learner, d: Durable, events: seq<Event>, log: seq<LogEntry>)
    requires Sound(l, d, log) && History(l, d, events)
    ensures Sound(l, Execute(l, d, events), log + HistoryLog(l, d, events))
    ensures HistorySamples(HistoryLog(l, d, events)) == TrainedSamples(events)
  {
    hide Sound, After, Admissible, EventLog;
    HistoryLogSamples(l, d, events);
    if events == [] {
      assert log + [] == log;
    } else {
      var init, last := events[..|events|-1], events[|events|-1];
      assert forall k :: 0 <= k < |init| ==> init[..k] == events[..k];
      HistoriesStaySound(l, d, init, log);
      var mid := Execute(l, d, init);
      EventKeepsSound(l, mid, log + HistoryLog(l, d, init), last);
      assert log + (HistoryLog(l, d, init) + EventLog(l, mid, last)) == (log + HistoryLog(l, d, init)) + EventLog(l, mid, last);
    }
  }

  // ----- the theorems -----

  lemma ReachableSound(l: Learner, events: seq<Event>)
    requires History(l, EMPTY, events)
    ensures Sound(l, Execute(l, EMPTY, events), HistoryLog(l, EMPTY, events))
  {
    hide Sound, Execute, HistoryLog;
    EmptyIsSound(l);
    HistoriesStaySound(l, EMPTY, events, []);
    assert [] + HistoryLog(l, EMPTY, events) == HistoryLog(l, EMPTY, events);
  }

  /** Exactly-once learning, in every reachable state: applied ids are pairwise distinct; every
      settled prediction's id is applied; every applied id belongs to a stored prediction whose
      price is already durable; and the model is the replay of exactly what the history learnt:
      one step per applied id, from its prediction's features and price, in the order of the
      applied list, and one step per sample of the saved trainings, in their order. */
  lemma ReachableExactlyOnce(l: Learner, events: seq<Event>)
    requires History(l, EMPTY, events)
    ensures var d, log := Execute(l, EMPTY, events), HistoryLog(l, EMPTY, events);
            var m := LoadedModel(l, d.model);
            && NoRepeats(Ids(m.applied))
            && (forall i :: 0 <= i < |d.predictions| && IsSettled(d.predictions[i]) ==> AlreadyApplied(m, d.predictions[i].id))
            && (forall k :: 0 <= k < |m.applied| ==> HasStoredPrice(d.predictions, m.applied[k].predictionId))
            && Explains(l, m, log) && Grounded(d.predictions, log)
            && HistorySamples(log) == TrainedSamples(events)
            && m.trained == m.wins + m.losses == |m.applied| + |TrainedSamples(events)|
  {
    hide Walked, WellFormed, HasModelInputs, Execute, CanLearn, HistoryLog, TrainedSamples;
    ReachableSound(l, events);
    var d, log := Execute(l, EMPTY, events), HistoryLog(l, EMPTY, events);
    var m := LoadedModel(l, d.model);
    HistoryLogSamples(l, EMPTY, events);
    EntriesAreOfTwoKinds(log);
    forall i | 0 <= i < |d.predictions| && IsSettled(d.predictions[i]) ensures AlreadyApplied(m, d.predictions[i].id) {
      AppliedIffInIds(m, d.predictions[i].id);
    }
    forall k | 0 <= k < |m.applied| ensures HasStoredPrice(d.predictions, m.applied[k].predictionId) {
      assert Ids(m.applied)[k] == m.applied[k].predictionId;
      AppliedIsGrounded(d.predictions, log, m.applied[k].predictionId);
    }
  }

  predicate HasStoredPrice(preds: seq<Prediction>, id: string) {
    exists j :: 0 <= j < |preds| && preds[j].id == id && preds[j].targetClose.Some? && InFlight(preds[j])
  }

  lemma {:induction false} IdHasEntry(log: seq<LogEntry>, id: string) returns (k: nat)
    requires id in PredictionIds(log)
    ensures k < |log| && log[k].source == Some(id)
  {
    var last := |log| - 1;
    if log[last].source == Some(id) {
      k := last;
    } else {
      k := IdHasEntry(log[..last], id);
    }
  }

  lemma AppliedIsGrounded(preds: seq<Prediction>, log: seq<LogEntry>, id: string)
    requires Grounded(preds, log) && id in PredictionIds(log)
    ensures HasStoredPrice(preds, id)
  {
    var k := IdHasEntry(log, id);
    var j :| 0 <= j < |preds| && Backs(preds[j], log[k]);
    assert preds[j].id == id;
  }

  /** In every reachable state: confirmed exactly when dated, scored exactly when priced,
      and no two records share their six key fields. */
  lemma ReachableRecords(l: Learner, events: seq<Event>)
    requires History(l, EMPTY, events)
    ensures var d := Execute(l, EMPTY, events);
            && DistinctKeys(d.predictions)
            && forall i :: 0 <= i < |d.predictions| ==> WellFormed(d.predictions[i])
  {
    ReachableSound(l, events);
  }

  /** Whatever happened before, one run in which no call fails leaves every prediction with a
      recorded price settled and applied once. The run takes one step for each id it learns and
      none for an id that was applied before: such a prediction is only acknowledged. */
  lemma RecoveryCompletes(l: Learner, events: seq<Event>, env: RunEnv, i: nat)
    requires History(l, EMPTY, events) && Clean(env) && HonestCalendar(env.calendar)
    requires var d := Execute(l, EMPTY, events); i < |d.predictions| && d.predictions[i].targetClose.Some?
    ensures var d := Execute(l, EMPTY, events);
            var d' := Run(l, env, d).durable;
            var m, m' := LoadedModel(l, d.model), LoadedModel(l, d'.model);
            var learnt := RunLog(l, env, d, |d.predictions|);
            && |d'.predictions| == |d.predictions|
            && IsSettled(d'.predictions[i]) && d'.predictions[i].id == d.predictions[i].id
            && d'.predictions[i].targetClose == d.predictions[i].targetClose
            && AlreadyApplied(m', d.predictions[i].id)
            && NoRepeats(Ids(m'.applied))
            && Explains(l, m', HistoryLog(l, EMPTY, events) + learnt)
            && OnlyPredictions(learnt)
            && (forall k :: 0 <= k < |learnt| ==> !AlreadyApplied(m, learnt[k].source.value))
            && m'.trained == m.trained + |learnt|
            && Ids(m'.applied) == Ids(m.applied) + PredictionIds(learnt)
  {
    hide Run, RunLog, History, HistoryLog, Execute, Walked, HonestCalendar, Grounded, DistinctKeys, FairPrice, Clean;
    ReachableSound(l, events);
    var d, log := Execute(l, EMPTY, events), HistoryLog(l, EMPTY, events);
    var learnt := RunLog(l, env, d, |d.predictions|);
    ScoringKeepsSound(l, d, log, env);
    RunKeepsConsistent(l, {}, env, d, log);
    IdsConcat(log, learnt);
    var d' := Run(l, env, d).durable;
    CleanRunSettlesExactly(l, env, d, i);
    RunEvolves(l, env, d, i);
    assert EndsSettled(l, env, d, i);
    AppliedIffInIds(LoadedModel(l, d'.model), d.predictions[i].id);
  }

  /** Once a price is durable it is final: no later event changes the price, the outcome or
      the place of that prediction. */
  lemma {:induction false} PriceIsFinal(l: Learner, d: Durable, events: seq<Event>, log: seq<LogEntry>, i: nat)
    requires Sound(l, d, log) && History(l, d, events)
    requires i < |d.predictions| && d.predictions[i].targetClose.Some?
    ensures var d' := Execute(l, d, events);
            && i < |d'.predictions| && d'.predictions[i].id == d.predictions[i].id
            && d'.predictions[i].targetClose == d.predictions[i].targetClose
            && d'.predictions[i].actualUp == d.predictions[i].actualUp
            && (IsSettled(d.predictions[i]) ==> d'.predictions[i] == d.predictions[i])
  {
    hide Run, Predicted, Trained, HonestCalendar, ConsistentStores, DistinctKeys, FairPrice, HasModelInputs;
    if events != [] {
      var init := events[..|events|-1];
      assert forall k :: 0 <= k < |init| ==> init[..k] == events[..k];
      PriceIsFinal(l, d, init, log, i);
      var mid := Execute(l, d, init);
      HistoriesStaySound(l, d, init, log);
      match events[|events|-1]
      case ScoringPass(env) => RunEvolves(l, env, mid, i);
      case _ =>
    }
  }

  /** Event k of the history is a scoring run that recorded this price for record i, fairly. */
  ghost predicate RecordedBy(l: Learner, events: seq<Event>, k: nat, i: nat, price: Option<real>) {
    && k < |events| && events[k].ScoringPass?
    && var before, after := Execute(l, EMPTY, events[..k]).predictions, Execute(l, EMPTY, events[..k+1]).predictions;
       && i < |before| && i < |after| && before[i].targetClose.None? && after[i].targetClose == price
       && FairPrice(events[k].env, i, before[i], after[i])
  }

  lemma RecordedByPrefix(l: Learner, events: seq<Event>, n: nat, k: nat, i: nat, price: Option<real>)
    requires n <= |events| && RecordedBy(l, events[..n], k, i, price)
    ensures RecordedBy(l, events, k, i, price)
  {
    hide Execute, FairPrice;
    assert events[..n][..k] == events[..k] && events[..n][..k+1] == events[..k+1];
  }

  /** In every reachable state each durable price was recorded by some earlier scoring run, from a
      final candle dated exactly the target, with base < target <= asOf in that run. */
  lemma {:induction false} PriceProvenance(l: Learner, events: seq<Event>, i: nat) returns (k: nat)
    requires History(l, EMPTY, events)
    requires i < |Execute(l, EMPTY, events).predictions| && Execute(l, EMPTY, events).predictions[i].targetClose.Some?
    ensures RecordedBy(l, events, k, i, Execute(l, EMPTY, events).predictions[i].targetClose)
  {
    hide Run, Predicted, Trained, HonestCalendar, FairPrice, RecordedBy, Sound, WellFormed;
    if events == [] {
      assert false;
    } else {
      var n := |events| - 1;
      var init, last := events[..n], events[n];
      assert forall j :: 0 <= j < n ==> init[..j] == events[..j];
      ReachableSound(l, init);
      var log := HistoryLog(l, EMPTY, init);
      var mid := Execute(l, EMPTY, init);
      if i < |mid.predictions| && mid.predictions[i].targetClose.Some? {
        k := PriceProvenance(l, init, i);
        RecordedByPrefix(l, events, n, k, i, mid.predictions[i].targetClose);
        PriceKept(l, mid, last, log, i);
      } else {
        k := n;
        FreshPrice(l, mid, last, i);
        assert events[..n+1] == events;
        RecordedNow(l, events, i);
      }
    }
  }

  lemma PriceKept(l: Learner, d: Durable, e: Event, log: seq<LogEntry>, i: nat)
    requires Sound(l, d, log) && Admissible(d, e) && i < |d.predictions| && d.predictions[i].targetClose.Some?
    ensures var d' := After(l, d, e); i < |d'.predictions| && d'.predictions[i].targetClose == d.predictions[i].targetClose
  {
    hide Run, Predicted, Trained, HonestCalendar, ConsistentStores, DistinctKeys, FairPrice, HasModelInputs;
    match e
    case ScoringPass(env) => RunEvolves(l, env, d, i);
    case _ =>
  }

  /** A price that the store did not have before an event was recorded fairly by that event. */
  lemma FreshPrice(l: Learner, d: Durable, e: Event, i: nat)
    requires i < |After(l, d, e).predictions| && After(l, d, e).predictions[i].targetClose.Some?
    requires i < |d.predictions| ==> d.predictions[i].targetClose.None?
    ensures e.ScoringPass? && i < |d.predictions| && FairPrice(e.env, i, d.predictions[i], After(l, d, e).predictions[i])
  {
    hide Run, Trained, FairPrice, WellFormed, HonestCalendar, Recordable;
    match e
    case ScoringPass(env) =>
      RunSize(l, env, d);
      RunEvolves(l, env, d, i);
    case NewPrediction(cal, r, id, saved) =>
      if saved && Predicted(cal, d.predictions, r, id).Some? {
        DraftUnpriced(cal, r, id);
      }
      assert false;
    case HistoryTraining(_, _) =>
      assert false;
  }

  lemma DraftUnpriced(cal: Calendar, r: Request, id: string)
    requires Recordable(cal, r)
    ensures Draft(cal, r, id).targetClose.None?
  {
    hide Merged;
  }

  lemma RecordedNow(l: Learner, events: seq<Event>, i: nat)
    requires events != [] && events[|events|-1].ScoringPass?
    requires var before, after := Execute(l, EMPTY, events[..|events|-1]).predictions, Execute(l, EMPTY, events).predictions;
             i < |before| && i < |after| && before[i].targetClose.None?
             && FairPrice(events[|events|-1].env, i, before[i], after[i])
    ensures RecordedBy(l, events, |events| - 1, i, Execute(l, EMPTY, events).predictions[i].targetClose)
  {
    hide Execute, FairPrice;
    assert events[..|events|] == events;
  }
}
