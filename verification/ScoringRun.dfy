/** One processMatured run over two stores that cannot be written together.
    Every store call and every candle fetch has an outcome chosen by the environment, and the
    process may stop before or after any of them; a run is a function of those outcomes. */
module ScoringRun {
  import opened Options
  import opened OnlineLearning
  import opened PredictionRecords

  /** What the two stores hold; a missing or unreadable model is None. */
  datatype Durable = Durable(predictions: seq<Prediction>, model: Option<Model>)

  /** A call may also be reported as failed although what it wrote stays, as when releasing the
      store's lock fails. */
  datatype CallOutcome = Done | Rejected | RejectedAfter | StoppedBefore | StoppedAfter

  /** Whether the call's write is in the store afterwards. */
  predicate Reaches(outcome: CallOutcome) {
    outcome.Done? || outcome.RejectedAfter? || outcome.StoppedAfter?
  }

  datatype Fetch = Fetched(candles: seq<Candle>) | FetchThrew | FetchStopped

  /** Choices of the environment; index i belongs to the i-th record of the list. */
  datatype RunEnv = RunEnv(
    asOf: Option<int>,
    maxPerRun: int,
    calendar: Calendar,
    fetch: nat -> Fetch,
    priceCommit: nat -> CallOutcome,
    modelSave: nat -> CallOutcome,
    settleCommit: nat -> CallOutcome,
    finalCommit: CallOutcome,
    operationId: nat -> string)

  datatype Phase = Running | Stopped | ModelSaveFailed

  /** The durable stores together with the memory of the run. */
  datatype RunState = RunState(
    durable: Durable,
    updated: seq<Prediction>,
    model: Model,
    fetches: nat,
    dirty: bool,
    processed: nat,
    calendarPending: nat,
    pending: nat,
    skipped: nat,
    phase: Phase)

  function LoadedModel(l: Learner, m: Option<Model>): Model {
    match m
    case None => DefaultModel(l)
    case Some(m) => m
  }

  function Loaded(l: Learner, d: Durable): RunState {
    RunState(d, d.predictions, LoadedModel(l, d.model), 0, false, 0, 0, 0, 0, Running)
  }

  // ----- store calls -----

  /** Writing the whole in-memory list to the prediction store. */
  function Committed(s: RunState, outcome: CallOutcome): RunState {
    match outcome
    case Done => s.(durable := s.durable.(predictions := s.updated))
    case Rejected => s
    case RejectedAfter => s.(durable := s.durable.(predictions := s.updated))
    case StoppedBefore => s.(phase := Stopped)
    case StoppedAfter => s.(durable := s.durable.(predictions := s.updated), phase := Stopped)
  }

  function ModelSaved(s: RunState, outcome: CallOutcome): RunState {
    match outcome
    case Done => s.(durable := s.durable.(model := Some(s.model)))
    case Rejected => s.(phase := ModelSaveFailed)
    case RejectedAfter => s.(durable := s.durable.(model := Some(s.model)), phase := ModelSaveFailed)
    case StoppedBefore => s.(phase := Stopped)
    case StoppedAfter => s.(durable := s.durable.(model := Some(s.model)), phase := Stopped)
  }

  // ----- the model step -----

  function Settled(p: Prediction): Prediction {
    p.(status := Evaluated, resolved := true, modelUpdate := Applied)
  }

  /** The in-memory record after the EVALUATED commit was rejected. */
  function Unsettled(before: Prediction): Prediction {
    before.(status := if before.status in {Evaluated, NoStatus} then ModelUpdatePending else before.status,
            resolved := false, modelUpdate := Queued)
  }

  /** The run never adds or drops a record, in memory or in the store. */
  predicate SameSize(s: RunState, r: RunState) {
    && |r.updated| == |s.updated|
    && (|r.durable.predictions| == |s.durable.predictions| || |r.durable.predictions| == |s.updated|)
  }

  function Settle(env: RunEnv, s: RunState, i: nat): (r: RunState)
    requires i < |s.updated|
    ensures SameSize(s, r)
  {
    var p := s.updated[i];
    var s' := Committed(s.(updated := s.updated[i := Settled(p)]), env.settleCommit(i));
    match env.settleCommit(i)
    case Done => s'.(processed := s.processed + 1)
    case Rejected => s'.(updated := s.updated[i := Unsettled(p)])
    case RejectedAfter => s'.(updated := s.updated[i := Unsettled(p)])
    case _ => s'
  }

  /** A record whose price may be learnt from or acknowledged at all. */
  predicate PassesGate(p: Prediction) {
    IsLegacy(p) || (p.targetStatus.Confirmed? && p.targetClose.Some?)
  }

  predicate CanLearn(p: Prediction) {
    HasModelInputs(p) && p.targetClose.Some?
  }

  function Outcome(p: Prediction): bool
    requires CanLearn(p)
  {
    p.targetClose.value > p.entry.value
  }

  function LearnedFrom(l: Learner, m: Model, p: Prediction): Model
    requires CanLearn(p)
  {
    Learned(l, m, p.id, p.operationId, p.features.value, Outcome(p))
  }

  function UpdateModel(l: Learner, env: RunEnv, s: RunState, i: nat): (r: RunState)
    requires i < |s.updated|
    ensures SameSize(s, r)
  {
    var p := s.updated[i];
    if !PassesGate(p) then s
    else if AlreadyApplied(s.model, p.id) then Settle(env, s, i)
    else if !CanLearn(p) then s
    else
      var hit := Hit(l, s.model.weights, p.features.value, Outcome(p));
      var s' := ModelSaved(s.(model := LearnedFrom(l, s.model, p),
                              updated := s.updated[i := p.(correct := Some(hit))]),
                           env.modelSave(i));
      if s'.phase.Running? then Settle(env, s', i) else s'
  }

  // ----- one record -----

  /** What to do with an unsettled record that owes no model step.
      `changed` is the dirty mark the edits on `p` leave. */
  datatype Plan =
    | NeedsCalendar(p: Prediction, changed: bool)
    | Wait(p: Prediction, changed: bool)
    | Due(p: Prediction, changed: bool, day: int)

  function CalendarPlan(p: Prediction, next: TargetDateStatus, changed: bool): Plan {
    var p' := CalendarAnnotated(p, next);
    NeedsCalendar(p', changed || p' != p)
  }

  /** The plan for a record that has a target date. */
  function DatedPlan(env: RunEnv, p: Prediction, changed: bool): (r: Plan)
    requires p.target.Some?
    ensures r.Due? ==> r.p == p && p.target == Some(Known(r.day)) && env.asOf.Some? && r.day <= env.asOf.value
    ensures r.Due? && p.base.Some? && p.base.value.Known? ==> p.base.value.day < r.day
  {
    var cal := env.calendar;
    if cal.listed && !cal.has(p.target.value) then CalendarPlan(p, NoTargetStatus, changed)
    else if p.target.value.Malformed? then CalendarPlan(p, NoTargetStatus, changed)
    else
      var day := p.target.value.day;
      if p.base.Some? && p.base.value.Known? && day <= p.base.value.day then
        Wait(p.(targetRejected := true), changed || !p.targetRejected)
      else if env.asOf.None? || env.asOf.value < day then
        var p' := WithStatus(p, Pending);
        Wait(p', changed || p' != p)
      else
        Due(p, changed, day)
  }

  /** A record whose target date the calendar has just supplied. */
  function Redated(p: Prediction, answer: CalendarAnswer): Prediction {
    var dated := p.(target := answer.target, targetStatus := if IsLegacy(p) then p.targetStatus else Confirmed);
    WithStatus(dated, Pending).(missing := answer.missing)
  }

  function PlanFor(env: RunEnv, p: Prediction): (r: Plan)
    ensures r.Due? ==> r.p.target == Some(Known(r.day)) && env.asOf.Some? && r.day <= env.asOf.value
    ensures r.Due? && r.p.base.Some? && r.p.base.value.Known? ==> r.p.base.value.day < r.day
  {
    if p.target.Some? then DatedPlan(env, p, false)
    else if p.horizonType != LEGACY_HORIZON || p.base.None? then CalendarPlan(p, NoTargetStatus, false)
    else
      var answer := env.calendar.legacyTarget(p.base.value);
      if answer.ok && answer.target.Some? then DatedPlan(env, Redated(p, answer), true)
      else CalendarPlan(p, StatusOfAnswer(answer), false)
  }

  /** A due record that cannot be scored this time. */
  function Postponed(s: RunState, i: nat): (r: RunState)
    requires i < |s.updated|
    ensures SameSize(s, r)
  {
    var p' := WithStatus(s.updated[i], Pending);
    s.(updated := s.updated[i := p'], dirty := s.dirty || p' != s.updated[i], pending := s.pending + 1)
  }

  /** Price first, then model, then EVALUATED. */
  function RecordPrice(l: Learner, env: RunEnv, s: RunState, i: nat, price: real): (r: RunState)
    requires i < |s.updated| && HasModelInputs(s.updated[i])
    ensures SameSize(s, r)
  {
    var scored := PriceRecorded(l, s.model.weights, s.updated[i], price, env.operationId(i));
    var s' := Committed(s.(updated := s.updated[i := scored]), env.priceCommit(i));
    match env.priceCommit(i)
    case Done => UpdateModel(l, env, s', i)
    case Rejected => s'.(pending := s.pending + 1)
    case RejectedAfter => s'.(pending := s.pending + 1)
    case _ => s'
  }

  /** The price the fetch for record i offers; a fetch that threw offers none. */
  function FetchedPrice(env: RunEnv, p: Prediction, i: nat, day: int): (r: Option<real>)
    requires env.asOf.Some?
    ensures r.Some? ==> HasModelInputs(p)
  {
    if env.fetch(i).Fetched? then ScoringPrice(p, env.fetch(i).candles, day, env.asOf.value) else None
  }

  function ScoreDue(l: Learner, env: RunEnv, s: RunState, i: nat, day: int): (r: RunState)
    requires i < |s.updated| && env.asOf.Some?
    ensures SameSize(s, r)
  {
    var s1 := s.(fetches := s.fetches + 1);
    if env.fetch(i).FetchStopped? then s1.(phase := Stopped)
    else
      match FetchedPrice(env, s.updated[i], i, day)
      case None => Postponed(s1, i)
      case Some(price) => RecordPrice(l, env, s1, i, price)
  }

  function Step(l: Learner, env: RunEnv, s: RunState, i: nat): (r: RunState)
    requires i < |s.updated|
    ensures SameSize(s, r)
  {
    var p := s.updated[i];
    if IsSettled(p) then s.(skipped := s.skipped + 1)
    else if AwaitsModel(p) then UpdateModel(l, env, s, i)
    else
      match PlanFor(env, p)
      case NeedsCalendar(p', changed) =>
        s.(updated := s.updated[i := p'], dirty := s.dirty || changed, calendarPending := s.calendarPending + 1)
      case Wait(p', changed) =>
        s.(updated := s.updated[i := p'], dirty := s.dirty || changed, pending := s.pending + 1)
      case Due(p', changed, day) =>
        var s1 := s.(updated := s.updated[i := p'], dirty := s.dirty || changed);
        if s.fetches >= env.maxPerRun then s1.(pending := s.pending + 1)
        else ScoreDue(l, env, s1, i, day)
  }

  /** The state after the first n records; a stopped or failed run does no further work. */
  function RunUpTo(l: Learner, env: RunEnv, d: Durable, n: nat): (s: RunState)
    requires n <= |d.predictions|
    ensures |s.updated| == |d.predictions| == |s.durable.predictions|
  {
    if n == 0 then Loaded(l, d)
    else
      var s := RunUpTo(l, env, d, n - 1);
      if s.phase.Running? then Step(l, env, s, n - 1) else s
  }

  /** The whole run, ending with one more commit when a status note is still unwritten. */
  function Run(l: Learner, env: RunEnv, d: Durable): RunState {
    var s := RunUpTo(l, env, d, |d.predictions|);
    if s.phase.Running? && s.dirty then Committed(s, env.finalCommit) else s
  }
}
