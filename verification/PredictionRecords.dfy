/** One stored prediction and the pure rules of predictor.js that move its status fields.
    Dates are day numbers; a stored date that does not parse is Malformed. */
module PredictionRecords {
  import opened Options
  import opened OnlineLearning

  const LEGACY_HORIZON := "LEGACY_7_CALENDAR_DAYS"
  const CALENDAR_MISSING := "krxTradingCalendar"

  datatype StoredDate = Known(day: int) | Malformed

  datatype EvaluationStatus =
    | NoStatus
    | Pending
    | PriceEvaluated
    | ModelUpdatePending
    | Evaluated
    | CalendarPending
    | CalendarRangeInsufficient
    | CalendarSourceConflict
    | TargetDateConfirmed

  /** NoTargetStatus marks a record written before target-date statuses existed. */
  datatype TargetDateStatus = NoTargetStatus | Confirmed | TargetPending | TargetOutOfRange | TargetConflict

  datatype ModelUpdateStatus = NotRequested | Queued | Applied

  datatype Prediction = Prediction(
    id: string,
    symbol: string,
    base: Option<StoredDate>,
    horizonType: string,
    horizonDays: Option<int>,
    modelVersion: string,
    featureVersion: string,
    features: Option<Features>,
    entry: Option<real>,
    target: Option<StoredDate>,
    targetStatus: TargetDateStatus,
    targetClose: Option<real>,
    status: EvaluationStatus,
    resolved: bool,
    correct: Option<bool>,
    actualUp: Option<bool>,
    modelUpdate: ModelUpdateStatus,
    operationId: Option<string>,
    missing: seq<string>,
    targetRejected: bool)

  predicate IsLegacy(p: Prediction) {
    p.targetStatus.NoTargetStatus?
  }

  predicate IsSettled(p: Prediction) {
    p.status.Evaluated? || p.resolved
  }

  /** Price recorded, model step still owed. */
  predicate AwaitsModel(p: Prediction) {
    p.status.PriceEvaluated? || p.status.ModelUpdatePending?
  }

  function Merged(base: seq<string>, extra: seq<string>): seq<string> {
    if extra == [] then base
    else
      var done := Merged(base, extra[..|extra|-1]);
      var item := extra[|extra|-1];
      if item in done then done else done + [item]
  }

  /** A status a record with a target-date status may be given; anything else becomes NoStatus. */
  function Sanitized(next: EvaluationStatus, targetStatus: TargetDateStatus, targetClose: Option<real>): EvaluationStatus {
    if next in {CalendarPending, CalendarRangeInsufficient, CalendarSourceConflict, TargetDateConfirmed} then NoStatus
    else if !targetStatus.Confirmed? then NoStatus
    else if next in {ModelUpdatePending, Evaluated} && targetClose.None? then NoStatus
    else next
  }

  function ConfirmedIffTarget(target: Option<StoredDate>, targetStatus: TargetDateStatus): TargetDateStatus {
    if target.Some? then Confirmed
    else if targetStatus.Confirmed? then TargetPending
    else targetStatus
  }

  /** Assigning an evaluation status: legacy records take it as is, others through Sanitized. */
  function WithStatus(p: Prediction, next: EvaluationStatus): Prediction {
    p.(status := if IsLegacy(p) then next else Sanitized(next, p.targetStatus, p.targetClose))
  }

  /** Clears the target of a record whose calendar cannot answer. `next` is the new
      target-date status, NoTargetStatus when the caller passes none. */
  function CalendarAnnotated(p: Prediction, next: TargetDateStatus): Prediction {
    var cleared := p.(target := None, missing := Merged(p.missing, [CALENDAR_MISSING]));
    if IsLegacy(p) then cleared.(status := CalendarPending)
    else
      cleared.(status := NoStatus,
               targetStatus := if !next.NoTargetStatus? then next
                               else if p.targetStatus.Confirmed? then TargetPending
                               else p.targetStatus)
  }

  // ----- calendars and candles, as far as scoring reads them -----

  datatype CalendarCode = NoCode | PendingCode | RangeCode | ConflictCode | DateFormatCode | HorizonCode

  datatype CalendarAnswer = CalendarAnswer(
    ok: bool,
    target: Option<StoredDate>,
    targetStatus: TargetDateStatus,
    code: CalendarCode,
    missing: seq<string>)

  datatype Calendar = Calendar(
    listed: bool,
    has: StoredDate -> bool,
    legacyTarget: StoredDate -> CalendarAnswer,
    addTradingDays: (StoredDate, int) -> CalendarAnswer)

  /** What every calendar the program builds promises: no target without success, and
      targets that parse. */
  predicate HonestAnswer(a: CalendarAnswer) {
    && (!a.ok ==> a.target.None?)
    && (a.target.Some? ==> a.target.value.Known?)
  }

  ghost predicate HonestCalendar(cal: Calendar) {
    && (forall d :: HonestAnswer(cal.legacyTarget(d)))
    && (forall d, n :: HonestAnswer(cal.addTradingDays(d, n)))
  }

  function StatusOfAnswer(a: CalendarAnswer): TargetDateStatus {
    if a.target.Some? then Confirmed
    else if a.targetStatus.Confirmed? then TargetPending
    else if !a.targetStatus.NoTargetStatus? then a.targetStatus
    else if a.code.RangeCode? then TargetOutOfRange
    else if a.code.ConflictCode? then TargetConflict
    else TargetPending
  }

  datatype Session = Open | Closed | UnknownSession

  datatype Candle = Candle(date: Option<int>, isFinal: Option<bool>, session: Session, close: Option<real>)

  /** Candle k is the first one dated exactly `day`. */
  ghost predicate FirstOn(candles: seq<Candle>, day: int, k: nat) {
    k < |candles| && candles[k].date == Some(day) && forall j :: 0 <= j < k ==> candles[j].date != Some(day)
  }

  /** The first candle dated exactly `day`; undated candles are skipped. */
  function TargetCandle(candles: seq<Candle>, day: int): (r: Option<Candle>)
    ensures r.Some? ==> exists k: nat :: FirstOn(candles, day, k) && candles[k] == r.value
    ensures r.None? ==> forall k: nat :: !FirstOn(candles, day, k) && (k < |candles| ==> candles[k].date != Some(day))
  {
    if candles == [] then None
    else if candles[0].date == Some(day) then assert FirstOn(candles, day, 0); Some(candles[0])
    else
      var r := TargetCandle(candles[1..], day);
      assert forall k: nat :: FirstOn(candles[1..], day, k) ==> FirstOn(candles, day, k + 1) && candles[k+1] == candles[1..][k];
      assert forall k :: 0 < k < |candles| ==> candles[k] == candles[1..][k-1];
      r
  }

  predicate IsFinalCandle(c: Candle, day: int, asOf: int) {
    if c.isFinal == Some(false) || c.session.Open? then false
    else if c.isFinal == Some(true) || c.session.Closed? then true
    else day < asOf
  }

  predicate HasModelInputs(p: Prediction) {
    p.features.Some? && p.entry.Some? && p.entry.value > 0.0
  }

  /** What it takes to score p at this price: the first candle of the day closes at it, is not
      flagged as running, and is flagged as final or is of a day before asOf; and p has features and
      an entry price. */
  ghost predicate OffersPrice(p: Prediction, candles: seq<Candle>, day: int, asOf: int, price: real) {
    && p.features.Some? && p.entry.Some? && p.entry.value > 0.0 && price > 0.0
    && exists k: nat ::
         && FirstOn(candles, day, k)
         && candles[k].close == Some(price)
         && candles[k].isFinal != Some(false) && !candles[k].session.Open?
         && (candles[k].isFinal == Some(true) || candles[k].session.Closed? || day < asOf)
  }

  /** The price at which a due prediction can be scored from the fetched candles. */
  function ScoringPrice(p: Prediction, candles: seq<Candle>, day: int, asOf: int): (r: Option<real>)
    ensures forall price :: OffersPrice(p, candles, day, asOf, price) <==> r == Some(price)
    ensures r.Some? ==> HasModelInputs(p) && r.value > 0.0
  {
    assert forall j: nat, k: nat :: FirstOn(candles, day, j) && FirstOn(candles, day, k) ==> j == k;
    match TargetCandle(candles, day)
    case None => None
    case Some(c) =>
      if !IsFinalCandle(c, day, asOf) then None
      else if c.close.None? || c.close.value <= 0.0 then None
      else if !HasModelInputs(p) then None
      else c.close
  }

  /** A prediction with its outcome recorded and the model step queued. */
  function PriceRecorded(l: Learner, w: Weights, p: Prediction, price: real, operationId: string): Prediction
    requires HasModelInputs(p)
  {
    var up := price > p.entry.value;
    WithStatus(p.(resolved := false, targetClose := Some(price), actualUp := Some(up),
                  correct := Some(Hit(l, w, p.features.value, up)),
                  operationId := Some(operationId), modelUpdate := Queued),
               ModelUpdatePending)
  }
}
