/** The daily-bar execution engine: validation of the whole input, the search for an entry, the
    same-bar ambiguity block, and the search for an exit under the stop-first rule.
    Prices are reals, dates are day numbers. */
module ExecutionModel {
  import opened Options
  import opened CivilDates

  /** A price field as found in a record; None when it is not a finite number. */
  type RawPrice = Option<real>

  predicate IsValidPrice(v: RawPrice) {
    v.Some? && v.value > 0.0
  }

  /** `wellShaped` gathers the field-presence, symbol, market-name, volume and finality checks. */
  datatype Candle = Candle(
    symbol: string,
    market: string,
    date: Option<int>,
    open: RawPrice,
    high: RawPrice,
    low: RawPrice,
    close: RawPrice,
    wellShaped: bool)

  datatype OrderType = MarketOpen | LimitBuy | OtherOrder
  datatype ConflictPolicy = StopFirst | OtherPolicy

  /** `envelopeOk` gathers the version, mode, side, schema, fixture and tradeability checks. */
  datatype Input = Input(
    envelopeOk: bool,
    market: Option<string>,
    orderType: OrderType,
    limitPrice: RawPrice,
    limitGiven: bool,
    signal: Option<int>,
    earliest: Option<int>,
    stop: RawPrice,
    target: RawPrice,
    policy: ConflictPolicy,
    candles: seq<Candle>)

  datatype ErrorCode =
    | EnvelopeRejected
    | UnsupportedOrderType
    | InvalidLimitPrice
    | UnsupportedConflictPolicy
    | InvalidPrice
    | InvalidTradingDate
    | SameDayExecution
    | InvalidExitPriceRelation
    | CandleRejected
    | DuplicateCandleRecord
    | NonMonotonicTradingDate
    | MixedExecutionMarkets
    | ExecutionMarketMismatch

  datatype ExecutionError = ExecutionError(code: ErrorCode, index: Option<nat>)

  // ----- validation -----

  predicate ConsistentPrices(c: Candle) {
    && IsValidPrice(c.open) && IsValidPrice(c.high) && IsValidPrice(c.low) && IsValidPrice(c.close)
    && c.high.value >= c.open.value && c.high.value >= c.close.value && c.high.value >= c.low.value
    && c.low.value <= c.open.value && c.low.value <= c.close.value
  }

  predicate CandleAccepted(c: Candle) {
    c.wellShaped && c.date.Some? && FIRST_DAY <= c.date.value <= LAST_DAY && ConsistentPrices(c)
  }

  /** Dates rise strictly within each symbol. */
  predicate RisesPerSymbol(candles: seq<Candle>) {
    forall i, j :: 0 <= i < j < |candles| && candles[i].symbol == candles[j].symbol && candles[i].date.Some? && candles[j].date.Some?
      ==> candles[i].date.value < candles[j].date.value
  }

  predicate OneMarket(candles: seq<Candle>, market: Option<string>) {
    forall i :: 0 <= i < |candles| ==>
      candles[i].market == candles[0].market && (market.Some? ==> candles[i].market == market.value)
  }

  predicate HeaderAccepted(x: Input) {
    && x.envelopeOk
    && !x.orderType.OtherOrder?
    && (x.orderType.MarketOpen? ==> !x.limitGiven)
    && (x.orderType.LimitBuy? ==> IsValidPrice(x.limitPrice))
    && x.policy.StopFirst?
    && IsValidPrice(x.stop) && IsValidPrice(x.target)
    && x.signal.Some? && x.earliest.Some? && x.signal.value < x.earliest.value
    && (x.orderType.LimitBuy? ==> x.stop.value < x.limitPrice.value < x.target.value)
  }

  predicate CandlesAccepted(candles: seq<Candle>) {
    RisesPerSymbol(candles) && forall i :: 0 <= i < |candles| ==> CandleAccepted(candles[i])
  }

  predicate Accepted(x: Input) {
    HeaderAccepted(x) && CandlesAccepted(x.candles) && OneMarket(x.candles, x.market)
  }

  method ValidateHeader(x: Input) returns (errors: seq<ExecutionError>)
    ensures errors == [] <==> HeaderAccepted(x)
  {
    errors := [];
    if !x.envelopeOk {
      errors := errors + [ExecutionError(EnvelopeRejected, None)];
    }
    if x.orderType.OtherOrder? {
      errors := errors + [ExecutionError(UnsupportedOrderType, None)];
    }
    if (x.orderType.MarketOpen? && x.limitGiven) || (x.orderType.LimitBuy? && !IsValidPrice(x.limitPrice)) {
      errors := errors + [ExecutionError(InvalidLimitPrice, None)];
    }
    if !x.policy.StopFirst? {
      errors := errors + [ExecutionError(UnsupportedConflictPolicy, None)];
    }
    if !IsValidPrice(x.stop) || !IsValidPrice(x.target) {
      errors := errors + [ExecutionError(InvalidPrice, None)];
    }
    if x.signal.None? || x.earliest.None? {
      errors := errors + [ExecutionError(InvalidTradingDate, None)];
    } else if !(x.signal.value < x.earliest.value) {
      errors := errors + [ExecutionError(SameDayExecution, None)];
    }
    if x.orderType.LimitBuy? && IsValidPrice(x.limitPrice) && IsValidPrice(x.stop) && IsValidPrice(x.target) {
      if !(x.stop.value < x.limitPrice.value < x.target.value) {
        errors := errors + [ExecutionError(InvalidExitPriceRelation, None)];
      }
    }
  }

  /** The ordering loop: the last date of each symbol and every (symbol, date) pair seen. */
  method ValidateCandles(candles: seq<Candle>) returns (errors: seq<ExecutionError>)
    ensures errors == [] <==> CandlesAccepted(candles)
  {
    hide CandlesAccepted, CandleAccepted, SeenExactly, LastDates;
    errors := [];
    var lastDateBySymbol: map<string, int> := map[];
    var seenPair: set<(string, int)> := {};
    EmptyOrder();
    for i := 0 to |candles|
      invariant errors == [] <==> CandlesAccepted(candles[..i])
      invariant errors == [] ==> SeenExactly(candles[..i], seenPair) && LastDates(candles[..i], lastDateBySymbol)
    {
      var c := candles[i];
      assert candles[..i+1] == candles[..i] + [c];
      if errors == [] && CandleAccepted(c) {
        OrderStep(candles[..i], c, seenPair, lastDateBySymbol);
      } else {
        RejectionStays(candles[..i], c);
      }
      if !CandleAccepted(c) {
        errors := errors + [ExecutionError(CandleRejected, Some(i))];
      }
      if c.date.Some? {
        var date := c.date.value;
        if (c.symbol, date) in seenPair {
          errors := errors + [ExecutionError(DuplicateCandleRecord, Some(i))];
        } else {
          seenPair := seenPair + {(c.symbol, date)};
          if c.symbol in lastDateBySymbol && date < lastDateBySymbol[c.symbol] {
            errors := errors + [ExecutionError(NonMonotonicTradingDate, Some(i))];
          }
        }
        lastDateBySymbol := lastDateBySymbol[c.symbol := date];
      }
    }
    assert candles[..|candles|] == candles;
  }

  lemma EmptyOrder()
    ensures CandlesAccepted([]) && SeenExactly([], {}) && LastDates([], map[])
  {
  }

  lemma RejectionStays(candles: seq<Candle>, c: Candle)
    requires !CandlesAccepted(candles) || !CandleAccepted(c)
    ensures !CandlesAccepted(candles + [c])
  {
    hide CandleAccepted;
    var more := candles + [c];
    assert more[|candles|] == c;
    if CandlesAccepted(more) {
      forall i | 0 <= i < |candles| ensures CandleAccepted(candles[i]) {
        assert more[i] == candles[i];
      }
      forall i, j | 0 <= i < j < |candles| && candles[i].symbol == candles[j].symbol && candles[i].date.Some? && candles[j].date.Some?
        ensures candles[i].date.value < candles[j].date.value
      {
        assert more[i] == candles[i] && more[j] == candles[j];
      }
    }
  }

  predicate KeepsOrder(c: Candle, seenPair: set<(string, int)>, last: map<string, int>)
    requires c.date.Some?
  {
    (c.symbol, c.date.value) !in seenPair && !(c.symbol in last && c.date.value < last[c.symbol])
  }

  /** The two memories decide the next candle exactly as comparison with every earlier one would. */
  lemma OrderStep(candles: seq<Candle>, c: Candle, seenPair: set<(string, int)>, last: map<string, int>)
    requires CandlesAccepted(candles) && CandleAccepted(c)
    requires SeenExactly(candles, seenPair) && LastDates(candles, last)
    ensures c.date.Some?
    ensures CandlesAccepted(candles + [c]) <==> KeepsOrder(c, seenPair, last)
    ensures KeepsOrder(c, seenPair, last) ==>
              SeenExactly(candles + [c], seenPair + {(c.symbol, c.date.value)})
              && LastDates(candles + [c], last[c.symbol := c.date.value])
  {
    hide CandleAccepted;
    assert c.date.Some? by { AcceptedHasDate(c); }
    var more := candles + [c];
    assert more[|candles|] == c;
    assert forall i :: 0 <= i < |candles| ==> more[i] == candles[i];
    if KeepsOrder(c, seenPair, last) {
      forall i | 0 <= i < |candles| && candles[i].symbol == c.symbol && candles[i].date.Some?
        ensures candles[i].date.value < c.date.value
      {
        assert candles[i].date.value <= last[c.symbol];
        assert (c.symbol, candles[i].date.value) in seenPair;
      }
      SeenGrows(candles, c, seenPair);
    } else if (c.symbol, c.date.value) in seenPair {
      var k :| 0 <= k < |candles| && candles[k].symbol == c.symbol && candles[k].date == Some(c.date.value);
      assert more[k].date.value >= more[|candles|].date.value;
    } else {
      var k :| 0 <= k < |candles| && candles[k].symbol == c.symbol && candles[k].date == Some(last[c.symbol]);
      assert more[k].date.value >= more[|candles|].date.value;
    }
  }

  lemma AcceptedHasDate(c: Candle)
    requires CandleAccepted(c)
    ensures c.date.Some?
  {
  }

  lemma SeenGrows(candles: seq<Candle>, c: Candle, seenPair: set<(string, int)>)
    requires SeenExactly(candles, seenPair) && c.date.Some?
    ensures SeenExactly(candles + [c], seenPair + {(c.symbol, c.date.value)})
  {
    var more := candles + [c];
    forall s, x
      ensures (s, x) in seenPair + {(c.symbol, c.date.value)}
         <==> exists k :: 0 <= k < |more| && more[k].symbol == s && more[k].date == Some(x)
    {
      if (s, x) in seenPair {
        var k :| 0 <= k < |candles| && candles[k].symbol == s && candles[k].date == Some(x);
        assert more[k] == candles[k];
      } else if s == c.symbol && x == c.date.value {
        assert more[|candles|] == c;
      }
    }
  }

  ghost predicate SeenExactly(candles: seq<Candle>, seenPair: set<(string, int)>) {
    forall s, x :: (s, x) in seenPair <==> exists k :: 0 <= k < |candles| && candles[k].symbol == s && candles[k].date == Some(x)
  }

  /** The map holds, for each symbol met, a date of that symbol no earlier than its others. */
  ghost predicate LastDates(candles: seq<Candle>, last: map<string, int>) {
    && (forall k :: 0 <= k < |candles| && candles[k].date.Some? ==>
          candles[k].symbol in last && candles[k].date.value <= last[candles[k].symbol])
    && forall s :: s in last ==> exists k :: 0 <= k < |candles| && candles[k].symbol == s && candles[k].date == Some(last[s])
  }

  method ValidateMarkets(candles: seq<Candle>, market: Option<string>) returns (errors: seq<ExecutionError>)
    ensures errors == [] <==> OneMarket(candles, market)
  {
    errors := [];
    var unique: seq<string> := [];
    for i := 0 to |candles|
      invariant forall k :: 0 <= k < i ==> candles[k].market in unique
      invariant forall m :: m in unique ==> exists k :: 0 <= k < i && candles[k].market == m
      invariant if i == 0 then unique == [] else |unique| > 0 && unique[0] == candles[0].market
      invariant forall a, b :: 0 <= a < b < |unique| ==> unique[a] != unique[b]
    {
      if candles[i].market !in unique {
        unique := unique + [candles[i].market];
      }
    }
    if |unique| > 1 {
      assert unique[1] in unique && unique[0] != unique[1];
      errors := [ExecutionError(MixedExecutionMarkets, None)];
    } else if |unique| == 1 && market.Some? && market.value != unique[0] {
      errors := [ExecutionError(ExecutionMarketMismatch, None)];
    }
  }

  /** The whole input is accepted exactly when it has no error of any kind. */
  method ValidateExecutionInput(x: Input) returns (errors: seq<ExecutionError>)
    ensures errors == [] <==> Accepted(x)
  {
    var header := ValidateHeader(x);
    var rows := ValidateCandles(x.candles);
    var markets := ValidateMarkets(x.candles, x.market);
    errors := header + rows + markets;
  }

  // ----- fills -----

  datatype EntryReason = OpenNextEligibleBar | LimitGapImprovement | LimitTouched

  datatype EntryAttempt = EntryRefused(code: ErrorCode) | NotFilledYet | Filled(price: real, reason: EntryReason)

  function MarketEntry(c: Candle): (r: EntryAttempt)
    ensures r.Filled? ==> r.price > 0.0
  {
    if !IsValidPrice(c.open) then EntryRefused(InvalidPrice)
    else Filled(c.open.value, OpenNextEligibleBar)
  }

  function LimitEntry(c: Candle, limit: RawPrice): (r: EntryAttempt)
    ensures r.Filled? ==> r.price > 0.0 && limit.Some? && r.price <= limit.value
  {
    if !IsValidPrice(limit) then EntryRefused(InvalidPrice)
    else if IsValidPrice(c.open) && c.open.value <= limit.value then Filled(c.open.value, LimitGapImprovement)
    else if IsValidPrice(c.open) && c.open.value > limit.value && IsValidPrice(c.low) && c.low.value <= limit.value
    then Filled(limit.value, LimitTouched)
    else NotFilledYet
  }

  datatype ExitReason = StopGap | TargetGapCapped | AmbiguousStopFirst | StopTouched | TargetTouched

  datatype ExitAttempt = ExitRefused(code: ErrorCode) | NoExit | Exited(price: real, reason: ExitReason)

  predicate IsStop(r: ExitReason) {
    r.StopGap? || r.AmbiguousStopFirst? || r.StopTouched?
  }

  predicate HitsStop(c: Candle, stop: RawPrice) {
    IsValidPrice(c.low) && IsValidPrice(stop) && c.low.value <= stop.value
  }

  predicate HitsTarget(c: Candle, target: RawPrice) {
    IsValidPrice(c.high) && IsValidPrice(target) && c.high.value >= target.value
  }

  function ConflictResolved(stop: RawPrice, target: RawPrice, policy: ConflictPolicy): ExitAttempt {
    if !policy.StopFirst? then ExitRefused(UnsupportedConflictPolicy)
    else if !IsValidPrice(stop) || !IsValidPrice(target) then ExitRefused(InvalidPrice)
    else Exited(stop.value, AmbiguousStopFirst)
  }

  function LongExit(c: Candle, stop: RawPrice, target: RawPrice, policy: ConflictPolicy): ExitAttempt {
    if !IsValidPrice(stop) || !IsValidPrice(target) then ExitRefused(InvalidPrice)
    else if !policy.StopFirst? then ExitRefused(UnsupportedConflictPolicy)
    else if IsValidPrice(c.open) && c.open.value <= stop.value then Exited(c.open.value, StopGap)
    else if IsValidPrice(c.open) && c.open.value >= target.value then Exited(target.value, TargetGapCapped)
    else if HitsStop(c, stop) && HitsTarget(c, target) then ConflictResolved(stop, target, policy)
    else if HitsStop(c, stop) then Exited(stop.value, StopTouched)
    else if HitsTarget(c, target) then Exited(target.value, TargetTouched)
    else NoExit
  }

  // ----- the engine -----

  datatype Entry = Entry(index: nat, price: real, reason: EntryReason)
  datatype Exit = Exit(index: nat, price: real, reason: ExitReason, change: real, rate: real)

  datatype Outcome =
    | Blocked
    | NoEligibleCandle
    | NotFilled
    | AmbiguousSequence(entry: Entry)
    | Simulated(entry: Entry, exit: Option<Exit>)

  /** The first candle at or after `from` whose date is at least `earliest`. */
  function EligibleFrom(candles: seq<Candle>, earliest: int, from: nat): Option<nat>
    requires from <= |candles|
    decreases |candles| - from
  {
    if from == |candles| then None
    else if candles[from].date.Some? && candles[from].date.value >= earliest then Some(from)
    else EligibleFrom(candles, earliest, from + 1)
  }

  function FirstLimitFill(candles: seq<Candle>, limit: RawPrice, from: nat): Option<Entry>
    requires from <= |candles|
    decreases |candles| - from
  {
    if from == |candles| then None
    else
      var attempt := LimitEntry(candles[from], limit);
      if attempt.Filled? then Some(Entry(from, attempt.price, attempt.reason))
      else FirstLimitFill(candles, limit, from + 1)
  }

  function FirstExit(x: Input, entryPrice: real, from: nat): Option<Exit>
    requires from <= |x.candles|
    decreases |x.candles| - from
  {
    if from == |x.candles| then None
    else
      var attempt := LongExit(x.candles[from], x.stop, x.target, x.policy);
      if attempt.Exited? then Some(ExitAt(from, attempt, entryPrice))
      else FirstExit(x, entryPrice, from + 1)
  }

  function ExitAt(index: nat, attempt: ExitAttempt, entryPrice: real): Exit
    requires attempt.Exited?
  {
    var change := attempt.price - entryPrice;
    Exit(index, attempt.price, attempt.reason, change, if entryPrice == 0.0 then 0.0 else change / entryPrice)
  }

  predicate SameBarAmbiguous(c: Candle, stop: RawPrice, target: RawPrice) {
    HitsStop(c, stop) || HitsTarget(c, target)
  }

  /** From a filled entry to the outcome. */
  function Held(x: Input, entry: Entry): Outcome
    requires entry.index < |x.candles|
  {
    if entry.reason.LimitTouched? && SameBarAmbiguous(x.candles[entry.index], x.stop, x.target) then AmbiguousSequence(entry)
    else Simulated(entry, FirstExit(x, entry.price, if entry.reason.LimitTouched? then entry.index + 1 else entry.index))
  }

  function FindEntry(x: Input, eligible: nat): Option<Entry>
    requires eligible < |x.candles|
    ensures var e := FindEntry(x, eligible); e.Some? ==> eligible <= e.value.index < |x.candles|
  {
    if x.orderType.MarketOpen? then
      var attempt := MarketEntry(x.candles[eligible]);
      if attempt.Filled? then Some(Entry(eligible, attempt.price, attempt.reason)) else None
    else
      FirstLimitFillBounds(x.candles, x.limitPrice, eligible);
      FirstLimitFill(x.candles, x.limitPrice, eligible)
  }

  lemma FirstLimitFillBounds(candles: seq<Candle>, limit: RawPrice, from: nat)
    requires from <= |candles|
    ensures var e := FirstLimitFill(candles, limit, from); e.Some? ==> from <= e.value.index < |candles|
    decreases |candles| - from
  {
  }

  lemma EligibleBounds(candles: seq<Candle>, earliest: int, from: nat)
    requires from <= |candles|
    ensures var e := EligibleFrom(candles, earliest, from); e.Some? ==> from <= e.value < |candles|
    decreases |candles| - from
  {
  }

  function Evaluate(x: Input): Outcome {
    if !Accepted(x) then Blocked
    else
      EligibleBounds(x.candles, x.earliest.value, 0);
      match EligibleFrom(x.candles, x.earliest.value, 0)
      case None => NoEligibleCandle
      case Some(eligible) =>
        match FindEntry(x, eligible)
        case None => NotFilled
        case Some(entry) =>
          if x.orderType.MarketOpen? && !(x.stop.value < entry.price < x.target.value) then Blocked
          else Held(x, entry)
  }

  method FindEligibleEntryCandle(candles: seq<Candle>, earliest: int) returns (index: Option<nat>)
    ensures index == EligibleFrom(candles, earliest, 0)
  {
    for i := 0 to |candles|
      invariant EligibleFrom(candles, earliest, 0) == EligibleFrom(candles, earliest, i)
    {
      if candles[i].date.Some? && candles[i].date.value >= earliest {
        return Some(i);
      }
    }
    index := None;
  }

  method SearchExit(x: Input, entryPrice: real, start: nat) returns (exit: Option<Exit>)
    requires start <= |x.candles| && entryPrice > 0.0 && HeaderAccepted(x)
    ensures exit == FirstExit(x, entryPrice, start)
  {
    for i := start to |x.candles|
      invariant FirstExit(x, entryPrice, start) == FirstExit(x, entryPrice, i)
    {
      var attempt := LongExit(x.candles[i], x.stop, x.target, x.policy);
      if attempt.Exited? {
        var change := attempt.price - entryPrice;
        return Some(Exit(i, attempt.price, attempt.reason, change, change / entryPrice));
      }
    }
    exit := None;
  }

  /** The engine's loops compute exactly Evaluate. */
  method EvaluateDailyBarExecution(x: Input) returns (outcome: Outcome)
    ensures outcome == Evaluate(x)
  {
    var errors := ValidateExecutionInput(x);
    if errors != [] {
      return Blocked;
    }
    var eligible := FindEligibleEntryCandle(x.candles, x.earliest.value);
    if eligible.None? {
      return NoEligibleCandle;
    }
    EligibleBounds(x.candles, x.earliest.value, 0);
    var entry: Option<Entry> := None;
    if x.orderType.MarketOpen? {
      var attempt := MarketEntry(x.candles[eligible.value]);
      if !attempt.Filled? {
        return Blocked;
      }
      entry := Some(Entry(eligible.value, attempt.price, attempt.reason));
    } else {
      var i := eligible.value;
      while i < |x.candles| && entry.None?
        invariant eligible.value <= i <= |x.candles|
        invariant entry.None? ==> FirstLimitFill(x.candles, x.limitPrice, eligible.value) == FirstLimitFill(x.candles, x.limitPrice, i)
        invariant entry.Some? ==> FirstLimitFill(x.candles, x.limitPrice, eligible.value) == entry && entry.value.price > 0.0
        decreases |x.candles| - i, if entry.None? then 1 else 0
      {
        var attempt := LimitEntry(x.candles[i], x.limitPrice);
        if attempt.Filled? {
          entry := Some(Entry(i, attempt.price, attempt.reason));
        } else {
          i := i + 1;
        }
      }
      if entry.None? {
        return NotFilled;
      }
      FirstLimitFillBounds(x.candles, x.limitPrice, eligible.value);
    }
    var filled := entry.value;
    assert FindEntry(x, eligible.value) == entry;
    if x.orderType.MarketOpen? && !(x.stop.value < filled.price < x.target.value) {
      return Blocked;
    }
    if filled.reason.LimitTouched? && SameBarAmbiguous(x.candles[filled.index], x.stop, x.target) {
      return AmbiguousSequence(filled);
    }
    var start := if filled.reason.LimitTouched? then filled.index + 1 else filled.index;
    var exit := SearchExit(x, filled.price, start);
    outcome := Simulated(filled, exit);
  }
}
