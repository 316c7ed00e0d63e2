/** Lists that mix symbols. Neither the entry search nor the exit search looks at the symbol, so on
    such lists orders can fill before they may execute and exit before they were entered. */
module MixedSymbols {
  import opened Options
  import opened CivilDates
  import opened ExecutionModel
  import opened ExecutionTheorems

  // ----- fills before the earliest date -----

  /** A bar dated before the earliest execution date, after the first eligible one, whose low
      is below the low of every bar from the first eligible one on. */
  predicate EarlyLow(candles: seq<Candle>, earliest: int, eligible: nat, j: nat) {
    && eligible < j < |candles| && candles[j].date.Some? && candles[j].date.value < earliest
    && candles[j].low.Some?
    && forall k :: eligible <= k < j && candles[k].low.Some? ==> candles[j].low.value < candles[k].low.value
  }

  predicate HasEarlyLow(candles: seq<Candle>, earliest: int) {
    var eligible := EligibleFrom(candles, earliest, 0);
    eligible.Some? && exists j :: 0 <= j < |candles| && EarlyLow(candles, earliest, eligible.value, j)
  }

  /** Some accepted limit order on these bars is filled on a bar before its earliest date. */
  ghost predicate SomeEarlyFill(candles: seq<Candle>, earliest: int) {
    exists x: Input :: x.candles == candles && x.earliest == Some(earliest) && x.orderType.LimitBuy? && FillsEarly(x)
  }

  predicate FillsEarly(x: Input) {
    && x.earliest.Some?
    && (Evaluate(x).Simulated? || Evaluate(x).AmbiguousSequence?)
    && Evaluate(x).entry.index < |x.candles|
    && var date := x.candles[Evaluate(x).entry.index].date;
       date.Some? && date.value < x.earliest.value
  }

  lemma LimitOutcome(x: Input, e: nat)
    requires Accepted(x) && x.orderType.LimitBuy? && EligibleFrom(x.candles, x.earliest.value, 0) == Some(e)
    ensures e < |x.candles|
    ensures var fill := FirstLimitFill(x.candles, x.limitPrice, e);
            if fill.Some? then (Evaluate(x).Simulated? || Evaluate(x).AmbiguousSequence?) && Evaluate(x).entry == fill.value
            else Evaluate(x).NotFilled?
  {
    hide LongExit, LimitEntry;
    EligibleBounds(x.candles, x.earliest.value, 0);
    FirstLimitFillBounds(x.candles, x.limitPrice, e);
  }

  lemma FillIffLowReaches(c: Candle, limit: real)
    requires ConsistentPrices(c) && limit > 0.0
    ensures LimitEntry(c, Some(limit)).Filled? <==> c.low.value <= limit
  {
  }

  /** The entry search does not filter by symbol: on an accepted list some limit order fills
      before its earliest date exactly when the list has an early low. */
  lemma EarlyFillIffEarlyLow(candles: seq<Candle>, earliest: int)
    requires CandlesAccepted(candles) && OneMarket(candles, None)
    ensures SomeEarlyFill(candles, earliest) <==> HasEarlyLow(candles, earliest)
  {
    hide Evaluate, LimitEntry;
    if HasEarlyLow(candles, earliest) {
      EarlyLowFillsEarly(candles, earliest);
    }
    if SomeEarlyFill(candles, earliest) {
      var x: Input :| x.candles == candles && x.earliest == Some(earliest) && x.orderType.LimitBuy? && FillsEarly(x);
      EarlyFillHasEarlyLow(x);
    }
  }

  lemma EarlyLowFillsEarly(candles: seq<Candle>, earliest: int)
    requires CandlesAccepted(candles) && OneMarket(candles, None) && HasEarlyLow(candles, earliest)
    ensures SomeEarlyFill(candles, earliest)
  {
    hide Evaluate, LimitEntry;
    EligibleIsFirst(candles, earliest, 0);
    var e := EligibleFrom(candles, earliest, 0).value;
    var j :| 0 <= j < |candles| && EarlyLow(candles, earliest, e, j);
    assert CandleAccepted(candles[j]);
    var low := candles[j].low.value;
    var x := Input(true, None, LimitBuy, Some(low), true, Some(earliest - 1), Some(earliest),
                   Some(low / 2.0), Some(low + 1.0), StopFirst, candles);
    assert Accepted(x);
    LimitOutcome(x, e);
    LimitFillIsFirst(candles, x.limitPrice, e);
    forall k | e <= k <= j ensures LimitEntry(candles[k], x.limitPrice).Filled? <==> k == j {
      assert CandleAccepted(candles[k]);
      FillIffLowReaches(candles[k], low);
    }
    assert FillsEarly(x);
  }

  lemma EarlyFillHasEarlyLow(x: Input)
    requires x.orderType.LimitBuy? && FillsEarly(x)
    ensures HasEarlyLow(x.candles, x.earliest.value)
  {
    hide LongExit, LimitEntry, Held;
    assert Accepted(x);
    EligibleIsFirst(x.candles, x.earliest.value, 0);
    var e := EligibleFrom(x.candles, x.earliest.value, 0).value;
    LimitOutcome(x, e);
    LimitFillIsFirst(x.candles, x.limitPrice, e);
    var j := Evaluate(x).entry.index;
    forall k | e <= k <= j ensures LimitEntry(x.candles[k], x.limitPrice).Filled? <==> x.candles[k].low.value <= x.limitPrice.value {
      assert CandleAccepted(x.candles[k]);
      FillIffLowReaches(x.candles[k], x.limitPrice.value);
    }
    assert EarlyLow(x.candles, x.earliest.value, e, j);
  }

  /** One symbol has no early low, so its orders never fill early. */
  lemma OneSymbolNeverEarly(candles: seq<Candle>, earliest: int)
    requires CandlesAccepted(candles) && OneSymbol(candles)
    ensures !HasEarlyLow(candles, earliest)
  {
    EligibleIsFirst(candles, earliest, 0);
  }

  /** Two accepted bars of different symbols: the order may execute from day 5 on, and fills on
      a bar of day 0, before its own signal. */
  lemma MixedSymbolsFillBeforeTheSignal()
    ensures exists x: Input :: Accepted(x) && x.orderType.LimitBuy? && FillsEarly(x)
                               && x.candles[Evaluate(x).entry.index].date.value < x.signal.value
  {
    hide Evaluate, LongExit, DayNumber;
    var day := FIRST_DAY;
    var a := Candle("SYNTH-A", "SYNTHETIC_MARKET", Some(day + 5), Some(100.0), Some(110.0), Some(90.0), Some(100.0), true);
    var b := Candle("SYNTH-B", "SYNTHETIC_MARKET", Some(day), Some(70.0), Some(80.0), Some(50.0), Some(60.0), true);
    var x := Input(true, None, LimitBuy, Some(60.0), true, Some(day + 4), Some(day + 5), Some(10.0), Some(200.0), StopFirst, [a, b]);
    SyntheticSpan();
    assert Accepted(x);
    assert EligibleFrom(x.candles, day + 5, 0) == Some(0);
    assert FirstLimitFill(x.candles, Some(60.0), 0) == FirstLimitFill(x.candles, Some(60.0), 1) == Some(Entry(1, 60.0, LimitTouched));
    LimitOutcome(x, 0);
    assert FillsEarly(x) && x.candles[Evaluate(x).entry.index].date.value < x.signal.value;
  }

  // ----- exits before the entry -----

  /** The first bar of its date or later: some earliest date makes it the first eligible one. */
  predicate LatestSoFar(candles: seq<Candle>, m: nat) {
    && m < |candles| && candles[m].date.Some?
    && forall k :: 0 <= k < m && candles[k].date.Some? ==> candles[k].date.value < candles[m].date.value
  }

  predicate Low(candles: seq<Candle>, from: nat, j: nat) {
    j < |candles| && candles[j].low.Some? && forall k :: from <= k < j && candles[k].low.Some? ==> candles[j].low.value < candles[k].low.value
  }

  predicate High(candles: seq<Candle>, from: nat, j: nat) {
    j < |candles| && candles[j].high.Some? && forall k :: from <= k < j && candles[k].high.Some? ==> candles[k].high.value < candles[j].high.value
  }

  /** A bar at which an order can be filled: a new low since some bar that is the latest so far. */
  ghost predicate Enterable(candles: seq<Candle>, e: nat) {
    exists m: nat :: m <= e && LatestSoFar(candles, m) && Low(candles, m, e)
  }

  /** A bar dated before an earlier, enterable one, with a new low or a new high since that one. */
  ghost predicate EarlyExtreme(candles: seq<Candle>, e: nat, j: nat) {
    && e < j < |candles| && candles[e].date.Some? && candles[j].date.Some?
    && candles[j].date.value < candles[e].date.value
    && Enterable(candles, e) && (Low(candles, e, j) || High(candles, e, j))
  }

  ghost predicate HasEarlyExtreme(candles: seq<Candle>) {
    exists e: nat, j: nat :: EarlyExtreme(candles, e, j)
  }

  predicate ExitsEarly(x: Input) {
    && Evaluate(x).Simulated? && Evaluate(x).exit.Some?
    && Evaluate(x).entry.index < |x.candles| && Evaluate(x).exit.value.index < |x.candles|
    && var entry, exit := x.candles[Evaluate(x).entry.index].date, x.candles[Evaluate(x).exit.value.index].date;
       entry.Some? && exit.Some? && exit.value < entry.value
  }

  /** Some accepted order on these bars exits on a bar dated before its entry. */
  ghost predicate SomeEarlyExit(candles: seq<Candle>) {
    exists x: Input :: x.candles == candles && ExitsEarly(x)
  }

  lemma ExitIffReaches(c: Candle, stop: real, target: real)
    requires ConsistentPrices(c) && stop > 0.0 && target > 0.0
    ensures LongExit(c, Some(stop), Some(target), StopFirst).Exited? <==> c.low.value <= stop || c.high.value >= target
    ensures SameBarAmbiguous(c, Some(stop), Some(target)) <==> c.low.value <= stop || c.high.value >= target
  {
  }

  /** The exit search does not filter by symbol: on an accepted list some order exits on a bar
      dated before its entry exactly when the list has an early extreme. */
  lemma EarlyExitIffEarlyExtreme(candles: seq<Candle>)
    requires CandlesAccepted(candles) && OneMarket(candles, None)
    ensures SomeEarlyExit(candles) <==> HasEarlyExtreme(candles)
  {
    hide Evaluate, ExitsEarly, EarlyExtreme, CandlesAccepted, OneMarket;
    if e: nat, j: nat :| EarlyExtreme(candles, e, j) {
      var x := EarlyExtremeExitsEarly(candles, e, j);
    }
    if x: Input :| x.candles == candles && ExitsEarly(x) {
      EarlyExitHasEarlyExtreme(x);
    }
  }

  lemma EntryIsEnterable(x: Input)
    requires Evaluate(x).Simulated?
    ensures Enterable(x.candles, Evaluate(x).entry.index)
  {
    hide LongExit, LimitEntry, MarketEntry, FirstExit, SameBarAmbiguous;
    assert Accepted(x);
    EligibleIsFirst(x.candles, x.earliest.value, 0);
    var m := EligibleFrom(x.candles, x.earliest.value, 0).value;
    var e := Evaluate(x).entry.index;
    assert LatestSoFar(x.candles, m);
    assert CandleAccepted(x.candles[m]) && CandleAccepted(x.candles[e]);
    if x.orderType.MarketOpen? {
      assert e == m;
    } else {
      LimitOutcome(x, m);
      LimitFillIsFirst(x.candles, x.limitPrice, m);
      forall k | m <= k <= e
        ensures x.candles[k].low.Some? && (LimitEntry(x.candles[k], x.limitPrice).Filled? <==> x.candles[k].low.value <= x.limitPrice.value)
      {
        assert CandleAccepted(x.candles[k]);
        FillIffLowReaches(x.candles[k], x.limitPrice.value);
      }
    }
    assert Low(x.candles, m, e);
  }

  lemma EarlyExitHasEarlyExtreme(x: Input)
    requires ExitsEarly(x)
    ensures HasEarlyExtreme(x.candles)
  {
    hide LongExit, LimitEntry, MarketEntry, ExitAt, Enterable, Evaluate, SameBarAmbiguous, ExitsOn;
    TradeShape(x);
    ExitOrigin(x);
    EntryIsEnterable(x);
    var Simulated(entry, Some(exit)) := Evaluate(x);
    var e, j := entry.index, exit.index;
    NoAmbiguousEntry(x);
    AcceptedHeader(x);
    forall k | e <= k <= j
      ensures x.candles[k].low.Some? && x.candles[k].high.Some?
      ensures k < j ==> x.candles[k].low.value > x.stop.value && x.candles[k].high.value < x.target.value
      ensures k == j ==> x.candles[k].low.value <= x.stop.value || x.candles[k].high.value >= x.target.value
    {
      BarReaches(x, k);
      assert k < j && (entry.reason.LimitTouched? ==> e < k) ==> !ExitsOn(x, k);
    }
    assert EarlyExtreme(x.candles, e, j);
  }

  lemma BarReaches(x: Input, k: nat)
    requires Accepted(x) && k < |x.candles|
    ensures HeaderAccepted(x) && ConsistentPrices(x.candles[k]) && x.candles[k].date.Some?
    ensures var c := x.candles[k];
            var reached := c.low.value <= x.stop.value || c.high.value >= x.target.value;
            (ExitsOn(x, k) <==> reached) && (SameBarAmbiguous(c, x.stop, x.target) <==> reached)
  {
    assert CandleAccepted(x.candles[k]);
    assert x.policy == StopFirst && x.stop == Some(x.stop.value) && x.target == Some(x.target.value);
    ExitIffReaches(x.candles[k], x.stop.value, x.target.value);
  }

  lemma NoAmbiguousEntry(x: Input)
    requires Evaluate(x).Simulated? && Evaluate(x).entry.index < |x.candles|
    ensures Evaluate(x).entry.reason.LimitTouched? ==> !SameBarAmbiguous(x.candles[Evaluate(x).entry.index], x.stop, x.target)
  {
    hide LongExit, LimitEntry, MarketEntry, Accepted, FirstExit, SameBarAmbiguous;
  }

  lemma {:induction false} AboveHighs(candles: seq<Candle>, n: nat, least: real) returns (t: real)
    requires n <= |candles|
    ensures t > least && forall k :: 0 <= k < n && candles[k].high.Some? ==> t > candles[k].high.value
  {
    t := least + 1.0;
    if n > 0 {
      t := AboveHighs(candles, n - 1, least);
      if candles[n-1].high.Some? && candles[n-1].high.value >= t {
        t := candles[n-1].high.value + 1.0;
      }
    }
  }

  lemma {:induction false} BelowLows(candles: seq<Candle>, n: nat) returns (t: real)
    requires n <= |candles| && forall k :: 0 <= k < n ==> IsValidPrice(candles[k].low)
    ensures t > 0.0 && forall k :: 0 <= k < n ==> candles[k].low.Some? && t < candles[k].low.value
  {
    t := 1.0;
    if n > 0 {
      t := BelowLows(candles, n - 1);
      if candles[n-1].low.value <= t {
        t := candles[n-1].low.value / 2.0;
      }
    }
  }

  /** A limit order at the low of bar e, first eligible at bar m. */
  function OrderAt(candles: seq<Candle>, m: nat, e: nat, stop: real, target: real): Input
    requires m < |candles| && e < |candles| && candles[m].date.Some?
  {
    Input(true, None, LimitBuy, candles[e].low, true, Some(candles[m].date.value - 1), candles[m].date, Some(stop), Some(target), StopFirst, candles)
  }

  lemma OrderEnters(candles: seq<Candle>, m: nat, e: nat, stop: real, target: real)
    requires CandlesAccepted(candles) && OneMarket(candles, None) && m <= e < |candles|
    requires LatestSoFar(candles, m) && Low(candles, m, e)
    requires 0.0 < stop < candles[e].low.value && candles[e].high.Some? && candles[e].high.value < target
    ensures var x := OrderAt(candles, m, e, stop, target);
            && Accepted(x) && Evaluate(x).Simulated? && Evaluate(x).entry.index == e
            && var entry := Evaluate(x).entry;
               Evaluate(x).exit == FirstExit(x, entry.price, if entry.reason.LimitTouched? then e + 1 else e)
  {
    hide LongExit, LimitEntry, FirstExit;
    var x := OrderAt(candles, m, e, stop, target);
    assert CandleAccepted(candles[e]);
    assert Accepted(x);
    EligibleIsFirst(candles, candles[m].date.value, 0);
    assert EligibleFrom(candles, candles[m].date.value, 0) == Some(m);
    LimitFillIsFirst(candles, x.limitPrice, m);
    forall k | m <= k <= e ensures LimitEntry(candles[k], x.limitPrice).Filled? <==> k == e {
      assert CandleAccepted(candles[k]);
      FillIffLowReaches(candles[k], candles[e].low.value);
    }
    LimitOutcome(x, m);
    ExitIffReaches(candles[e], stop, target);
  }

  lemma OrderExits(candles: seq<Candle>, m: nat, e: nat, j: nat, stop: real, target: real)
    requires CandlesAccepted(candles) && OneMarket(candles, None) && m <= e < j < |candles|
    requires LatestSoFar(candles, m) && Low(candles, m, e) && 0.0 < stop && 0.0 < target
    requires forall k :: e <= k < j ==> candles[k].low.Some? && stop < candles[k].low.value && candles[k].high.Some? && candles[k].high.value < target
    requires candles[j].low.Some? && candles[j].high.Some? && (candles[j].low.value <= stop || candles[j].high.value >= target)
    ensures var x := OrderAt(candles, m, e, stop, target);
            && Evaluate(x).Simulated? && Evaluate(x).entry.index == e && Evaluate(x).exit.Some? && Evaluate(x).exit.value.index == j
  {
    hide LongExit, Evaluate, FirstExit, Low, LatestSoFar;
    var x := OrderAt(candles, m, e, stop, target);
    OrderEnters(candles, m, e, stop, target);
    var entry := Evaluate(x).entry;
    var start := if entry.reason.LimitTouched? then e + 1 else e;
    ExitIsFirst(x, entry.price, start);
    forall k | start <= k <= j ensures ExitsOn(x, k) <==> k == j {
      assert CandleAccepted(candles[k]);
      ExitIffReaches(candles[k], stop, target);
    }
    assert ExitsOn(x, j);
  }

  lemma EarlyExtremeExitsEarly(candles: seq<Candle>, e: nat, j: nat) returns (x: Input)
    requires CandlesAccepted(candles) && OneMarket(candles, None) && EarlyExtreme(candles, e, j)
    ensures x.candles == candles && ExitsEarly(x)
  {
    hide Evaluate, OneMarket, CandlesAccepted;
    var m: nat :| m <= e && LatestSoFar(candles, m) && Low(candles, m, e);
    AllPriced(candles);
    var stop, target;
    if Low(candles, e, j) {
      stop := candles[j].low.value;
      target := AboveHighs(candles, j, 0.0);
    } else {
      stop := BelowLows(candles, j);
      target := candles[j].high.value;
    }
    OrderExits(candles, m, e, j, stop, target);
    x := OrderAt(candles, m, e, stop, target);
  }

  lemma AllPriced(candles: seq<Candle>)
    requires CandlesAccepted(candles)
    ensures forall k :: 0 <= k < |candles| ==> IsValidPrice(candles[k].low) && IsValidPrice(candles[k].high)
  {
    forall k | 0 <= k < |candles| ensures IsValidPrice(candles[k].low) && IsValidPrice(candles[k].high) {
      assert CandleAccepted(candles[k]);
    }
  }

  /** One symbol has no early extreme, so its orders never exit before their entry. */
  lemma OneSymbolNeverExitsEarly(candles: seq<Candle>)
    requires CandlesAccepted(candles) && OneSymbol(candles)
    ensures !HasEarlyExtreme(candles)
  {
  }

  /** Two accepted bars of different symbols: an order enters on day 5 and exits on day 0. */
  lemma MixedSymbolsExitBeforeTheEntry()
    ensures exists x: Input :: Accepted(x) && ExitsEarly(x)
  {
    var day := FIRST_DAY;
    SyntheticSpan();
    var a := Candle("SYNTH-A", "SYNTHETIC_MARKET", Some(day + 5), Some(100.0), Some(110.0), Some(90.0), Some(100.0), true);
    var b := Candle("SYNTH-B", "SYNTHETIC_MARKET", Some(day), Some(70.0), Some(80.0), Some(50.0), Some(60.0), true);
    var candles := [a, b];
    assert LatestSoFar(candles, 0) && Low(candles, 0, 0) && Low(candles, 0, 1);
    assert Enterable(candles, 0);
    assert EarlyExtreme(candles, 0, 1);
    var x := EarlyExtremeExitsEarly(candles, 0, 1);
    TradeShape(x);
  }
}
