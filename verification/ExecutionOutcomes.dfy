/** Which outcome the daily-bar engine gives to every input, said on dates and prices alone. */
module ExecutionOutcomes {
  import opened Options
  import opened ExecutionModel
  import opened ExecutionTheorems

  /** Bar k reaches the stop or the target. */
  predicate Reaches(x: Input, k: nat)
    requires Accepted(x) && k < |x.candles|
  {
    AcceptedBar(x, k);
    x.candles[k].low.value <= x.stop.value || x.candles[k].high.value >= x.target.value
  }

  lemma AcceptedBar(x: Input, k: nat)
    requires Accepted(x) && k < |x.candles|
    ensures x.candles[k].date.Some? && ConsistentPrices(x.candles[k])
    ensures IsValidPrice(x.stop) && IsValidPrice(x.target) && x.policy == StopFirst && x.earliest.Some?
    ensures x.orderType.LimitBuy? ==> IsValidPrice(x.limitPrice)
  {
    assert CandleAccepted(x.candles[k]);
  }

  /** The first bar dated at or after the earliest date. */
  ghost predicate FirstLate(x: Input, e: nat)
    requires Accepted(x)
  {
    && e < |x.candles| && x.candles[e].date.Some? && x.earliest.Some? && x.candles[e].date.value >= x.earliest.value
    && forall k :: 0 <= k < e && x.candles[k].date.Some? ==> x.candles[k].date.value < x.earliest.value
  }

  /** The first bar from e on whose low is at most the limit. */
  ghost predicate FirstCheap(x: Input, e: nat, f: nat)
    requires Accepted(x) && x.limitPrice.Some?
  {
    && e <= f < |x.candles| && x.candles[f].low.Some? && x.candles[f].low.value <= x.limitPrice.value
    && forall k :: e <= k < f && x.candles[k].low.Some? ==> x.candles[k].low.value > x.limitPrice.value
  }

  lemma OneFirstCheap(x: Input, e: nat, f: nat, g: nat)
    requires Accepted(x) && x.limitPrice.Some? && FirstCheap(x, e, f) && FirstCheap(x, e, g)
    ensures f == g
  {
  }

  // ----- before any bar is looked at -----

  /** Rejected inputs are blocked, and accepted ones without a late enough bar have no eligible one. */
  lemma NoBarOutcome(x: Input)
    ensures !Accepted(x) ==> Evaluate(x).Blocked?
    ensures Accepted(x) ==> (Evaluate(x).NoEligibleCandle? <==> forall e: nat :: !FirstLate(x, e))
  {
    if Accepted(x) {
      hide Held, FindEntry;
      AcceptedHeader(x);
      EligibleIsFirst(x.candles, x.earliest.value, 0);
      var e := EligibleFrom(x.candles, x.earliest.value, 0);
      if e.Some? {
        assert FirstLate(x, e.value);
      } else {
        forall e: nat ensures !FirstLate(x, e) {
        }
      }
    }
  }

  lemma FirstLateIsEligible(x: Input, e: nat)
    requires Accepted(x) && FirstLate(x, e)
    ensures EligibleFrom(x.candles, x.earliest.value, 0) == Some(e)
  {
    EligibleIsFirst(x.candles, x.earliest.value, 0);
  }

  // ----- market orders -----

  /** A market order enters at the open of the first late bar, exactly if that lies strictly between
      stop and target, and is blocked otherwise; it is never ambiguous. */
  lemma MarketOutcome(x: Input, e: nat)
    requires Accepted(x) && x.orderType.MarketOpen? && FirstLate(x, e)
    ensures x.candles[e].open.Some?
    ensures var open := x.candles[e].open.value;
            if x.stop.value < open < x.target.value
            then Evaluate(x).Simulated? && Evaluate(x).entry == Entry(e, open, OpenNextEligibleBar)
            else Evaluate(x).Blocked?
  {
    AcceptedBar(x, e);
    FirstLateIsEligible(x, e);
    hide FirstExit, SameBarAmbiguous, Accepted;
  }

  // ----- limit orders -----

  /** No fill without a bar whose low is at most the limit. */
  lemma LimitUnfilled(x: Input, e: nat)
    requires Accepted(x) && x.orderType.LimitBuy? && x.limitPrice.Some? && FirstLate(x, e)
    ensures Evaluate(x).NotFilled? <==> forall k :: e <= k < |x.candles| && x.candles[k].low.Some? ==> x.candles[k].low.value > x.limitPrice.value
  {
    hide Held, LimitEntry, Accepted;
    FirstLateIsEligible(x, e);
    LimitFillIsFirst(x.candles, x.limitPrice, e);
    forall k | e <= k < |x.candles|
      ensures x.candles[k].low.Some? && (LimitEntry(x.candles[k], x.limitPrice).Filled? <==> x.candles[k].low.value <= x.limitPrice.value)
    {
      CheapBarFills(x, k);
    }
    HeldIsNoMiss(x);
  }

  lemma HeldIsNoMiss(x: Input)
    ensures forall entry: Entry :: entry.index < |x.candles| ==> !Held(x, entry).NotFilled? && !Held(x, entry).NoEligibleCandle? && !Held(x, entry).Blocked?
  {
  }

  /** What a bar offers a limit order. */
  lemma CheapBarFills(x: Input, k: nat)
    requires Accepted(x) && x.orderType.LimitBuy? && k < |x.candles|
    ensures x.candles[k].low.Some? && x.candles[k].open.Some? && x.limitPrice.Some?
    ensures var c, limit := x.candles[k], x.limitPrice.value;
            LimitEntry(c, x.limitPrice) == if c.low.value > limit then NotFilledYet
                                           else if c.open.value <= limit then Filled(c.open.value, LimitGapImprovement)
                                           else Filled(limit, LimitTouched)
  {
    AcceptedBar(x, k);
  }

  /** A limit order fills on the first late bar whose low is at most the limit: at the open if that is
      at most the limit, and then the trade is always simulated; else at the limit inside the bar,
      and then the trade is ambiguous exactly if the bar also reaches the stop or the target. */
  lemma LimitFilled(x: Input, e: nat, f: nat)
    requires Accepted(x) && x.orderType.LimitBuy? && x.limitPrice.Some? && FirstLate(x, e) && FirstCheap(x, e, f)
    ensures x.candles[f].open.Some?
    ensures var open, limit := x.candles[f].open.value, x.limitPrice.value;
            if open <= limit then Evaluate(x).Simulated? && Evaluate(x).entry == Entry(f, open, LimitGapImprovement)
            else if Reaches(x, f) then Evaluate(x) == AmbiguousSequence(Entry(f, limit, LimitTouched))
            else Evaluate(x).Simulated? && Evaluate(x).entry == Entry(f, limit, LimitTouched)
  {
    FirstLateIsEligible(x, e);
    LimitFillIsFirst(x.candles, x.limitPrice, e);
    forall k | e <= k <= f ensures LimitEntry(x.candles[k], x.limitPrice).Filled? <==> k == f {
      CheapBarFills(x, k);
    }
    CheapBarFills(x, f);
    ReachesOnPrices(x, f);
    hide FirstExit, SameBarAmbiguous, LimitEntry, Accepted, Reaches;
  }

  lemma ReachesOnPrices(x: Input, k: nat)
    requires Accepted(x) && k < |x.candles|
    ensures SameBarAmbiguous(x.candles[k], x.stop, x.target) <==> Reaches(x, k)
    ensures ExitsOn(x, k) <==> Reaches(x, k)
  {
    AcceptedBar(x, k);
  }

  // ----- exits -----

  /** The price and reason of an exit on a bar that reaches stop or target. */
  function ExitOf(x: Input, k: nat): (real, ExitReason)
    requires Accepted(x) && k < |x.candles| && Reaches(x, k)
  {
    AcceptedBar(x, k);
    var c, stop, target := x.candles[k], x.stop.value, x.target.value;
    if c.open.value <= stop then (c.open.value, StopGap)
    else if c.open.value >= target then (target, TargetGapCapped)
    else if c.low.value > stop then (target, TargetTouched)
    else if c.high.value < target then (stop, StopTouched)
    else (stop, AmbiguousStopFirst)
  }

  /** The exit of a search from bar `start`, on prices. */
  ghost predicate FirstReaching(x: Input, entryPrice: real, start: nat, exit: Option<Exit>)
    requires Accepted(x)
  {
    && (exit.None? <==> forall k :: start <= k < |x.candles| ==> !Reaches(x, k))
    && (exit.Some? ==>
          && start <= exit.value.index < |x.candles| && Reaches(x, exit.value.index)
          && (forall k :: start <= k < exit.value.index ==> !Reaches(x, k))
          && (exit.value.price, exit.value.reason) == ExitOf(x, exit.value.index)
          && exit.value.change == exit.value.price - entryPrice)
  }

  lemma SearchOnPrices(x: Input, entryPrice: real, start: nat)
    requires Accepted(x) && start <= |x.candles|
    ensures FirstReaching(x, entryPrice, start, FirstExit(x, entryPrice, start))
  {
    ExitIsFirst(x, entryPrice, start);
    forall k | start <= k < |x.candles| ensures ExitsOn(x, k) <==> Reaches(x, k) {
      ReachesOnPrices(x, k);
    }
    hide ExitsOn, Reaches, Accepted, LongExit, ExitAt;
    var exit := FirstExit(x, entryPrice, start);
    if exit.Some? {
      ExitOfBar(x, exit.value.index);
      ExitAtPrice(exit.value.index, LongExit(x.candles[exit.value.index], x.stop, x.target, x.policy), entryPrice);
    }
  }

  /** A simulated trade exits on the first bar that reaches the stop or the target, its entry bar
      included unless the limit was touched inside it, and stays open exactly if there is none. */
  lemma ExitOutcome(x: Input)
    requires Evaluate(x).Simulated?
    ensures Accepted(x)
    ensures var Simulated(entry, exit) := Evaluate(x);
            FirstReaching(x, entry.price, if entry.reason.LimitTouched? then entry.index + 1 else entry.index, exit)
  {
    TradeShape(x);
    hide Evaluate, Accepted, FirstReaching, FirstExit;
    var Simulated(entry, exit) := Evaluate(x);
    SearchOnPrices(x, entry.price, if entry.reason.LimitTouched? then entry.index + 1 else entry.index);
  }

  lemma ExitOfBar(x: Input, k: nat)
    requires Accepted(x) && k < |x.candles| && Reaches(x, k)
    ensures LongExit(x.candles[k], x.stop, x.target, x.policy) == Exited(ExitOf(x, k).0, ExitOf(x, k).1)
  {
    AcceptedBar(x, k);
  }
}
