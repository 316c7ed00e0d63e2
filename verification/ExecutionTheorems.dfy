/** What the daily-bar engine guarantees: its exit is the tight worst case over every price
    path the bar allows, its decisions never depend on later bars, and its trades have the
    prices and dates the rules promise. */
module ExecutionTheorems {
  import opened Options
  import opened CivilDates
  import opened ExecutionModel

  // ----- the exit rule against every intrabar path -----

  /** A price path through the bar: it starts at the open, ends at the close, stays between low
      and high and reaches both. Between consecutive prices the path is continuous. */
  ghost predicate PathOf(c: Candle, p: seq<real>)
    requires ConsistentPrices(c)
  {
    && |p| > 0 && p[0] == c.open.value && p[|p|-1] == c.close.value
    && (forall k :: 0 <= k < |p| ==> c.low.value <= p[k] <= c.high.value)
    && c.low.value in p && c.high.value in p
  }

  predicate Triggers(price: real, stop: real, target: real) {
    price <= stop || price >= target
  }

  function FirstTrigger(p: seq<real>, stop: real, target: real, from: nat): (r: Option<nat>)
    requires from <= |p|
    ensures r.None? ==> forall k :: from <= k < |p| ==> !Triggers(p[k], stop, target)
    ensures r.Some? ==> from <= r.value < |p| && Triggers(p[r.value], stop, target)
    ensures r.Some? ==> forall k :: from <= k < r.value ==> !Triggers(p[k], stop, target)
    decreases |p| - from
  {
    if from == |p| then None
    else if Triggers(p[from], stop, target) then Some(from)
    else FirstTrigger(p, stop, target, from + 1)
  }

  /** Where an order resting at stop and target fills on this path: at the open when the bar
      opens through the stop, at the capped target when it opens through the target, and
      otherwise at the level the path crosses first. */
  function PathFill(p: seq<real>, stop: real, target: real): Option<real> {
    match FirstTrigger(p, stop, target, 0)
    case None => None
    case Some(k) => Some(if p[k] <= stop then (if k == 0 then p[0] else stop) else target)
  }

  function BarExit(c: Candle, stop: real, target: real): ExitAttempt {
    LongExit(c, Some(stop), Some(target), StopFirst)
  }

  /** On every path the bar exits exactly when the path triggers, and never for more than the
      path would have filled; unless the bar was ambiguous, for exactly that. */
  lemma ExitBoundsEveryPath(c: Candle, stop: real, target: real, p: seq<real>)
    requires ConsistentPrices(c) && stop > 0.0 && target > 0.0 && PathOf(c, p)
    ensures var r := BarExit(c, stop, target);
            var fill := PathFill(p, stop, target);
            && (r.Exited? || r.NoExit?)
            && (r.Exited? <==> fill.Some?)
            && (r.Exited? ==> r.price <= fill.value)
            && (r.Exited? && !r.reason.AmbiguousStopFirst? ==> r.price == fill.value)
  {
    var i :| 0 <= i < |p| && p[i] == c.low.value;
    var j :| 0 <= j < |p| && p[j] == c.high.value;
    var first := FirstTrigger(p, stop, target, 0);
    assert Triggers(p[i], stop, target) ==> first.Some?;
    assert Triggers(p[j], stop, target) ==> first.Some?;
  }

  /** The path that visits the low first, and the one that visits the high first. */
  function LowFirst(c: Candle): seq<real>
    requires ConsistentPrices(c)
  {
    [c.open.value, c.low.value, c.high.value, c.close.value]
  }

  function HighFirst(c: Candle): seq<real>
    requires ConsistentPrices(c)
  {
    [c.open.value, c.high.value, c.low.value, c.close.value]
  }

  lemma LowFirstAttains(c: Candle, stop: real, target: real)
    requires ConsistentPrices(c) && stop > 0.0 && target > 0.0
    ensures PathOf(c, LowFirst(c)) && PathOf(c, HighFirst(c))
    ensures var r := BarExit(c, stop, target);
            PathFill(LowFirst(c), stop, target) == if r.Exited? then Some(r.price) else None
    ensures var r := BarExit(c, stop, target);
            r.Exited? && r.reason.AmbiguousStopFirst? ==> (PathFill(HighFirst(c), stop, target) == Some(target) && target > stop)
  {
    var low, high := LowFirst(c), HighFirst(c);
    assert low[1] == c.low.value && low[2] == c.high.value && high[1] == c.high.value && high[2] == c.low.value;
    assert PathOf(c, low);
    assert PathOf(c, high);
    ExitBoundsEveryPath(c, stop, target, low);
    ExitBoundsEveryPath(c, stop, target, high);
  }

  /** The stop-first exit is the least fill over all paths, and it is attained; the bar is
      reported ambiguous exactly when two of its paths fill at different prices. */
  lemma StopFirstIsTightWorstCase(c: Candle, stop: real, target: real)
    requires ConsistentPrices(c) && stop > 0.0 && target > 0.0
    ensures var r := BarExit(c, stop, target);
            && (forall p :: PathOf(c, p) ==> (r.Exited? <==> PathFill(p, stop, target).Some?))
            && (forall p :: PathOf(c, p) && r.Exited? ==> r.price <= PathFill(p, stop, target).value)
            && (exists p :: PathOf(c, p) && PathFill(p, stop, target) == if r.Exited? then Some(r.price) else None)
            && (r.Exited? && r.reason.AmbiguousStopFirst?
                <==> exists p, q :: PathOf(c, p) && PathOf(c, q) && PathFill(p, stop, target) != PathFill(q, stop, target))
  {
    hide PathOf, LongExit, PathFill;
    var r := BarExit(c, stop, target);
    forall p | PathOf(c, p)
      ensures (r.Exited? <==> PathFill(p, stop, target).Some?)
      ensures r.Exited? ==> r.price <= PathFill(p, stop, target).value
      ensures !(r.Exited? && r.reason.AmbiguousStopFirst?) ==> PathFill(p, stop, target) == if r.Exited? then Some(r.price) else None
    {
      ExitBoundsEveryPath(c, stop, target, p);
    }
    LowFirstAttains(c, stop, target);
    AmbiguousFillsAtStop(c, stop, target);
  }

  lemma AmbiguousFillsAtStop(c: Candle, stop: real, target: real)
    ensures BarExit(c, stop, target).Exited? && BarExit(c, stop, target).reason.AmbiguousStopFirst?
            ==> BarExit(c, stop, target).price == stop
  {
  }

  // ----- searches return the first bar -----

  lemma {:induction false} EligibleIsFirst(candles: seq<Candle>, earliest: int, from: nat)
    requires from <= |candles|
    ensures match EligibleFrom(candles, earliest, from)
            case None => forall k :: from <= k < |candles| && candles[k].date.Some? ==> candles[k].date.value < earliest
            case Some(i) => from <= i < |candles| && candles[i].date.Some? && candles[i].date.value >= earliest
                            && forall k :: from <= k < i && candles[k].date.Some? ==> candles[k].date.value < earliest
    decreases |candles| - from
  {
    if from < |candles| {
      EligibleIsFirst(candles, earliest, from + 1);
    }
  }

  lemma {:induction false} LimitFillIsFirst(candles: seq<Candle>, limit: RawPrice, from: nat)
    requires from <= |candles|
    ensures match FirstLimitFill(candles, limit, from)
            case None => forall k :: from <= k < |candles| ==> !LimitEntry(candles[k], limit).Filled?
            case Some(e) => from <= e.index < |candles| && LimitEntry(candles[e.index], limit) == Filled(e.price, e.reason)
                            && forall k :: from <= k < e.index ==> !LimitEntry(candles[k], limit).Filled?
    decreases |candles| - from
  {
    if from < |candles| {
      LimitFillIsFirst(candles, limit, from + 1);
    }
  }

  predicate ExitsOn(x: Input, k: nat)
    requires k < |x.candles|
  {
    LongExit(x.candles[k], x.stop, x.target, x.policy).Exited?
  }

  lemma {:induction false} ExitIsFirst(x: Input, entryPrice: real, from: nat)
    requires from <= |x.candles|
    ensures match FirstExit(x, entryPrice, from)
            case None => forall k :: from <= k < |x.candles| ==> !ExitsOn(x, k)
            case Some(e) => from <= e.index < |x.candles| && ExitsOn(x, e.index)
                            && e == ExitAt(e.index, LongExit(x.candles[e.index], x.stop, x.target, x.policy), entryPrice)
                            && forall k :: from <= k < e.index ==> !ExitsOn(x, k)
    decreases |x.candles| - from
  {
    if from < |x.candles| {
      ExitIsFirst(x, entryPrice, from + 1);
    }
  }

  // ----- no look-ahead -----

  function Cut(x: Input, n: nat): Input
    requires n <= |x.candles|
  {
    x.(candles := x.candles[..n])
  }

  lemma CutAccepted(x: Input, n: nat)
    requires n <= |x.candles| && Accepted(x)
    ensures Accepted(Cut(x, n))
  {
  }

  lemma CutEligible(x: Input, earliest: int, n: nat)
    requires n <= |x.candles|
    ensures var full, cut := EligibleFrom(x.candles, earliest, 0), EligibleFrom(x.candles[..n], earliest, 0);
            cut == if full.Some? && full.value < n then full else None
  {
    EligibleIsFirst(x.candles, earliest, 0);
    EligibleIsFirst(x.candles[..n], earliest, 0);
  }

  lemma CutLimitFill(x: Input, limit: RawPrice, from: nat, n: nat)
    requires from <= n <= |x.candles|
    ensures var full, cut := FirstLimitFill(x.candles, limit, from), FirstLimitFill(x.candles[..n], limit, from);
            cut == if full.Some? && full.value.index < n then full else None
  {
    LimitFillIsFirst(x.candles, limit, from);
    LimitFillIsFirst(x.candles[..n], limit, from);
    var full, cut := FirstLimitFill(x.candles, limit, from), FirstLimitFill(x.candles[..n], limit, from);
    if full.Some? && full.value.index < n {
      assert x.candles[..n][full.value.index] == x.candles[full.value.index];
      assert cut.Some? && cut.value.index == full.value.index;
    }
  }

  function CutExit(exit: Option<Exit>, n: nat): Option<Exit> {
    if exit.Some? && exit.value.index < n then exit else None
  }

  lemma CutFirstExit(x: Input, entryPrice: real, from: nat, n: nat)
    requires from <= n <= |x.candles|
    ensures FirstExit(Cut(x, n), entryPrice, from) == CutExit(FirstExit(x, entryPrice, from), n)
  {
    hide LongExit;
    ExitIsFirst(x, entryPrice, from);
    ExitIsFirst(Cut(x, n), entryPrice, from);
    forall k | from <= k < n ensures ExitsOn(Cut(x, n), k) == ExitsOn(x, k) {
    }
  }

  /** What an observer who has seen only the first n bars can report of an outcome. */
  predicate SeenAfter(n: nat, full: Outcome, cut: Outcome) {
    match full
    case Simulated(entry, exit) =>
      if entry.index < n then cut == Simulated(entry, CutExit(exit, n)) else cut.NotFilled? || cut.NoEligibleCandle?
    case AmbiguousSequence(entry) =>
      if entry.index < n then cut == full else cut.NotFilled? || cut.NoEligibleCandle?
    case NotFilled => cut.NotFilled? || cut.NoEligibleCandle?
    case NoEligibleCandle => cut.NoEligibleCandle?
    case Blocked => cut.Blocked? || cut.NoEligibleCandle?
  }

  /** No look-ahead: running on the first n bars gives the full run cut at n, for every n. */
  lemma PrefixRunIsCutRun(x: Input, n: nat)
    requires Accepted(x) && n <= |x.candles|
    ensures SeenAfter(n, Evaluate(x), Evaluate(Cut(x, n)))
  {
    hide Accepted, LongExit, LimitEntry, MarketEntry;
    CutAccepted(x, n);
    assert HeaderAccepted(x) by { AcceptedHeader(x); }
    var earliest := x.earliest.value;
    CutEligible(x, earliest, n);
    EligibleBounds(x.candles, earliest, 0);
    var eligible := EligibleFrom(x.candles, earliest, 0);
    if eligible.Some? && eligible.value < n {
      CutEntry(x, eligible.value, n);
      var entry := FindEntry(x, eligible.value);
      if entry.Some? && entry.value.index < n {
        CutHeld(x, entry.value, n);
      }
    }
  }

  lemma AcceptedHeader(x: Input)
    requires Accepted(x)
    ensures HeaderAccepted(x)
  {
  }

  lemma CutEntry(x: Input, eligible: nat, n: nat)
    requires eligible < n <= |x.candles|
    ensures var full, cut := FindEntry(x, eligible), FindEntry(Cut(x, n), eligible);
            cut == if full.Some? && full.value.index < n then full else None
  {
    hide LimitEntry, MarketEntry;
    CutLimitFill(x, x.limitPrice, eligible, n);
    assert Cut(x, n).candles[eligible] == x.candles[eligible];
  }

  lemma CutHeld(x: Input, entry: Entry, n: nat)
    requires entry.index < n <= |x.candles|
    ensures SeenAfter(n, Held(x, entry), Held(Cut(x, n), entry))
  {
    hide LongExit;
    assert Cut(x, n).candles[entry.index] == x.candles[entry.index];
    CutFirstExit(x, entry.price, if entry.reason.LimitTouched? then entry.index + 1 else entry.index, n);
  }

  /** Two accepted inputs that agree on every bar up to the exit give the same trade. */
  lemma NoLookAhead(x: Input, y: Input, k: nat)
    requires Accepted(x) && Accepted(y) && y == x.(candles := y.candles)
    requires Evaluate(x).Simulated? && Evaluate(x).exit.Some? && k == Evaluate(x).exit.value.index
    requires k < |x.candles| && k < |y.candles| && x.candles[..k+1] == y.candles[..k+1]
    ensures Evaluate(y) == Evaluate(x)
  {
    hide Accepted, Evaluate;
    PrefixRunIsCutRun(x, k + 1);
    PrefixRunIsCutRun(y, k + 1);
    assert Cut(x, k + 1) == Cut(y, k + 1);
    TradeShape(x);
    TradeShape(y);
  }

  // ----- the shape of a simulated trade -----

  /** Where a simulated trade's entry and exit come from. */
  lemma TradeShape(x: Input)
    requires Evaluate(x).Simulated?
    ensures Accepted(x)
    ensures var Simulated(entry, exit) := Evaluate(x);
            && entry.index < |x.candles|
            && entry.price > 0.0
            && (if x.orderType.MarketOpen?
                then MarketEntry(x.candles[entry.index]) == Filled(entry.price, entry.reason) && x.stop.value < entry.price < x.target.value
                else LimitEntry(x.candles[entry.index], x.limitPrice) == Filled(entry.price, entry.reason))
            && var start := if entry.reason.LimitTouched? then entry.index + 1 else entry.index;
               exit == FirstExit(x, entry.price, start)
               && (exit.Some? ==> start <= exit.value.index < |x.candles|)
  {
    hide Accepted, LongExit;
    assert HeaderAccepted(x) by { AcceptedHeader(x); }
    EligibleIsFirst(x.candles, x.earliest.value, 0);
    var eligible := EligibleFrom(x.candles, x.earliest.value, 0).value;
    LimitFillIsFirst(x.candles, x.limitPrice, eligible);
    var entry := FindEntry(x, eligible).value;
    ExitIsFirst(x, entry.price, if entry.reason.LimitTouched? then entry.index + 1 else entry.index);
  }

  /** The first bar whose date is at least the earliest execution date. */
  predicate FirstEligible(x: Input, k: nat)
    requires x.earliest.Some?
  {
    && k < |x.candles| && x.candles[k].date.Some? && x.candles[k].date.value >= x.earliest.value
    && forall i :: 0 <= i < k && x.candles[i].date.Some? ==> x.candles[i].date.value < x.earliest.value
  }

  predicate FillsAt(x: Input, k: nat)
    requires k < |x.candles|
  {
    if x.orderType.MarketOpen? then MarketEntry(x.candles[k]).Filled? else LimitEntry(x.candles[k], x.limitPrice).Filled?
  }

  /** Entry and exit are the first bars that trigger: no bar from the first eligible one up to
      the entry fills, and no bar from the entry (after it, for a touched limit) up to the exit,
      or to the end when there is none, exits. */
  lemma FirstTriggeringBars(x: Input)
    requires Evaluate(x).Simulated?
    ensures Accepted(x) && Evaluate(x).entry.index < |x.candles|
    ensures Evaluate(x).exit.Some? ==> Evaluate(x).exit.value.index < |x.candles| && ExitsOn(x, Evaluate(x).exit.value.index)
    ensures FillsAt(x, Evaluate(x).entry.index)
    ensures exists e: nat :: FirstEligible(x, e) && e <= Evaluate(x).entry.index
                             && forall k :: e <= k < Evaluate(x).entry.index ==> !FillsAt(x, k)
    ensures var Simulated(entry, exit) := Evaluate(x);
            var start := if entry.reason.LimitTouched? then entry.index + 1 else entry.index;
            var last := if exit.Some? then exit.value.index else |x.candles|;
            forall k :: start <= k < last ==> !ExitsOn(x, k)
  {
    hide LongExit, LimitEntry, Accepted;
    TradeShape(x);
    assert HeaderAccepted(x) by { AcceptedHeader(x); }
    EligibleIsFirst(x.candles, x.earliest.value, 0);
    var eligible := EligibleFrom(x.candles, x.earliest.value, 0).value;
    LimitFillIsFirst(x.candles, x.limitPrice, eligible);
    var Simulated(entry, exit) := Evaluate(x);
    ExitIsFirst(x, entry.price, if entry.reason.LimitTouched? then entry.index + 1 else entry.index);
    assert FirstEligible(x, eligible);
  }

  predicate OneSymbol(candles: seq<Candle>) {
    forall i :: 0 <= i < |candles| ==> candles[i].symbol == candles[0].symbol
  }

  function DateAt(x: Input, k: nat): int
    requires k < |x.candles| && x.candles[k].date.Some?
  {
    x.candles[k].date.value
  }

  /** On a one-symbol list: signal before earliest, earliest no later than the entry, the entry
      no later than the exit, and strictly earlier when the limit was touched inside a bar. */
  lemma DatesInOrder(x: Input)
    requires Evaluate(x).Simulated? && OneSymbol(x.candles)
    ensures Accepted(x)
    ensures var Simulated(entry, exit) := Evaluate(x);
            && entry.index < |x.candles| && (exit.Some? ==> exit.value.index < |x.candles|)
            && x.signal.value < x.earliest.value <= DateAt(x, entry.index)
            && (exit.Some? ==> DateAt(x, entry.index) <= DateAt(x, exit.value.index))
            && (exit.Some? && entry.reason.LimitTouched? ==> DateAt(x, entry.index) < DateAt(x, exit.value.index))
  {
    hide LongExit;
    TradeShape(x);
    EligibleIsFirst(x.candles, x.earliest.value, 0);
    var eligible := EligibleFrom(x.candles, x.earliest.value, 0).value;
    var Simulated(entry, exit) := Evaluate(x);
    assert eligible <= entry.index;
    assert eligible < entry.index ==> DateAt(x, eligible) < DateAt(x, entry.index);
    assert exit.Some? && entry.index < exit.value.index ==> DateAt(x, entry.index) < DateAt(x, exit.value.index);
  }

  /** The exit comes from the exit rule on its bar, with figures against the entry price. */
  lemma ExitOrigin(x: Input)
    requires Evaluate(x).Simulated? && Evaluate(x).exit.Some?
    ensures var Simulated(entry, Some(exit)) := Evaluate(x);
            && entry.index < |x.candles| && exit.index < |x.candles| && ExitsOn(x, exit.index)
            && exit == ExitAt(exit.index, LongExit(x.candles[exit.index], x.stop, x.target, x.policy), entry.price)
            && (forall k :: entry.index <= k < exit.index && (entry.reason.LimitTouched? ==> entry.index < k) ==> !ExitsOn(x, k))
            && entry.index <= exit.index && (entry.reason.LimitTouched? ==> entry.index < exit.index)
  {
    hide LongExit, Evaluate, Accepted, LimitEntry, MarketEntry, ExitAt;
    TradeShape(x);
    var Simulated(entry, Some(exit)) := Evaluate(x);
    ExitIsFirst(x, entry.price, if entry.reason.LimitTouched? then entry.index + 1 else entry.index);
  }

  /** An entry at or below the stop is a gap below it, and such a trade exits on its own bar
      at its own price. */
  lemma GapBelowStop(x: Input)
    requires Evaluate(x).Simulated? && Evaluate(x).exit.Some?
    ensures var Simulated(entry, Some(exit)) := Evaluate(x);
            && Accepted(x)
            && (entry.price <= x.stop.value ==> entry.reason.LimitGapImprovement? && exit.price == entry.price && exit.reason.StopGap?)
            && entry.price < x.target.value
  {
    hide Evaluate, CandlesAccepted, OneMarket, ExitAt;
    TradeShape(x);
    ExitOrigin(x);
    var Simulated(entry, Some(exit)) := Evaluate(x);
    if entry.price <= x.stop.value {
      assert x.candles[entry.index].open == Some(entry.price);
      assert ExitsOn(x, entry.index);
      assert exit.index == entry.index;
      ExitAtPrice(exit.index, LongExit(x.candles[exit.index], x.stop, x.target, x.policy), entry.price);
    }
  }

  lemma ExitAtPrice(index: nat, attempt: ExitAttempt, entryPrice: real)
    requires attempt.Exited?
    ensures var e := ExitAt(index, attempt, entryPrice);
            e.price == attempt.price && e.reason == attempt.reason && e.change == attempt.price - entryPrice
  {
  }

  /** Prices and gross figures of a completed trade. */
  lemma CompletedTrade(x: Input)
    requires Evaluate(x).Simulated? && Evaluate(x).exit.Some?
    ensures var Simulated(entry, Some(exit)) := Evaluate(x);
            && Accepted(x)
            && exit.change == exit.price - entry.price
            && (!IsStop(exit.reason) ==> exit.price == x.target.value > entry.price)
            && (IsStop(exit.reason) ==> exit.price <= x.stop.value && exit.change <= 0.0)
            && (IsStop(exit.reason) ==>
                  (exit.change == 0.0 <==> entry.reason.LimitGapImprovement? && entry.price <= x.stop.value))
            && (entry.reason.LimitTouched? ==> exit.index > entry.index)
  {
    hide Evaluate, LongExit, LimitEntry, MarketEntry, ExitAt, Accepted;
    TradeShape(x);
    GapBelowStop(x);
    ExitOrigin(x);
    var Simulated(entry, Some(exit)) := Evaluate(x);
    var attempt := LongExit(x.candles[exit.index], x.stop, x.target, x.policy);
    ExitPrices(x.candles[exit.index], x.stop, x.target, x.policy);
    ExitAtPrice(exit.index, attempt, entry.price);
  }

  /** The gross rate is the change over the entry price and never reaches a total loss. */
  lemma GrossRate(x: Input)
    requires Evaluate(x).Simulated? && Evaluate(x).exit.Some?
    ensures var Simulated(entry, Some(exit)) := Evaluate(x);
            exit.rate * entry.price == exit.change && exit.rate > -1.0
  {
    hide Evaluate, LongExit, LimitEntry, MarketEntry, Accepted;
    TradeShape(x);
    ExitOrigin(x);
    var Simulated(entry, Some(exit)) := Evaluate(x);
    ExitPrices(x.candles[exit.index], x.stop, x.target, x.policy);
    RateAboveMinusOne(exit.price, entry.price);
  }

  lemma ExitPrices(c: Candle, stop: RawPrice, target: RawPrice, policy: ConflictPolicy)
    ensures var r := LongExit(c, stop, target, policy);
            r.Exited? ==> r.price > 0.0
                          && (if IsStop(r.reason) then r.price <= stop.value else r.price == target.value)
                          && (!r.reason.StopGap? && IsStop(r.reason) ==> r.price == stop.value)
                          && (r.reason.StopGap? ==> c.open == Some(r.price))
  {
  }

  lemma RateAboveMinusOne(exit: real, entry: real)
    requires exit > 0.0 && entry > 0.0
    ensures (exit - entry) / entry > -1.0 && (exit - entry) / entry * entry == exit - entry
  {
    var rate := (exit - entry) / entry;
    assert (rate + 1.0) * entry == exit;
    NonPositiveFactor(rate + 1.0, entry);
  }

  lemma NonPositiveFactor(a: real, b: real)
    requires b > 0.0
    ensures a <= 0.0 ==> a * b <= 0.0
  {
  }
}
