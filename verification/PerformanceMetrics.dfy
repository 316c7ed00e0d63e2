/** Performance metrics of a completed portfolio ledger over reals: the checks on the equity curve,
    the one-pass maximum drawdown, and the tally of closed trades. Numbers that are not finite,
    and values that are not numbers, are None. */
module PerformanceMetrics {
  import opened Options

  datatype Point = Point(date: Option<int>, equity: Option<real>)

  datatype Ledger = Ledger(completed: bool, initialCapital: Option<real>, finalEquity: Option<real>,
                           curve: Option<seq<Point>>, trades: Option<seq<Option<real>>>)

  datatype Reason = PortfolioNotCompleted | InvalidInput | InvalidEquityCurve

  datatype Status =
    | Calculated | ShortPeriodAnnualized | InsufficientPeriod | InsufficientReturnSamples | ZeroVolatility
    | NoClosedTrades | AllBreakEven | NoGrossLoss | ZeroGrossProfit

  datatype Metrics =
    | Blocked(reason: Reason)
    | Completed(totalReturn: real, elapsedDays: int, mdd: real,
                wins: nat, losses: nat, breakevens: nat, grossProfit: real, grossLoss: real,
                winRate: Option<real>, winRateStatus: Status,
                profitFactor: Option<real>, profitFactorStatus: Status, dailyReturns: seq<real>,
                cagr: Option<real>, cagrStatus: Status, sharpe: Option<real>, sharpeStatus: Status)

  predicate PointAccepted(curve: seq<Point>, i: nat)
    requires i < |curve|
  {
    && curve[i].date.Some? && curve[i].equity.Some? && curve[i].equity.value > 0.0
    && forall j :: 0 <= j < i ==> curve[j].date.Some? && curve[j].date.value < curve[i].date.value
  }

  /** Dated points in strictly ascending order, each with a positive equity. */
  predicate CurveAccepted(curve: seq<Point>) {
    forall i :: 0 <= i < |curve| ==> PointAccepted(curve, i)
  }

  predicate InputAccepted(l: Ledger) {
    && l.initialCapital.Some? && l.initialCapital.value > 0.0
    && l.finalEquity.Some? && l.finalEquity.value >= 0.0
    && l.curve.Some? && l.curve.value != [] && l.trades.Some?
  }

  predicate LedgerAccepted(l: Ledger) {
    && l.completed && InputAccepted(l) && CurveAccepted(l.curve.value)
    && l.curve.value[|l.curve.value|-1].equity == l.finalEquity
    && forall i :: 0 <= i < |l.trades.value| ==> l.trades.value[i].Some?
  }

  function Change(from: real, to: real): real
    requires from != 0.0
  {
    to / from - 1.0
  }

  predicate AllPositive(e: seq<real>) {
    forall i :: 0 <= i < |e| ==> e[i] > 0.0
  }

  /** The drawdown is the worst change from any point to itself or a later point. */
  ghost predicate IsMaxDrawdown(e: seq<real>, mdd: real)
    requires AllPositive(e)
  {
    && (forall i, j :: 0 <= i <= j < |e| ==> mdd <= Change(e[i], e[j]))
    && (exists i, j :: 0 <= i <= j < |e| && mdd == Change(e[i], e[j]))
  }

  lemma LowerFromHigherPeak(from: real, peak: real, to: real)
    requires 0.0 < from <= peak && 0.0 < to
    ensures -1.0 < Change(peak, to) <= Change(from, to)
  {
    assert to / from - to / peak == to * (peak - from) / (from * peak);
  }

  /** One pass with the running peak finds the worst of all pairs. */
  method MaxDrawdown(e: seq<real>) returns (mdd: real)
    requires e != [] && AllPositive(e)
    ensures IsMaxDrawdown(e, mdd) && -1.0 < mdd <= 0.0
  {
    hide Change;
    var peak := e[0];
    mdd := 0.0;
    ghost var at, from, to := 0, 0, 0;
    SamePoint(peak);
    for n := 0 to |e|
      invariant 0 <= at < |e| && peak == e[at] && (n > 0 ==> at < n)
      invariant forall i :: 0 <= i < n ==> e[i] <= peak
      invariant forall i, j :: 0 <= i <= j < n ==> mdd <= Change(e[i], e[j])
      invariant 0 <= from <= to < |e| && mdd == Change(e[from], e[to]) && (n == 0 ==> at == 0 && from == 0 && to == 0)
      invariant n > 0 ==> to < n
      invariant -1.0 < mdd <= 0.0
    {
      var equity := e[n];
      if equity > peak {
        peak, at := equity, n;
      }
      var drawdown := Change(peak, equity);
      forall i | 0 <= i <= n ensures -1.0 < drawdown <= Change(e[i], e[n]) {
        LowerFromHigherPeak(e[i], peak, equity);
      }
      if drawdown < mdd {
        mdd, from, to := drawdown, at, n;
      }
    }
  }

  lemma SamePoint(x: real)
    requires x > 0.0
    ensures Change(x, x) == 0.0
  {
  }

  // ----- the tally of trades -----

  function Sum(s: seq<real>): real {
    if s == [] then 0.0 else Sum(s[..|s|-1]) + s[|s|-1]
  }

  function Amounts(trades: seq<Option<real>>): (r: seq<real>)
    requires forall i :: 0 <= i < |trades| ==> trades[i].Some?
    ensures |r| == |trades| && forall i :: 0 <= i < |r| ==> r[i] == trades[i].value
  {
    seq(|trades|, i requires 0 <= i < |trades| => trades[i].value)
  }

  /** Which trades won, lost and broke even. */
  function Where(pnl: seq<real>, sign: int): set<nat> {
    set i: nat | i < |pnl| && SignOf(pnl[i]) == sign
  }

  function SignOf(x: real): int {
    if x > 0.0 then 1 else if x < 0.0 then -1 else 0
  }

  /** The sizes of the results of one sign, zero elsewhere. */
  function Part(pnl: seq<real>, sign: int): seq<real> {
    seq(|pnl|, i requires 0 <= i < |pnl| => SizeIf(pnl[i], sign))
  }

  function SizeIf(x: real, sign: int): real {
    if SignOf(x) != sign then 0.0 else if x < 0.0 then -x else x
  }

  lemma CountSnoc(pnl: seq<real>, n: nat, sign: int)
    requires n < |pnl|
    ensures |Where(pnl[..n+1], sign)| == |Where(pnl[..n], sign)| + (if SignOf(pnl[n]) == sign then 1 else 0)
  {
    assert Where(pnl[..n+1], sign) == Where(pnl[..n], sign) + (if SignOf(pnl[n]) == sign then {n} else {});
  }

  lemma PartSnoc(pnl: seq<real>, n: nat, sign: int)
    requires n < |pnl|
    ensures Sum(Part(pnl[..n+1], sign)) == Sum(Part(pnl[..n], sign)) + SizeIf(pnl[n], sign)
  {
    assert Part(pnl[..n+1], sign) == Part(pnl[..n], sign) + [SizeIf(pnl[n], sign)];
    SumSnoc(Part(pnl[..n], sign), SizeIf(pnl[n], sign));
  }

  ghost predicate CountsOf(pnl: seq<real>, wins: nat, losses: nat, breakevens: nat) {
    && wins == |Where(pnl, 1)| && losses == |Where(pnl, -1)| && breakevens == |Where(pnl, 0)|
    && wins + losses + breakevens == |pnl|
  }

  ghost predicate GrossOf(pnl: seq<real>, sign: int, count: nat, gross: real) {
    && gross == Sum(Part(pnl, sign))
    && gross >= 0.0 && (gross == 0.0 <==> count == 0)
  }

  /** What the tally of a list of trades is; net profit splits into gross profit and gross loss,
      and each side is zero exactly when no trade fell on it. */
  ghost predicate IsTally(pnl: seq<real>, wins: nat, losses: nat, breakevens: nat, profit: real, loss: real) {
    && CountsOf(pnl, wins, losses, breakevens)
    && GrossOf(pnl, 1, wins, profit) && GrossOf(pnl, -1, losses, loss)
    && profit - loss == Sum(pnl)
  }

  lemma SumSnoc(s: seq<real>, x: real)
    ensures Sum(s + [x]) == Sum(s) + x
  {
    assert (s + [x])[..|s|] == s;
  }

  lemma GrossStep(pnl: seq<real>, n: nat, sign: int, count: nat, gross: real)
    requires n < |pnl| && (sign == 1 || sign == -1) && GrossOf(pnl[..n], sign, count, gross)
    ensures GrossOf(pnl[..n+1], sign, count + (if SignOf(pnl[n]) == sign then 1 else 0), gross + SizeIf(pnl[n], sign))
  {
    PartSnoc(pnl, n, sign);
    hide Part, Sum;
  }

  lemma CountsStep(pnl: seq<real>, n: nat, wins: nat, losses: nat, breakevens: nat)
    requires n < |pnl| && CountsOf(pnl[..n], wins, losses, breakevens)
    ensures CountsOf(pnl[..n+1], wins + (if pnl[n] > 0.0 then 1 else 0), losses + (if pnl[n] < 0.0 then 1 else 0),
                     breakevens + (if pnl[n] == 0.0 then 1 else 0))
  {
    CountSnoc(pnl, n, 1);
    CountSnoc(pnl, n, -1);
    CountSnoc(pnl, n, 0);
    hide Where;
  }

  lemma TallyStep(pnl: seq<real>, n: nat, wins: nat, losses: nat, breakevens: nat, profit: real, loss: real)
    requires n < |pnl| && IsTally(pnl[..n], wins, losses, breakevens, profit, loss)
    ensures var x := pnl[n];
            IsTally(pnl[..n+1], wins + (if x > 0.0 then 1 else 0), losses + (if x < 0.0 then 1 else 0),
                    breakevens + (if x == 0.0 then 1 else 0),
                    profit + (if x > 0.0 then x else 0.0), loss - (if x < 0.0 then x else 0.0))
  {
    CountsStep(pnl, n, wins, losses, breakevens);
    GrossStep(pnl, n, 1, wins, profit);
    GrossStep(pnl, n, -1, losses, loss);
    SumSnoc(pnl[..n], pnl[n]);
    assert pnl[..n] + [pnl[n]] == pnl[..n+1];
    hide Sum, CountsOf, GrossOf;
  }

  datatype Tally = Tally(wins: nat, losses: nat, breakevens: nat, grossProfit: real, signedGrossLoss: real)

  method TallyTrades(trades: seq<Option<real>>) returns (r: Option<Tally>)
    ensures r.Some? <==> forall i :: 0 <= i < |trades| ==> trades[i].Some?
    ensures r.Some? ==> IsTally(Amounts(trades), r.value.wins, r.value.losses, r.value.breakevens,
                                r.value.grossProfit, -r.value.signedGrossLoss)
  {
    hide IsTally;
    var wins, losses, breakevens, grossProfit, signedGrossLoss := 0, 0, 0, 0.0, 0.0;
    ghost var pnl: seq<real> := [];
    EmptyTally();
    for i := 0 to |trades|
      invariant |pnl| == i && forall k :: 0 <= k < i ==> trades[k] == Some(pnl[k])
      invariant IsTally(pnl, wins, losses, breakevens, grossProfit, -signedGrossLoss)
    {
      if trades[i].None? {
        return None;
      }
      var netPnl := trades[i].value;
      assert (pnl + [netPnl])[..i] == pnl && (pnl + [netPnl])[..i+1] == pnl + [netPnl];
      TallyStep(pnl + [netPnl], i, wins, losses, breakevens, grossProfit, -signedGrossLoss);
      if netPnl > 0.0 {
        wins, grossProfit := wins + 1, grossProfit + netPnl;
      } else if netPnl < 0.0 {
        losses, signedGrossLoss := losses + 1, signedGrossLoss + netPnl;
      } else {
        breakevens := breakevens + 1;
      }
      pnl := pnl + [netPnl];
    }
    assert pnl == Amounts(trades);
    r := Some(Tally(wins, losses, breakevens, grossProfit, signedGrossLoss));
  }

  lemma EmptyTally()
    ensures IsTally([], 0, 0, 0, 0.0, 0.0)
  {
  }

  // ----- the rates -----

  /** The win rate and profit factor a tally stands for. */
  ghost predicate RatesMean(pnl: seq<real>, r: Metrics)
    requires r.Completed?
  {
    && (r.winRateStatus.Calculated? <==> exists i :: 0 <= i < |pnl| && pnl[i] != 0.0)
    && (r.winRateStatus.NoClosedTrades? <==> pnl == [])
    && (r.winRate.Some? <==> r.winRateStatus.Calculated?)
    && (r.winRate.Some? ==> r.winRate.value * |pnl| as real == r.wins as real && 0.0 <= r.winRate.value <= 1.0)
    && (r.profitFactorStatus.NoClosedTrades? <==> pnl == [])
    && (r.profitFactorStatus.AllBreakEven? <==> r.winRateStatus.AllBreakEven?)
    && (r.profitFactor.Some? <==> exists i :: 0 <= i < |pnl| && pnl[i] < 0.0)
    && (r.profitFactor.Some? ==> r.profitFactor.value * r.grossLoss == r.grossProfit)
    && (r.profitFactorStatus.ZeroGrossProfit? <==> r.profitFactor == Some(0.0))
  }

  lemma SomeSign(pnl: seq<real>, sign: int)
    ensures |Where(pnl, sign)| == 0 <==> forall i :: 0 <= i < |pnl| ==> SignOf(pnl[i]) != sign
  {
    if |Where(pnl, sign)| == 0 {
      forall i | 0 <= i < |pnl| ensures SignOf(pnl[i]) != sign {
        assert i !in Where(pnl, sign);
      }
    }
  }

  /** The win rate and the profit factor; the last division's denominator is never zero. */
  method Rates(pnl: seq<real>, base: Metrics) returns (r: Metrics)
    requires base.Completed? && IsTally(pnl, base.wins, base.losses, base.breakevens, base.grossProfit, base.grossLoss)
    ensures r.Completed? && RatesMean(pnl, r)
    ensures r == base.(winRate := r.winRate, winRateStatus := r.winRateStatus,
                       profitFactor := r.profitFactor, profitFactorStatus := r.profitFactorStatus)
  {
    SomeSign(pnl, 1);
    SomeSign(pnl, -1);
    hide Where, Part, Sum;
    assert base.wins <= |pnl|;
    var winRate, winRateStatus := None, NoClosedTrades;
    if |pnl| != 0 {
      if base.wins == 0 && base.losses == 0 && base.breakevens > 0 {
        winRateStatus := AllBreakEven;
      } else {
        winRate, winRateStatus := Some(base.wins as real / |pnl| as real), Calculated;
      }
    }
    var profitFactor, profitFactorStatus := None, NoClosedTrades;
    if |pnl| != 0 {
      if base.wins == 0 && base.losses == 0 && base.breakevens > 0 {
        profitFactorStatus := AllBreakEven;
      } else if base.grossLoss == 0.0 && base.grossProfit > 0.0 {
        profitFactorStatus := NoGrossLoss;
      } else if base.grossProfit == 0.0 && base.grossLoss > 0.0 {
        profitFactor, profitFactorStatus := Some(0.0), ZeroGrossProfit;
      } else {
        profitFactor, profitFactorStatus := Some(base.grossProfit / base.grossLoss), Calculated;
      }
    }
    r := base.(winRate := winRate, winRateStatus := winRateStatus,
               profitFactor := profitFactor, profitFactorStatus := profitFactorStatus);
  }

  // ----- annual growth and the Sharpe ratio -----

  const DAYS_PER_YEAR: real := 365.25
  const ANNUALIZATION_FACTOR: real := 252.0

  /** Powers and square roots, as far as the figures rely on them. */
  datatype Analysis = Analysis(pow: (real, real) -> real, root: real -> real)

  function Reciprocal(y: real): real
    requires y != 0.0
  {
    1.0 / y
  }

  ghost predicate Exact(f: Analysis) {
    && (forall a, y :: a > 0.0 && y > 0.0 ==> f.pow(f.pow(a, Reciprocal(y)), y) == a)
    && (forall v :: v >= 0.0 ==> f.root(v) >= 0.0 && Square(f.root(v)) == v)
  }

  function Years(elapsedDays: int): (y: real)
    ensures y < 1.0 <==> elapsedDays as real < DAYS_PER_YEAR
    ensures elapsedDays > 0 ==> y > 0.0
    ensures y * DAYS_PER_YEAR == elapsedDays as real
  {
    elapsedDays as real / DAYS_PER_YEAR
  }

  /** The growth rate that, compounded over the years of the curve, gives its whole growth. */
  ghost predicate CagrMeans(f: Analysis, growth: real, elapsedDays: int, cagr: Option<real>, status: Status) {
    && (status.InsufficientPeriod? <==> elapsedDays < 2)
    && (status.ShortPeriodAnnualized? <==> elapsedDays >= 2 && elapsedDays as real < DAYS_PER_YEAR)
    && (status.Calculated? <==> elapsedDays >= 2 && elapsedDays as real >= DAYS_PER_YEAR)
    && (cagr.Some? <==> elapsedDays >= 2)
    && (cagr.Some? ==> f.pow(1.0 + cagr.value, Years(elapsedDays)) == growth)
  }

  method AnnualGrowth(f: Analysis, growth: real, elapsedDays: int) returns (cagr: Option<real>, status: Status)
    requires Exact(f) && growth > 0.0
    ensures CagrMeans(f, growth, elapsedDays, cagr, status)
  {
    hide Years, Reciprocal;
    if elapsedDays < 2 {
      return None, InsufficientPeriod;
    }
    var years := Years(elapsedDays);
    cagr := Some(f.pow(growth, Reciprocal(years)) - 1.0);
    status := if years < 1.0 then ShortPeriodAnnualized else Calculated;
  }

  function Mean(s: seq<real>): real
    requires s != []
  {
    Sum(s) / |s| as real
  }

  function Times(a: real, b: real): real {
    a * b
  }

  lemma PositiveTimes(a: real, b: real)
    requires a > 0.0 && b > 0.0
    ensures Times(a, b) > 0.0
  {
  }

  lemma NegativeTimes(a: real, b: real)
    requires a < 0.0 && b < 0.0
    ensures Times(a, b) > 0.0
  {
    PositiveTimes(-a, -b);
    assert -a * -b == a * b;
  }

  lemma ZeroTimes(a: real, b: real)
    requires a == 0.0
    ensures Times(a, b) == 0.0
  {
  }

  function Square(v: real): (r: real)
    ensures r >= 0.0 && (r == 0.0 <==> v == 0.0)
  {
    SquareSign(v);
    Times(v, v)
  }

  lemma SquareSign(v: real)
    ensures Times(v, v) >= 0.0 && (Times(v, v) == 0.0 <==> v == 0.0)
  {
    hide Times;
    if v > 0.0 {
      PositiveTimes(v, v);
    } else if v < 0.0 {
      NegativeTimes(v, v);
    } else {
      ZeroTimes(v, v);
    }
  }

  function SquaredSpread(s: seq<real>, centre: real): (r: real)
    ensures r >= 0.0
  {
    if s == [] then 0.0 else SquaredSpread(s[..|s|-1], centre) + Square(s[|s|-1] - centre)
  }

  lemma SpreadSnoc(s: seq<real>, x: real, centre: real)
    ensures SquaredSpread(s + [x], centre) == SquaredSpread(s, centre) + Square(x - centre)
  {
    assert (s + [x])[..|s|] == s;
  }

  lemma NothingSummed()
    ensures Sum([]) == 0.0 && forall centre :: SquaredSpread([], centre) == 0.0
  {
  }

  predicate AllEqual(s: seq<real>) {
    forall i, j :: 0 <= i < j < |s| ==> s[i] == s[j]
  }

  lemma {:induction false} NoSpreadIff(s: seq<real>, centre: real)
    ensures SquaredSpread(s, centre) == 0.0 <==> forall i :: 0 <= i < |s| ==> s[i] == centre
  {
    if s != [] {
      hide Square;
      NoSpreadIff(s[..|s|-1], centre);
    }
  }

  lemma {:induction false} SumOfEqual(s: seq<real>, c: real)
    requires forall i :: 0 <= i < |s| ==> s[i] == c
    ensures Sum(s) == c * |s| as real
  {
    if s != [] {
      SumOfEqual(s[..|s|-1], c);
    }
  }

  /** The spread around the mean is zero exactly when all values are equal. */
  lemma NoSpreadIffEqual(s: seq<real>)
    requires s != []
    ensures SquaredSpread(s, Mean(s)) == 0.0 <==> AllEqual(s)
  {
    NoSpreadIff(s, Mean(s));
    if AllEqual(s) {
      SumOfEqual(s, s[0]);
    }
  }

  lemma ShiftedSquare(a: real, b: real)
    ensures Square(a + b) == Square(a) + Times(2.0 * b, a) + Square(b)
  {
    assert (a + b) * (a + b) == a * (a + b) + b * (a + b);
    assert a * (a + b) == a * a + a * b && b * (a + b) == b * a + b * b;
  }

  lemma Distributes(k: real, a: real, b: real)
    ensures Times(k, a + b) == Times(k, a) + Times(k, b) && Times(a + b, k) == Times(a, k) + Times(b, k)
    ensures Times(1.0, k) == k
  {
  }

  lemma {:induction false} ShiftedSpread(s: seq<real>, centre: real, other: real)
    ensures SquaredSpread(s, other) == SquaredSpread(s, centre)
              + Times(2.0 * (centre - other), Sum(s) - Times(|s| as real, centre)) + Times(|s| as real, Square(centre - other))
  {
    if s == [] {
      NothingSummed();
      ZeroTimes(0.0, centre);
    } else {
      var init, x, c := s[..|s|-1], s[|s|-1], centre - other;
      var n := |init| as real;
      assert |s| as real == n + 1.0 && Sum(s) == Sum(init) + x;
      assert SquaredSpread(s, other) == SquaredSpread(init, other) + Square(x - other);
      assert SquaredSpread(s, centre) == SquaredSpread(init, centre) + Square(x - centre);
      ShiftedSpread(init, centre, other);
      hide Square, SquaredSpread, Sum, Times;
      ShiftedSquare(x - centre, c);
      assert x - centre + c == x - other;
      Distributes(centre, n, 1.0);
      Distributes(2.0 * c, Sum(init) - Times(n, centre), x - centre);
      Distributes(Square(c), n, 1.0);
    }
  }

  lemma MeanTimes(s: seq<real>)
    requires s != []
    ensures Times(|s| as real, Mean(s)) == Sum(s)
  {
    hide Sum;
  }

  /** The squared spread is least around the mean: around any other value it is more by as many squares
      of the distance as there are values. */
  lemma SpreadAroundMean(s: seq<real>, other: real)
    requires s != []
    ensures SquaredSpread(s, other) == SquaredSpread(s, Mean(s)) + Times(|s| as real, Times(Mean(s) - other, Mean(s) - other))
  {
    ShiftedSpread(s, Mean(s), other);
    MeanTimes(s);
    ZeroTimes(0.0, 2.0 * (Mean(s) - other));
    Commutes(2.0 * (Mean(s) - other), 0.0);
    hide SquaredSpread, Sum, Mean, Times;
  }

  lemma Commutes(a: real, b: real)
    ensures Times(a, b) == Times(b, a)
  {
  }

  /** No volatility exactly when all returns are equal; otherwise the ratio times the positive
      sample deviation is the mean, annualized. */
  ghost predicate SharpeMeans(f: Analysis, daily: seq<real>, sharpe: Option<real>, status: Status) {
    && (status.InsufficientReturnSamples? <==> |daily| < 2)
    && (status.ZeroVolatility? <==> |daily| >= 2 && AllEqual(daily))
    && (status.Calculated? <==> sharpe.Some?)
    && (sharpe.Some? <==> |daily| >= 2 && !AllEqual(daily))
    && (sharpe.Some? ==>
          var deviation := f.root(SquaredSpread(daily, Mean(daily)) / (|daily| - 1) as real);
          deviation > 0.0 && sharpe.value * deviation == Mean(daily) * f.root(ANNUALIZATION_FACTOR))
  }

  method SharpeRatio(f: Analysis, daily: seq<real>) returns (sharpe: Option<real>, status: Status)
    requires Exact(f)
    ensures SharpeMeans(f, daily, sharpe, status)
  {
    hide Square, SquaredSpread, Sum, Reciprocal, Exact;
    var n := |daily|;
    if n < 2 {
      return None, InsufficientReturnSamples;
    }
    NothingSummed();
    var sum := 0.0;
    for i := 0 to n
      invariant sum == Sum(daily[..i])
    {
      SumSnoc(daily[..i], daily[i]);
      assert daily[..i+1] == daily[..i] + [daily[i]];
      sum := sum + daily[i];
    }
    assert daily[..n] == daily;
    var mean := sum / n as real;
    var sq := 0.0;
    for i := 0 to n
      invariant sq == SquaredSpread(daily[..i], mean)
    {
      SpreadSnoc(daily[..i], daily[i], mean);
      assert daily[..i+1] == daily[..i] + [daily[i]];
      sq := sq + Square(daily[i] - mean);
    }
    NoSpreadIffEqual(daily);
    var deviation := f.root(sq / (n - 1) as real);
    RootZeroIff(f, sq, n - 1);
    if deviation == 0.0 {
      return None, ZeroVolatility;
    }
    sharpe, status := Some(mean / deviation * f.root(ANNUALIZATION_FACTOR)), Calculated;
    Rescaled(mean, deviation, f.root(ANNUALIZATION_FACTOR));
  }

  lemma RootZeroIff(f: Analysis, sq: real, n: nat)
    requires Exact(f) && sq >= 0.0 && n > 0
    ensures f.root(sq / n as real) >= 0.0
    ensures f.root(sq / n as real) == 0.0 <==> sq == 0.0
  {
    hide Square, Reciprocal;
    Quotient(sq, n as real);
  }

  lemma Quotient(a: real, b: real)
    requires a >= 0.0 && b > 0.0
    ensures a / b >= 0.0 && (a / b == 0.0 <==> a == 0.0)
  {
    assert a / b * b == a;
  }

  lemma Rescaled(mean: real, deviation: real, factor: real)
    requires deviation > 0.0
    ensures mean / deviation * factor * deviation == mean * factor
  {
    assert mean / deviation * deviation == mean;
  }

  // ----- the whole calculation -----

  lemma CurvePoints(curve: seq<Point>)
    requires CurveAccepted(curve)
    ensures forall i :: 0 <= i < |curve| ==> curve[i].date.Some? && curve[i].equity.Some? && curve[i].equity.value > 0.0
  {
    forall i | 0 <= i < |curve| ensures curve[i].date.Some? && curve[i].equity.Some? && curve[i].equity.value > 0.0 {
      assert PointAccepted(curve, i);
    }
  }

  function Equities(curve: seq<Point>): (r: seq<real>)
    requires CurveAccepted(curve)
    ensures |r| == |curve| && AllPositive(r)
    ensures forall i :: 0 <= i < |r| ==> curve[i].equity == Some(r[i])
  {
    CurvePoints(curve);
    seq(|curve|, i requires 0 <= i < |curve| => curve[i].equity.value)
  }

  ghost predicate ElapsedBetween(first: Point, last: Point, days: int) {
    first.date.Some? && last.date.Some? && first.date.value + days == last.date.value
  }

  /** The daily returns compound to the whole change of the curve. */
  function Compounded(daily: seq<real>): real {
    if daily == [] then 1.0 else Compounded(daily[..|daily|-1]) * (1.0 + daily[|daily|-1])
  }

  function Growth(from: real, to: real): real
    requires from != 0.0
  {
    to / from
  }

  lemma CompoundsOn(daily: seq<real>, first: real, before: real, next: real)
    requires first > 0.0 && before > 0.0 && next > 0.0 && Compounded(daily) == Growth(first, before)
    ensures Change(before, next) > -1.0
    ensures Compounded(daily + [Change(before, next)]) == Growth(first, next)
  {
    assert (daily + [Change(before, next)])[..|daily|] == daily;
    assert Compounded(daily + [Change(before, next)]) == Growth(first, before) * Growth(before, next);
    hide Compounded;
    assert before / first * (next / before) == next / first;
  }

  method DailyReturns(e: seq<real>) returns (daily: seq<real>)
    requires e != [] && AllPositive(e)
    ensures |daily| == |e| - 1
    ensures forall i :: 0 <= i < |daily| ==> daily[i] == Change(e[i], e[i+1]) && daily[i] > -1.0
    ensures Compounded(daily) == Growth(e[0], e[|e|-1])
  {
    assert e[0] / e[0] == 1.0;
    assert Compounded([]) == Growth(e[0], e[0]);
    hide Change, Compounded, Growth;
    daily := [];
    for i := 1 to |e|
      invariant |daily| == i - 1
      invariant forall k :: 0 <= k < |daily| ==> daily[k] == Change(e[k], e[k+1]) && daily[k] > -1.0
      invariant Compounded(daily) == Growth(e[0], e[i-1])
    {
      CompoundsOn(daily, e[0], e[i-1], e[i]);
      daily := daily + [Change(e[i-1], e[i])];
    }
  }

  /** Checks the curve point by point, stopping at the first bad one. */
  method CheckCurve(curve: seq<Point>) returns (ok: bool)
    ensures ok <==> CurveAccepted(curve)
  {
    var seen: set<int> := {};
    for i := 0 to |curve|
      invariant forall k :: 0 <= k < i ==> PointAccepted(curve, k) && curve[k].date.value in seen
      invariant forall date <- seen :: exists k :: 0 <= k < i && curve[k].date == Some(date)
    {
      var point := curve[i];
      if point.date.None? {
        assert !PointAccepted(curve, i);
        return false;
      }
      if point.date.value in seen {
        assert !PointAccepted(curve, i);
        return false;
      }
      seen := seen + {point.date.value};
      if i > 0 && point.date.value <= curve[i-1].date.value {
        assert !PointAccepted(curve, i);
        return false;
      }
      if point.equity.None? || point.equity.value <= 0.0 {
        assert !PointAccepted(curve, i);
        return false;
      }
      assert i > 0 ==> PointAccepted(curve, i - 1);
    }
    ok := true;
  }

  /** What a completed calculation says about the ledger. */
  ghost predicate MetricsMean(f: Analysis, l: Ledger, r: Metrics)
    requires LedgerAccepted(l) && r.Completed?
  {
    var e, pnl := Equities(l.curve.value), Amounts(l.trades.value);
    && (1.0 + r.totalReturn) * l.initialCapital.value == l.finalEquity.value && r.totalReturn > -1.0
    && ElapsedBetween(l.curve.value[0], l.curve.value[|e|-1], r.elapsedDays) && r.elapsedDays >= |e| - 1
    && IsMaxDrawdown(e, r.mdd) && -1.0 < r.mdd <= 0.0
    && IsTally(pnl, r.wins, r.losses, r.breakevens, r.grossProfit, r.grossLoss)
    && RatesMean(pnl, r)
    && |r.dailyReturns| == |e| - 1 && Compounded(r.dailyReturns) == Growth(e[0], e[|e|-1])
    && CagrMeans(f, l.finalEquity.value / l.initialCapital.value, r.elapsedDays, r.cagr, r.cagrStatus)
    && SharpeMeans(f, r.dailyReturns, r.sharpe, r.sharpeStatus)
  }

  method CalculatePerformanceMetrics(f: Analysis, l: Ledger) returns (r: Metrics)
    requires Exact(f)
    ensures r.Completed? <==> LedgerAccepted(l)
    ensures r.Completed? ==> MetricsMean(f, l, r)
    ensures r == Blocked(PortfolioNotCompleted) <==> !l.completed
    ensures r == Blocked(InvalidEquityCurve) <==>
              && l.completed && InputAccepted(l)
              && !(CurveAccepted(l.curve.value) && l.curve.value[|l.curve.value|-1].equity == l.finalEquity)
  {
    hide CurveAccepted, IsMaxDrawdown, IsTally, Compounded, RatesMean, CagrMeans, SharpeMeans, Exact;
    if !l.completed {
      return Blocked(PortfolioNotCompleted);
    }
    if !InputAccepted(l) {
      return Blocked(InvalidInput);
    }
    var curve, trades := l.curve.value, l.trades.value;
    var ok := CheckCurve(curve);
    if !ok {
      return Blocked(InvalidEquityCurve);
    }
    if curve[|curve|-1].equity != l.finalEquity {
      return Blocked(InvalidEquityCurve);
    }
    var e := Equities(curve);
    DatesSpread(curve, |curve| - 1);
    CurvePoints(curve);
    var mdd := MaxDrawdown(e);
    var tally := TallyTrades(trades);
    if tally.None? {
      return Blocked(InvalidInput);
    }
    var Tally(wins, losses, breakevens, grossProfit, signedGrossLoss) := tally.value;
    var daily := DailyReturns(e);
    var growth := l.finalEquity.value / l.initialCapital.value;
    var elapsedDays := curve[|curve|-1].date.value - curve[0].date.value;
    var cagr, cagrStatus := AnnualGrowth(f, growth, elapsedDays);
    var sharpe, sharpeStatus := SharpeRatio(f, daily);
    var base := Completed(growth - 1.0, elapsedDays, mdd,
                          wins, losses, breakevens, grossProfit, if signedGrossLoss == 0.0 then 0.0 else -signedGrossLoss,
                          None, NoClosedTrades, None, NoClosedTrades, daily, cagr, cagrStatus, sharpe, sharpeStatus);
    r := Rates(Amounts(trades), base);
  }

  lemma {:induction false} DatesSpread(curve: seq<Point>, i: nat)
    requires CurveAccepted(curve) && i < |curve|
    ensures curve[i].date.Some? && curve[i].equity.Some? && curve[i].equity.value > 0.0
    ensures curve[0].date.Some? && curve[i].date.value - curve[0].date.value >= i
  {
    assert PointAccepted(curve, i);
    if i > 0 {
      DatesSpread(curve, i - 1);
    }
  }
}
