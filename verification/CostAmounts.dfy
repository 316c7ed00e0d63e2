/** Integer money arithmetic of the cost engine: rates in parts per million, three rounding
    modes, and the guards that keep every figure an exactly represented integer. */
module CostAmounts {
  const PPM := 1_000_000
  const MAX_SAFE_INTEGER := 9_007_199_254_740_991

  datatype RoundingMode = Floor | Ceil | HalfUp | UnknownMode

  datatype AmountError = InvalidMoneyAmount | InvalidRatePpm | InvalidRoundingMode | ArithmeticOverflow

  datatype AmountResult = Amount(value: int) | Failed(error: AmountError)

  predicate IsSafe(n: int) {
    -MAX_SAFE_INTEGER <= n <= MAX_SAFE_INTEGER
  }

  predicate IsMoney(n: int) {
    0 <= n <= MAX_SAFE_INTEGER
  }

  function Abs(n: int): nat {
    if n < 0 then -n else n
  }

  // ----- products -----

  /** The product guard divides instead of multiplying. */
  function SafeMultiply(a: int, b: int): AmountResult {
    if !IsSafe(a) || !IsSafe(b) then Failed(ArithmeticOverflow)
    else if a != 0 && b != 0 && Abs(a) > MAX_SAFE_INTEGER / Abs(b) then Failed(ArithmeticOverflow)
    else Amount(a * b)
  }

  lemma QuotientBound(a: nat, b: nat, n: nat)
    requires b > 0
    ensures a <= n / b <==> a * b <= n
  {
    var q, r := n / b, n % b;
    assert n == q * b + r;
    if a <= q {
      Monotone(a, q, b);
    } else {
      Monotone(q + 1, a, b);
      assert (q + 1) * b == q * b + b;
    }
  }

  lemma Monotone(a: int, b: int, k: int)
    requires a <= b && k >= 0
    ensures a * k <= b * k
  {
  }

  lemma AbsProduct(a: int, b: int)
    ensures Abs(a * b) == Abs(a) * Abs(b)
  {
    if a < 0 {
      assert a * b == -(Abs(a) * b);
    }
    if b < 0 {
      assert Abs(a) * b == -(Abs(a) * Abs(b));
    }
    Monotone(0, Abs(a), Abs(b));
  }

  /** The guard succeeds exactly when the true product is a safe integer, and then returns it. */
  lemma SafeMultiplyExact(a: int, b: int)
    requires IsSafe(a) && IsSafe(b)
    ensures SafeMultiply(a, b) == if IsSafe(a * b) then Amount(a * b) else Failed(ArithmeticOverflow)
  {
    if a != 0 && b != 0 {
      QuotientBound(Abs(a), Abs(b), MAX_SAFE_INTEGER);
      AbsProduct(a, b);
    }
  }

  // ----- rates -----

  function Rounded(product: nat, mode: RoundingMode): nat {
    var quotient, remainder := product / PPM, product % PPM;
    match mode
    case Floor => quotient
    case Ceil => if remainder == 0 then quotient else quotient + 1
    case _ => if remainder * 2 >= PPM then quotient + 1 else quotient
  }

  function ApplyRatePpm(amount: int, rate: int, mode: RoundingMode): AmountResult {
    if !IsMoney(amount) then Failed(InvalidMoneyAmount)
    else if rate < 0 then Failed(InvalidRatePpm)
    else if mode.UnknownMode? then Failed(InvalidRoundingMode)
    else
      Monotone(0, amount, rate);
      if amount * rate > MAX_SAFE_INTEGER then Failed(ArithmeticOverflow)
      else
        var r := Rounded(amount * rate, mode);
        if !IsSafe(r) then Failed(ArithmeticOverflow) else Amount(r)
  }

  /** v is the rounding of product / PPM that the mode names. */
  predicate RoundsTo(product: int, mode: RoundingMode, v: int) {
    match mode
    case Floor => v * PPM <= product < (v + 1) * PPM
    case Ceil => (v - 1) * PPM < product <= v * PPM
    case _ => (2 * v - 1) * PPM <= 2 * product < (2 * v + 1) * PPM
  }

  /** On valid arguments a rate fails exactly when the exact product is not a safe integer, and
      otherwise gives the one integer its rounding mode names. */
  lemma RateIsExact(amount: int, rate: int, mode: RoundingMode)
    requires IsMoney(amount) && rate >= 0 && !mode.UnknownMode?
    ensures var r := ApplyRatePpm(amount, rate, mode);
            && (r.Failed? <==> amount * rate > MAX_SAFE_INTEGER)
            && (r.Failed? ==> r.error == ArithmeticOverflow)
            && (r.Amount? ==> r.value >= 0 && forall v :: RoundsTo(amount * rate, mode, v) <==> v == r.value)
  {
    hide Rounded, RoundsTo;
    Monotone(0, amount, rate);
    RoundedIsUnique(amount * rate, mode);
    RoundedIsSmaller(amount * rate, mode);
  }

  lemma RoundedIsUnique(product: nat, mode: RoundingMode)
    requires !mode.UnknownMode?
    ensures forall v :: RoundsTo(product, mode, v) <==> v == Rounded(product, mode)
  {
    var quotient, remainder := product / PPM, product % PPM;
    assert product == quotient * PPM + remainder;
    var r := Rounded(product, mode);
    assert RoundsTo(product, mode, r);
  }

  lemma RoundedIsSmaller(product: nat, mode: RoundingMode)
    ensures Rounded(product, mode) <= product
  {
  }

  datatype Commission = Commission(rate: int, minimum: int, mode: RoundingMode)

  function CalculateCommission(amount: int, c: Commission): AmountResult {
    var rounded := ApplyRatePpm(amount, c.rate, c.mode);
    if rounded.Failed? then rounded
    else if !IsMoney(c.minimum) then Failed(InvalidMoneyAmount)
    else Amount(if rounded.value >= c.minimum then rounded.value else c.minimum)
  }

  /** v is what the commission comes to: the rounded rate or the minimum, whichever is more. */
  ghost predicate CommissionOf(amount: int, c: Commission, v: int) {
    && amount * c.rate <= MAX_SAFE_INTEGER
    && v >= c.minimum
    && exists rounded :: RoundsTo(amount * c.rate, c.mode, rounded) && v >= rounded && (v == rounded || v == c.minimum)
  }

  predicate CommissionAccepted(c: Commission) {
    0 <= c.rate && IsMoney(c.minimum) && !c.mode.UnknownMode?
  }

  /** On valid arguments a commission fails exactly when the exact product is not a safe integer,
      and otherwise is the one amount that is the rounded rate or the minimum, whichever is more. */
  lemma CommissionMeans(amount: int, c: Commission)
    requires IsMoney(amount) && CommissionAccepted(c)
    ensures var r := CalculateCommission(amount, c);
            && (r.Failed? <==> amount * c.rate > MAX_SAFE_INTEGER)
            && (r.Amount? ==> IsMoney(r.value))
            && forall v :: CommissionOf(amount, c, v) <==> r == Amount(v)
  {
    hide ApplyRatePpm, RoundsTo;
    RateIsExact(amount, c.rate, c.mode);
    NonNegativeRate(amount, c.rate, c.mode);
    var r := CalculateCommission(amount, c);
    if r.Amount? {
      var rounded := ApplyRatePpm(amount, c.rate, c.mode).value;
      assert RoundsTo(amount * c.rate, c.mode, rounded);
      forall v ensures CommissionOf(amount, c, v) <==> v == r.value {
        if CommissionOf(amount, c, v) {
          var other :| RoundsTo(amount * c.rate, c.mode, other) && v >= other && (v == other || v == c.minimum);
          assert other == rounded;
        }
        if v == r.value {
          assert v >= rounded && (v == rounded || v == c.minimum);
        }
      }
    }
  }

  // ----- sums -----

  /** What double-precision addition of integers guarantees: exact up to 2^53, and monotone. */
  ghost predicate DoubleRounding(fl: int -> int) {
    && (forall n :: -MAX_SAFE_INTEGER - 1 <= n <= MAX_SAFE_INTEGER + 1 ==> fl(n) == n)
    && (forall m, n :: m <= n ==> fl(m) <= fl(n))
  }

  /** Checking the rounded sum is as good as checking the true one. */
  lemma SumGuardIsSound(fl: int -> int, a: int, b: int)
    requires DoubleRounding(fl)
    ensures IsSafe(fl(a + b)) <==> IsSafe(a + b)
    ensures IsSafe(a + b) ==> fl(a + b) == a + b
  {
    assert fl(MAX_SAFE_INTEGER + 1) == MAX_SAFE_INTEGER + 1;
    assert fl(-MAX_SAFE_INTEGER - 1) == -MAX_SAFE_INTEGER - 1;
    if a + b > MAX_SAFE_INTEGER {
      assert fl(MAX_SAFE_INTEGER + 1) <= fl(a + b);
    }
    if a + b < -MAX_SAFE_INTEGER {
      assert fl(a + b) <= fl(-MAX_SAFE_INTEGER - 1);
    }
  }

  datatype SellTax = SellTax(taxType: string, rate: int, mode: RoundingMode)

  datatype TaxResult = Taxes(amounts: seq<int>, total: int) | TaxFailed(error: AmountError)

  function Sum(amounts: seq<int>): int {
    if amounts == [] then 0 else Sum(amounts[..|amounts|-1]) + amounts[|amounts|-1]
  }

  /** Every tax rounds on its own; the running total must stay a safe integer. */
  function SellTaxes(amount: int, taxes: seq<SellTax>): TaxResult {
    if !IsMoney(amount) then TaxFailed(InvalidMoneyAmount)
    else if taxes == [] then Taxes([], 0)
    else
      match SellTaxes(amount, taxes[..|taxes|-1])
      case TaxFailed(e) => TaxFailed(e)
      case Taxes(amounts, total) =>
        var tax := taxes[|taxes|-1];
        match ApplyRatePpm(amount, tax.rate, tax.mode)
        case Failed(e) => TaxFailed(e)
        case Amount(v) => if !IsSafe(total + v) then TaxFailed(ArithmeticOverflow) else Taxes(amounts + [v], total + v)
  }

  lemma {:induction false} TaxFailureStays(amount: int, taxes: seq<SellTax>, n: nat)
    requires n <= |taxes| && SellTaxes(amount, taxes[..n]).TaxFailed?
    ensures SellTaxes(amount, taxes) == SellTaxes(amount, taxes[..n])
  {
    if n == |taxes| {
      assert taxes[..n] == taxes;
    } else {
      assert taxes[..|taxes|-1][..n] == taxes[..n];
      TaxFailureStays(amount, taxes[..|taxes|-1], n);
    }
  }

  method CalculateSellTaxes(fl: int -> int, amount: int, taxes: seq<SellTax>) returns (r: TaxResult)
    requires DoubleRounding(fl)
    ensures r == SellTaxes(amount, taxes)
  {
    if !IsMoney(amount) {
      return TaxFailed(InvalidMoneyAmount);
    }
    var amounts: seq<int> := [];
    var total := 0;
    for i := 0 to |taxes|
      invariant SellTaxes(amount, taxes[..i]) == Taxes(amounts, total)
    {
      assert taxes[..i+1][..i] == taxes[..i];
      var applied := ApplyRatePpm(amount, taxes[i].rate, taxes[i].mode);
      if applied.Failed? {
        TaxFailureStays(amount, taxes, i + 1);
        return TaxFailed(applied.error);
      }
      SumGuardIsSound(fl, total, applied.value);
      var sum := fl(total + applied.value);
      if !IsSafe(sum) {
        TaxFailureStays(amount, taxes, i + 1);
        return TaxFailed(ArithmeticOverflow);
      }
      amounts := amounts + [applied.value];
      total := sum;
    }
    assert taxes[..|taxes|] == taxes;
    r := Taxes(amounts, total);
  }

  lemma LastAmount(amount: int, taxes: seq<SellTax>) returns (v: int)
    requires taxes != [] && SellTaxes(amount, taxes).Taxes?
    ensures var before, r := SellTaxes(amount, taxes[..|taxes|-1]), SellTaxes(amount, taxes);
            && before.Taxes? && r == Taxes(before.amounts + [v], before.total + v) && IsSafe(r.total)
            && ApplyRatePpm(amount, taxes[|taxes|-1].rate, taxes[|taxes|-1].mode) == Amount(v)
  {
    hide ApplyRatePpm;
    v := ApplyRatePpm(amount, taxes[|taxes|-1].rate, taxes[|taxes|-1].mode).value;
  }

  lemma SumSnoc(s: seq<int>, v: int)
    ensures Sum(s + [v]) == Sum(s) + v
  {
    assert (s + [v])[..|s|] == s;
  }

  /** The total is the exact sum of separately rounded taxes. */
  lemma {:induction false} TotalIsSum(amount: int, taxes: seq<SellTax>)
    requires SellTaxes(amount, taxes).Taxes?
    ensures var r := SellTaxes(amount, taxes);
            && |r.amounts| == |taxes| && r.total == Sum(r.amounts) && 0 <= r.total <= MAX_SAFE_INTEGER
            && forall i :: 0 <= i < |taxes| ==> ApplyRatePpm(amount, taxes[i].rate, taxes[i].mode) == Amount(r.amounts[i])
  {
    hide ApplyRatePpm, SellTaxes;
    if taxes == [] {
      NoTaxes(amount, taxes);
    } else {
      var init, last := taxes[..|taxes|-1], taxes[|taxes|-1];
      var v := LastAmount(amount, taxes);
      TotalIsSum(amount, init);
      NonNegativeRate(amount, last.rate, last.mode);
      var before := SellTaxes(amount, init);
      SumSnoc(before.amounts, v);
      forall i | 0 <= i < |taxes| ensures ApplyRatePpm(amount, taxes[i].rate, taxes[i].mode) == Amount((before.amounts + [v])[i]) {
        assert i < |init| ==> taxes[i] == init[i];
      }
    }
  }

  lemma NonNegativeRate(amount: int, rate: int, mode: RoundingMode)
    ensures var r := ApplyRatePpm(amount, rate, mode); r.Amount? ==> IsMoney(r.value)
  {
  }

  /** Each tax rounds its own rate of the amount, and the total is their sum. */
  ghost predicate TaxesOf(amount: int, taxes: seq<SellTax>, amounts: seq<int>, total: int) {
    && |amounts| == |taxes| && total == Sum(amounts) && IsSafe(total)
    && forall i :: 0 <= i < |taxes| ==> TaxOf(amount, taxes[i], amounts[i])
  }

  ghost predicate TaxOf(amount: int, tax: SellTax, v: int) {
    amount * tax.rate <= MAX_SAFE_INTEGER && RoundsTo(amount * tax.rate, tax.mode, v)
  }

  predicate TaxesAccepted(taxes: seq<SellTax>) {
    forall i :: 0 <= i < |taxes| ==> taxes[i].rate >= 0 && !taxes[i].mode.UnknownMode?
  }

  lemma TaxMeans(amount: int, tax: SellTax, v: int)
    requires IsMoney(amount) && TaxesAccepted([tax])
    ensures TaxOf(amount, tax, v) <==> ApplyRatePpm(amount, tax.rate, tax.mode) == Amount(v)
  {
    assert [tax][0] == tax;
    hide ApplyRatePpm, RoundsTo;
    RateIsExact(amount, tax.rate, tax.mode);
  }

  /** On valid arguments the taxes are the only amounts of that description, and fail only if there are none. */
  lemma {:induction false} TaxesMean(amount: int, taxes: seq<SellTax>, amounts: seq<int>, total: int)
    requires IsMoney(amount) && TaxesAccepted(taxes)
    ensures TaxesOf(amount, taxes, amounts, total) <==> SellTaxes(amount, taxes) == Taxes(amounts, total)
  {
    hide ApplyRatePpm, RoundsTo, TaxOf;
    if taxes == [] {
      assert amounts == [] ==> Sum(amounts) == 0;
    } else if amounts != [] {
      var n := |taxes| - 1;
      var init, last := amounts[..|amounts|-1], amounts[|amounts|-1];
      TaxesMean(amount, taxes[..n], init, Sum(init));
      TaxMeans(amount, taxes[n], last);
      if TaxesOf(amount, taxes, amounts, total) {
        NonNegativeRate(amount, taxes[n].rate, taxes[n].mode);
        TaxesStaySafe(amount, taxes, amounts);
        assert init + [last] == amounts;
      }
      if SellTaxes(amount, taxes) == Taxes(amounts, total) {
        TaxesAre(amount, taxes);
      }
    } else {
      if SellTaxes(amount, taxes) == Taxes(amounts, total) {
        TaxesAre(amount, taxes);
      }
    }
  }

  lemma TaxesAre(amount: int, taxes: seq<SellTax>)
    requires IsMoney(amount) && TaxesAccepted(taxes) && SellTaxes(amount, taxes).Taxes?
    ensures var r := SellTaxes(amount, taxes); TaxesOf(amount, taxes, r.amounts, r.total)
  {
    hide ApplyRatePpm, RoundsTo, TaxOf;
    TotalIsSum(amount, taxes);
    var r := SellTaxes(amount, taxes);
    forall i | 0 <= i < |taxes| ensures TaxOf(amount, taxes[i], r.amounts[i]) {
      TaxMeans(amount, taxes[i], r.amounts[i]);
    }
  }

  lemma TaxesStaySafe(amount: int, taxes: seq<SellTax>, amounts: seq<int>)
    requires IsMoney(amount) && TaxesAccepted(taxes) && TaxesOf(amount, taxes, amounts, Sum(amounts))
    ensures forall k :: 0 <= k <= |amounts| ==> 0 <= Sum(amounts[..k]) <= Sum(amounts)
  {
    hide RoundsTo;
    forall i | 0 <= i < |amounts| ensures amounts[i] >= 0 {
      TaxMeans(amount, taxes[i], amounts[i]);
      NonNegativeRate(amount, taxes[i].rate, taxes[i].mode);
    }
    PartialSums(amounts);
  }

  lemma {:induction false} PartialSums(amounts: seq<int>)
    requires forall i :: 0 <= i < |amounts| ==> amounts[i] >= 0
    ensures forall k :: 0 <= k <= |amounts| ==> 0 <= Sum(amounts[..k]) <= Sum(amounts)
  {
    assert amounts[..|amounts|] == amounts;
    if amounts != [] {
      var init := amounts[..|amounts|-1];
      PartialSums(init);
      assert init[..|init|] == init;
      forall k | 0 <= k <= |amounts| ensures 0 <= Sum(amounts[..k]) <= Sum(amounts) {
        assert k < |amounts| ==> init[..k] == amounts[..k];
      }
    }
  }

  function RateSum(taxes: seq<SellTax>): int {
    if taxes == [] then 0 else RateSum(taxes[..|taxes|-1]) + taxes[|taxes|-1].rate
  }

  predicate AllRound(taxes: seq<SellTax>, mode: RoundingMode) {
    forall i :: 0 <= i < |taxes| ==> taxes[i].mode == mode
  }

  lemma LastTax(amount: int, taxes: seq<SellTax>)
    requires SellTaxes(amount, taxes).Taxes? && taxes != []
    ensures var init, last := taxes[..|taxes|-1], taxes[|taxes|-1];
            var v := ApplyRatePpm(amount, last.rate, last.mode);
            && v.Amount? && RoundsTo(amount * last.rate, last.mode, v.value)
            && SellTaxes(amount, init).Taxes?
            && SellTaxes(amount, taxes).total == SellTaxes(amount, init).total + v.value
            && amount * RateSum(taxes) == amount * RateSum(init) + amount * last.rate
  {
    var last := taxes[|taxes|-1];
    RateIsExact(amount, last.rate, last.mode);
    Distribute(amount, RateSum(taxes[..|taxes|-1]), last.rate);
  }

  lemma Distribute(a: int, b: int, c: int)
    ensures a * (b + c) == a * b + a * c
  {
  }

  lemma NoTaxes(amount: int, taxes: seq<SellTax>)
    requires taxes == []
    ensures amount * RateSum(taxes) == 0
    ensures SellTaxes(amount, taxes).Taxes? ==> SellTaxes(amount, taxes) == Taxes([], 0)
  {
  }

  /** Separate floors lose less than one unit each. */
  lemma {:induction false} FloorsAgainstProduct(amount: int, taxes: seq<SellTax>)
    requires SellTaxes(amount, taxes).Taxes? && AllRound(taxes, Floor)
    ensures var t := SellTaxes(amount, taxes).total;
            && t * PPM <= amount * RateSum(taxes)
            && (taxes != [] ==> amount * RateSum(taxes) < (t + |taxes|) * PPM)
  {
    if taxes == [] {
      NoTaxes(amount, taxes);
    } else {
      hide ApplyRatePpm, RateSum;
      LastTax(amount, taxes);
      FloorsAgainstProduct(amount, taxes[..|taxes|-1]);
      if |taxes| == 1 {
        NoTaxes(amount, taxes[..0]);
      }
    }
  }

  /** n separately floored taxes total at most the floored tax of the summed rate, and miss it
      by at most n - 1. */
  lemma SeparateFloors(amount: int, taxes: seq<SellTax>, joint: int)
    requires SellTaxes(amount, taxes).Taxes? && AllRound(taxes, Floor) && taxes != []
    requires RoundsTo(amount * RateSum(taxes), Floor, joint)
    ensures SellTaxes(amount, taxes).total <= joint <= SellTaxes(amount, taxes).total + |taxes| - 1
  {
    FloorsAgainstProduct(amount, taxes);
  }

  /** Separate ceilings overshoot by less than one unit each. */
  lemma {:induction false} CeilsAgainstProduct(amount: int, taxes: seq<SellTax>)
    requires SellTaxes(amount, taxes).Taxes? && AllRound(taxes, Ceil)
    ensures var t := SellTaxes(amount, taxes).total;
            && amount * RateSum(taxes) <= t * PPM
            && (taxes != [] ==> (t - |taxes|) * PPM < amount * RateSum(taxes))
  {
    if taxes == [] {
      NoTaxes(amount, taxes);
    } else {
      hide ApplyRatePpm, RateSum;
      LastTax(amount, taxes);
      CeilsAgainstProduct(amount, taxes[..|taxes|-1]);
      if |taxes| == 1 {
        NoTaxes(amount, taxes[..0]);
      }
    }
  }

  lemma SeparateCeils(amount: int, taxes: seq<SellTax>, joint: int)
    requires SellTaxes(amount, taxes).Taxes? && AllRound(taxes, Ceil) && taxes != []
    requires RoundsTo(amount * RateSum(taxes), Ceil, joint)
    ensures SellTaxes(amount, taxes).total - |taxes| + 1 <= joint <= SellTaxes(amount, taxes).total
  {
    CeilsAgainstProduct(amount, taxes);
  }
}
