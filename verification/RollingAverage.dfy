/** The rolling simple moving average: one running sum and one count of missing values stand for
    every window. Prices are reals with an explicit missing value. */
module RollingAverage {
  datatype Num = NaN | Num(v: real)

  predicate Clean(arr: seq<Num>, lo: int, hi: int) {
    forall k :: 0 <= lo <= k < hi <= |arr| ==> arr[k].Num?
  }

  function ValueOf(x: Num): real {
    if x.Num? then x.v else 0.0
  }

  /** The sum of the present values at positions lo..hi, from the left. */
  function Total(arr: seq<Num>, lo: nat, hi: nat): real
    requires lo <= hi <= |arr|
    decreases hi - lo
  {
    if lo == hi then 0.0 else ValueOf(arr[lo]) + Total(arr, lo + 1, hi)
  }

  function Missing(arr: seq<Num>, lo: nat, hi: nat): (c: nat)
    requires lo <= hi <= |arr|
    ensures c == 0 <==> Clean(arr, lo, hi)
    decreases hi - lo
  {
    if lo == hi then 0 else (if arr[lo].NaN? then 1 else 0) + Missing(arr, lo + 1, hi)
  }

  lemma {:induction false} OneMore(arr: seq<Num>, lo: nat, hi: nat)
    requires lo <= hi < |arr|
    ensures Total(arr, lo, hi + 1) == Total(arr, lo, hi) + ValueOf(arr[hi])
    ensures Missing(arr, lo, hi + 1) == Missing(arr, lo, hi) + (if arr[hi].NaN? then 1 else 0)
    decreases hi - lo
  {
    if lo < hi {
      OneMore(arr, lo + 1, hi);
    }
  }

  lemma OneFewer(arr: seq<Num>, lo: nat, hi: nat)
    requires lo < hi <= |arr|
    ensures Total(arr, lo + 1, hi) == Total(arr, lo, hi) - ValueOf(arr[lo])
    ensures Missing(arr, lo + 1, hi) == Missing(arr, lo, hi) - (if arr[lo].NaN? then 1 else 0)
  {
  }

  lemma EmptyWindow(arr: seq<Num>)
    ensures Total(arr, 0, 0) == 0.0 && Missing(arr, 0, 0) == 0
  {
  }

  function Average(total: real, n: nat): real
    requires 1 <= n
  {
    total / n as real
  }

  /** The mean of the last n values when the window is full and complete, and missing otherwise. */
  function WindowMean(arr: seq<Num>, n: nat, i: nat): Num
    requires 1 <= n && i < |arr|
  {
    if n <= i + 1 && Clean(arr, i + 1 - n, i + 1) then Num(Average(Total(arr, i + 1 - n, i + 1), n)) else NaN
  }

  method SmaFn(arr: seq<Num>, n: nat) returns (out: array<Num>)
    requires 1 <= n
    ensures out.Length == |arr|
    ensures forall i :: 0 <= i < |arr| ==> out[i] == WindowMean(arr, n, i)
    ensures forall i :: 0 <= i < |arr| ==> (out[i].Num? <==> n <= i + 1 && forall k :: i - n < k <= i ==> arr[k].Num?)
    ensures forall i :: 0 <= i < |arr| && out[i].Num? ==> n <= i + 1 && Times(out[i].v, n) == Total(arr, i + 1 - n, i + 1)
  {
    hide Average, Total, Missing, Clean;
    out := new Num[|arr|](_ => NaN);
    EmptyWindow(arr);
    var s, nan := 0.0, 0;
    for i := 0 to |arr|
      invariant forall k :: 0 <= k < i ==> out[k] == WindowMean(arr, n, k)
      invariant forall k :: i <= k < |arr| ==> out[k] == NaN
      invariant var lo := if n <= i then i - n else 0;
                s == Total(arr, lo, i) && nan == Missing(arr, lo, i)
    {
      OneMore(arr, if n <= i then i - n else 0, i);
      if n <= i {
        OneFewer(arr, i - n, i + 1);
      }
      var v := arr[i];
      if v.NaN? {
        nan := nan + 1;
      } else {
        s := s + v.v;
      }
      if i >= n {
        var o := arr[i - n];
        if o.NaN? {
          nan := nan - 1;
        } else {
          s := s - o.v;
        }
      }
      if i >= n - 1 && nan == 0 {
        out[i] := Num(Average(s, n));
      }
    }
    forall i | 0 <= i < |arr| ensures MeansWindow(arr, n, i, out[i]) {
      WindowMeanMeans(arr, n, i);
    }
  }

  function Times(v: real, n: nat): real {
    v * n as real
  }

  /** There is a mean if the last n values are there, and n times the mean is their sum. */
  ghost predicate MeansWindow(arr: seq<Num>, n: nat, i: nat, r: Num)
    requires i < |arr|
  {
    && (r.Num? <==> n <= i + 1 && forall k :: i - n < k <= i ==> arr[k].Num?)
    && (r.Num? ==> n <= i + 1 && Times(r.v, n) == Total(arr, i + 1 - n, i + 1))
  }

  lemma WindowMeanMeans(arr: seq<Num>, n: nat, i: nat)
    requires 1 <= n && i < |arr|
    ensures MeansWindow(arr, n, i, WindowMean(arr, n, i))
  {
    hide Total;
  }

  /** The triangular average runs the rolling average twice. */
  method TmaFn(arr: seq<Num>, n: nat) returns (out: array<Num>)
    requires 1 <= n
    ensures out.Length == |arr|
    ensures forall i :: 0 <= i < |arr| ==> (out[i].Num? <==> 2 * n - 1 <= i + 1 && Clean(arr, i + 2 - 2 * n, i + 1))
    ensures forall i :: 0 <= i < |arr| && out[i].Num? ==>
              out[i] == WindowMean(seq(|arr|, k requires 0 <= k < |arr| => WindowMean(arr, n, k)), n, i)
  {
    var once := SmaFn(arr, n);
    var means := seq(|arr|, k requires 0 <= k < |arr| => WindowMean(arr, n, k));
    assert once[..] == means;
    out := SmaFn(once[..], n);
    forall i | 0 <= i < |arr| ensures out[i].Num? <==> 2 * n - 1 <= i + 1 && Clean(arr, i + 2 - 2 * n, i + 1) {
      TriangularReach(arr, n, i, means);
    }
  }

  /** A triangular average exists exactly when the last 2n - 1 values are all there. */
  lemma TriangularReach(arr: seq<Num>, n: nat, i: nat, means: seq<Num>)
    requires 1 <= n && i < |arr| == |means|
    requires forall k :: 0 <= k < |arr| ==> means[k] == WindowMean(arr, n, k)
    ensures WindowMean(means, n, i).Num? <==> 2 * n - 1 <= i + 1 && Clean(arr, i + 2 - 2 * n, i + 1)
  {
    if WindowMean(means, n, i).Num? {
      assert means[i + 1 - n].Num?;
      assert means[i].Num?;
      forall k | i + 2 - 2 * n <= k < i + 1 ensures arr[k].Num? {
        if k < i + 1 - n {
          assert Clean(arr, i + 2 - 2 * n, i + 2 - n);
        } else {
          assert Clean(arr, i + 1 - n, i + 1);
        }
      }
    }
    if 2 * n - 1 <= i + 1 && Clean(arr, i + 2 - 2 * n, i + 1) {
      forall k | i + 1 - n <= k < i + 1 ensures means[k].Num? {
        assert Clean(arr, k + 1 - n, k + 1);
      }
    }
  }
}
