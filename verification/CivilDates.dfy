/** Civil dates of the proleptic Gregorian calendar and their day numbers. The other modules
    use day numbers; the lemmas here say that nothing is lost by it: YYYY-MM-DD string order
    is day-number order, and stepping a date by one day steps its number by one. */
module CivilDates {
  import StableSort

  datatype Ymd = Ymd(y: int, m: int, d: int)

  predicate IsLeap(y: int) {
    y % 4 == 0 && (y % 100 != 0 || y % 400 == 0)
  }

  function DaysInMonth(y: int, m: int): (n: int)
    requires 1 <= m <= 12
    ensures 28 <= n <= 31
  {
    if m == 2 then (if IsLeap(y) then 29 else 28)
    else if m in {4, 6, 9, 11} then 30
    else 31
  }

  predicate Valid(t: Ymd) {
    0 <= t.y <= 9999 && 1 <= t.m <= 12 && 1 <= t.d <= DaysInMonth(t.y, t.m)
  }

  /** Calendar order; TextOrderIsDateOrder says it is the order of the strings YYYY-MM-DD. */
  predicate Before(a: Ymd, b: Ymd) {
    a.y < b.y || (a.y == b.y && (a.m < b.m || (a.m == b.m && a.d < b.d)))
  }

  function Next(t: Ymd): Ymd
    requires Valid(t)
  {
    if t.d < DaysInMonth(t.y, t.m) then Ymd(t.y, t.m, t.d + 1)
    else if t.m < 12 then Ymd(t.y, t.m + 1, 1)
    else Ymd(t.y + 1, 1, 1)
  }

  /** Days before the first of January of year y. */
  function DaysBeforeYear(y: int): int {
    365 * y + (y + 3) / 4 - (y + 99) / 100 + (y + 399) / 400
  }

  function DaysBeforeMonth(y: int, m: int): int
    requires 1 <= m <= 12
    decreases m
  {
    if m == 1 then 0 else DaysBeforeMonth(y, m - 1) + DaysInMonth(y, m - 1)
  }

  function DayNumber(t: Ymd): int
    requires 1 <= t.m <= 12
  {
    DaysBeforeYear(t.y) + DaysBeforeMonth(t.y, t.m) + t.d - 1
  }

  lemma QuotientStep4(y: int)
    requires y >= 0
    ensures (y + 4) / 4 == (y + 3) / 4 + if y % 4 == 0 then 1 else 0
  {
  }

  lemma QuotientStep100(y: int)
    requires y >= 0
    ensures (y + 100) / 100 == (y + 99) / 100 + if y % 100 == 0 then 1 else 0
  {
  }

  lemma QuotientStep400(y: int)
    requires y >= 0
    ensures (y + 400) / 400 == (y + 399) / 400 + if y % 400 == 0 then 1 else 0
  {
  }

  lemma LeapDivisors(y: int)
    ensures y % 400 == 0 ==> y % 100 == 0
    ensures y % 100 == 0 ==> y % 4 == 0
  {
    var c, f := y / 100, y / 400;
    if y % 100 == 0 {
      assert y == 4 * (25 * c);
    }
    if y % 400 == 0 {
      assert y == 100 * (4 * f);
    }
  }

  lemma LeapStep(y: int)
    requires y >= 0
    ensures DaysBeforeYear(y + 1) == DaysBeforeYear(y) + 365 + if IsLeap(y) then 1 else 0
  {
    QuotientStep4(y);
    QuotientStep100(y);
    QuotientStep400(y);
    LeapDivisors(y);
  }

  lemma YearLength(y: int)
    requires y >= 0
    ensures DaysBeforeMonth(y, 12) + DaysInMonth(y, 12) == 365 + if IsLeap(y) then 1 else 0
    ensures DaysBeforeYear(y + 1) == DaysBeforeYear(y) + DaysBeforeMonth(y, 12) + 31
  {
    LeapStep(y);
    assert DaysBeforeMonth(y, 4) == DaysInMonth(y, 2) + 62;
    assert DaysBeforeMonth(y, 7) == DaysBeforeMonth(y, 4) + 91;
    assert DaysBeforeMonth(y, 10) == DaysBeforeMonth(y, 7) + 92;
    assert DaysBeforeMonth(y, 12) == DaysBeforeMonth(y, 10) + 61;
  }

  /** Stepping a civil date steps its day number by exactly one. */
  lemma NextDayNumber(t: Ymd)
    requires Valid(t)
    ensures DayNumber(Next(t)) == DayNumber(t) + 1
  {
    if t.d == DaysInMonth(t.y, t.m) && t.m == 12 {
      YearLength(t.y);
    }
  }

  lemma {:induction false} MonthsAscend(y: int, a: int, b: int)
    requires 1 <= a < b <= 12
    ensures DaysBeforeMonth(y, a) + DaysInMonth(y, a) <= DaysBeforeMonth(y, b)
    decreases b
  {
    if a < b - 1 {
      MonthsAscend(y, a, b - 1);
    }
  }

  lemma {:induction false} YearsAscend(a: int, b: int)
    requires 0 <= a < b
    ensures DaysBeforeYear(a) + DaysBeforeMonth(a, 12) + 31 <= DaysBeforeYear(b)
    decreases b
  {
    YearLength(b - 1);
    if a < b - 1 {
      YearsAscend(a, b - 1);
      MonthsAscend(b - 1, 1, 12);
    }
  }

  lemma EarlierIsSmaller(a: Ymd, b: Ymd)
    requires Valid(a) && Valid(b) && Before(a, b)
    ensures DayNumber(a) < DayNumber(b)
  {
    if a.y < b.y {
      YearsAscend(a.y, b.y);
      if a.m < 12 {
        MonthsAscend(a.y, a.m, 12);
      }
      if 1 < b.m {
        MonthsAscend(b.y, 1, b.m);
      }
    } else if a.m < b.m {
      MonthsAscend(a.y, a.m, b.m);
    }
  }

  /** String order of dates is the order of their day numbers, and different dates have
      different numbers. */
  lemma OrderIsDayNumberOrder(a: Ymd, b: Ymd)
    requires Valid(a) && Valid(b)
    ensures Before(a, b) <==> DayNumber(a) < DayNumber(b)
    ensures a == b <==> DayNumber(a) == DayNumber(b)
  {
    if Before(a, b) {
      EarlierIsSmaller(a, b);
    } else if a != b {
      EarlierIsSmaller(b, a);
    }
  }

  // ----- the ten characters of a date -----

  function Digit(n: int): char
    requires 0 <= n <= 9
  {
    '0' + n as char
  }

  function Two(n: int): (s: string)
    requires 0 <= n <= 99
    ensures |s| == 2
  {
    [Digit(n / 10), Digit(n % 10)]
  }

  function Four(n: int): (s: string)
    requires 0 <= n <= 9999
    ensures |s| == 4
  {
    Two(n / 100) + Two(n % 100)
  }

  /** YYYY-MM-DD, zero-padded. */
  function Text(t: Ymd): (s: string)
    requires Valid(t)
    ensures |s| == 10
  {
    Four(t.y) + "-" + Two(t.m) + "-" + Two(t.d)
  }

  lemma {:induction false} ConcatOrder(a: string, b: string, u: string, v: string)
    requires |a| == |b|
    ensures StableSort.Before(a + u, b + v) <==> StableSort.Before(a, b) || (a == b && StableSort.Before(u, v))
  {
    if a == "" {
      assert a + u == u && b + v == v;
    } else {
      ConcatOrder(a[1..], b[1..], u, v);
      assert (a + u)[1..] == a[1..] + u && (b + v)[1..] == b[1..] + v;
      assert a == [a[0]] + a[1..] && b == [b[0]] + b[1..];
      StableSort.BeforeIsOrder(a[1..], b[1..], a[1..]);
    }
  }

  lemma TwoOrder(m: int, n: int)
    requires 0 <= m <= 99 && 0 <= n <= 99
    ensures StableSort.Before(Two(m), Two(n)) <==> m < n
    ensures Two(m) == Two(n) <==> m == n
  {
    var s, t := Two(m), Two(n);
    assert s[0] == Digit(m / 10) && s[1] == Digit(m % 10) && t[0] == Digit(n / 10) && t[1] == Digit(n % 10);
    assert s[1..] == [s[1]] && t[1..] == [t[1]];
    assert StableSort.Before(s[1..], t[1..]) <==> s[1] < t[1];
  }

  lemma FourOrder(m: int, n: int)
    requires 0 <= m <= 9999 && 0 <= n <= 9999
    ensures StableSort.Before(Four(m), Four(n)) <==> m < n
    ensures Four(m) == Four(n) <==> m == n
  {
    hide Two;
    TwoOrder(m / 100, n / 100);
    TwoOrder(m % 100, n % 100);
    ConcatOrder(Two(m / 100), Two(n / 100), Two(m % 100), Two(n % 100));
    assert Four(m)[..2] == Two(m / 100) && Four(m)[2..] == Two(m % 100);
    assert Four(n)[..2] == Two(n / 100) && Four(n)[2..] == Two(n % 100);
  }

  /** Comparing the ten characters of two dates is comparing the dates. */
  lemma TextOrderIsDateOrder(a: Ymd, b: Ymd)
    requires Valid(a) && Valid(b)
    ensures StableSort.Before(Text(a), Text(b)) <==> Before(a, b)
    ensures StableSort.Before(Text(a), Text(b)) <==> DayNumber(a) < DayNumber(b)
    ensures Text(a) == Text(b) <==> a == b
  {
    hide Two, Four, DayNumber, StableSort.Before, DaysInMonth;
    OrderIsDayNumberOrder(a, b);
    FourOrder(a.y, b.y);
    TwoOrder(a.m, b.m);
    TwoOrder(a.d, b.d);
    var da, db := "-" + Two(a.d), "-" + Two(b.d);
    var ma, mb := "-" + (Two(a.m) + da), "-" + (Two(b.m) + db);
    assert Text(a) == Four(a.y) + ma && Text(b) == Four(b.y) + mb;
    ConcatOrder(Four(a.y), Four(b.y), ma, mb);
    ConcatOrder("-", "-", Two(a.m) + da, Two(b.m) + db);
    ConcatOrder(Two(a.m), Two(b.m), da, db);
    ConcatOrder("-", "-", Two(a.d), Two(b.d));
    StableSort.BeforeIsOrder("-", "-", "-");
    TextParts(a);
    TextParts(b);
  }

  lemma TextParts(t: Ymd)
    requires Valid(t)
    ensures Text(t)[..4] == Four(t.y) && Text(t)[5..7] == Two(t.m) && Text(t)[8..] == Two(t.d)
  {
  }

  /** The dates the synthetic engines accept: years 2100 to 2199. */
  const FIRST_DAY := DayNumber(Ymd(2100, 1, 1))
  const LAST_DAY := DayNumber(Ymd(2199, 12, 31))

  lemma SyntheticYearsAreDayRange(t: Ymd)
    requires Valid(t)
    ensures 2100 <= t.y <= 2199 <==> FIRST_DAY <= DayNumber(t) <= LAST_DAY
  {
    OrderIsDayNumberOrder(t, Ymd(2100, 1, 1));
    OrderIsDayNumberOrder(Ymd(2199, 12, 31), t);
  }

  lemma SyntheticSpan()
    ensures LAST_DAY - FIRST_DAY + 1 == 36524
  {
    YearLength(2199);
    assert DaysBeforeYear(2200) - DaysBeforeYear(2100) == 36524;
  }
}
