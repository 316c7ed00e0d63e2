/** The synthetic calendar validator: independent passes over the day records whose joint
    acceptance pins the record list to an exact enumeration of the coverage. */
module CalendarValidation {
  import opened Options
  import opened CivilDates

  const MAX_COVERAGE_SPAN_DAYS := 40000

  datatype DayStatus = TradingDay | NonTradingDay | DayPending | DayConflict | UnknownDayStatus
  datatype SessionStatus = SessionFinal | SessionPending | UnknownSessionStatus

  /** `date` is the day number of a date in the synthetic years, None for anything else.
      `wellShaped` gathers the field-presence, alias and status-source checks. */
  datatype DayRecord = DayRecord(
    date: Option<int>,
    dayStatus: DayStatus,
    sessionStatus: SessionStatus,
    market: string,
    calendarId: string,
    wellShaped: bool)

  datatype Coverage = Coverage(from: Option<int>, to: Option<int>)

  datatype Calendar = Calendar(market: string, calendarId: string, coverage: Coverage, days: seq<DayRecord>)

  datatype ErrorCode =
    | InvalidDayRecord
    | InvalidTradingDate
    | DuplicateCalendarDate
    | NonMonotonicCalendarDate
    | InvalidCoverageRange
    | DateOutsideCoverage
    | DateMissing
    | MarketMismatch
    | PendingDay
    | ConflictingDay
    | CandleOnNonTradingDay
    | SessionSchedulePending
    | InvalidMarket
    | RangeInsufficient
    | InvalidRequirement
    | WarmupInsufficient
    | EvaluationInsufficient

  datatype CalendarError = CalendarError(code: ErrorCode, index: Option<nat>, day: Option<int>)

  predicate InSyntheticYears(date: Option<int>) {
    date.Some? ==> FIRST_DAY <= date.value <= LAST_DAY
  }

  ghost predicate Parsed(cal: Calendar) {
    && InSyntheticYears(cal.coverage.from) && InSyntheticYears(cal.coverage.to)
    && forall i :: 0 <= i < |cal.days| ==> InSyntheticYears(cal.days[i].date)
  }

  // ----- sequence pass -----

  predicate DayAccepted(day: DayRecord, market: string, calendarId: string) {
    && day.wellShaped
    && day.date.Some?
    && !day.dayStatus.UnknownDayStatus?
    && !day.sessionStatus.UnknownSessionStatus?
    && day.market == market
    && day.calendarId == calendarId
  }

  ghost predicate Ascending(days: seq<DayRecord>) {
    && (forall i :: 0 <= i < |days| ==> days[i].date.Some?)
    && forall i, j :: 0 <= i < j < |days| ==> days[i].date.value < days[j].date.value
  }

  ghost predicate SequenceAccepted(days: seq<DayRecord>, market: string, calendarId: string) {
    Ascending(days) && forall i :: 0 <= i < |days| ==> DayAccepted(days[i], market, calendarId)
  }

  /** Accepts exactly the strictly ascending lists of accepted records. */
  method ValidateSequence(days: seq<DayRecord>, market: string, calendarId: string) returns (errors: seq<CalendarError>)
    ensures errors == [] <==> SequenceAccepted(days, market, calendarId)
  {
    errors := [];
    var seen: set<int> := {};
    var previous: Option<int> := None;
    for i := 0 to |days|
      invariant errors == [] <==> SequenceAccepted(days[..i], market, calendarId)
      invariant errors == [] ==> forall x :: x in seen <==> exists k :: 0 <= k < i && days[k].date == Some(x)
      invariant errors == [] ==> previous == if i == 0 then None else days[i-1].date
    {
      var day := days[i];
      assert days[..i+1] == days[..i] + [day];
      if !DayAccepted(day, market, calendarId) {
        errors := errors + [CalendarError(InvalidDayRecord, Some(i), day.date)];
      }
      if day.date.Some? {
        var current := day.date.value;
        if current in seen {
          errors := errors + [CalendarError(DuplicateCalendarDate, Some(i), Some(current))];
        } else if previous.Some? && current < previous.value {
          errors := errors + [CalendarError(NonMonotonicCalendarDate, Some(i), Some(current))];
        }
        seen := seen + {current};
        previous := Some(current);
      }
    }
    assert days[..|days|] == days;
  }

  // ----- coverage pass -----

  /** The days from..to, cut after MAX_COVERAGE_SPAN_DAYS + 1 of them. */
  function Enumerated(from: int, to: int): (r: seq<int>)
    ensures |r| == if to < from then 0 else if to - from <= MAX_COVERAGE_SPAN_DAYS then to - from + 1 else MAX_COVERAGE_SPAN_DAYS + 1
    ensures forall i :: 0 <= i < |r| ==> r[i] == from + i
  {
    var n := if to < from then 0 else if to - from <= MAX_COVERAGE_SPAN_DAYS then to - from + 1 else MAX_COVERAGE_SPAN_DAYS + 1;
    seq(n, i => from + i)
  }

  method EnumerateCalendarDates(from: int, to: int) returns (out: seq<int>)
    ensures out == Enumerated(from, to)
  {
    out := [];
    var current := from;
    var guard := 0;
    while current <= to && guard <= MAX_COVERAGE_SPAN_DAYS
      invariant 0 <= guard == |out| <= MAX_COVERAGE_SPAN_DAYS + 1
      invariant current == from + guard
      invariant guard > 0 ==> current <= to + 1
      invariant forall i :: 0 <= i < |out| ==> out[i] == from + i
    {
      out := out + [current];
      current := current + 1;
      guard := guard + 1;
    }
  }

  /** The guard never cuts a coverage of the synthetic years. */
  lemma GuardNeverCuts(from: int, to: int)
    requires FIRST_DAY <= from <= to <= LAST_DAY
    ensures |Enumerated(from, to)| == to - from + 1
  {
    SyntheticSpan();
  }

  ghost predicate Present(days: seq<DayRecord>, x: int) {
    exists i :: 0 <= i < |days| && days[i].date == Some(x)
  }

  ghost predicate CoverageAccepted(cal: Calendar) {
    && cal.coverage.from.Some? && cal.coverage.to.Some?
    && var from, to := cal.coverage.from.value, cal.coverage.to.value;
       && from <= to
       && (forall i :: 0 <= i < |cal.days| ==> cal.days[i].date.Some? && from <= cal.days[i].date.value <= to)
       && forall x :: from <= x <= to ==> Present(cal.days, x)
  }

  method ValidateCoverage(cal: Calendar) returns (errors: seq<CalendarError>)
    requires Parsed(cal)
    ensures errors == [] <==> CoverageAccepted(cal)
  {
    errors := [];
    if cal.coverage.from.None? || cal.coverage.to.None? {
      return [CalendarError(InvalidTradingDate, None, None)];
    }
    var from, to := cal.coverage.from.value, cal.coverage.to.value;
    if from > to {
      return [CalendarError(InvalidCoverageRange, None, None)];
    }
    var present: set<int> := {};
    for i := 0 to |cal.days|
      invariant errors == [] <==> forall k :: 0 <= k < i ==> cal.days[k].date.Some? && from <= cal.days[k].date.value <= to
      invariant forall x :: x in present ==> Present(cal.days, x)
      invariant forall k :: 0 <= k < i && cal.days[k].date.Some? && from <= cal.days[k].date.value <= to ==> cal.days[k].date.value in present
    {
      var date := cal.days[i].date;
      if date.None? {
        errors := errors + [CalendarError(InvalidTradingDate, Some(i), None)];
      } else if date.value < from || date.value > to {
        errors := errors + [CalendarError(DateOutsideCoverage, Some(i), date)];
      } else {
        present := present + {date.value};
      }
    }
    var dates := EnumerateCalendarDates(from, to);
    GuardNeverCuts(from, to);
    ghost var inside := errors == [];
    for k := 0 to |dates|
      invariant errors == [] <==> inside && forall j :: 0 <= j < k ==> dates[j] in present
    {
      if dates[k] !in present {
        errors := errors + [CalendarError(DateMissing, None, Some(dates[k]))];
      }
    }
    if errors == [] {
      forall x | from <= x <= to ensures Present(cal.days, x) {
        assert dates[x - from] == x;
      }
    } else if inside && CoverageAccepted(cal) {
      forall j | 0 <= j < |dates| ensures dates[j] in present {
        assert Present(cal.days, dates[j]);
      }
    }
  }

  // ----- the two passes together -----

  /** The records are the coverage, day by day. */
  ghost predicate Tiles(cal: Calendar) {
    && cal.coverage.from.Some? && cal.coverage.to.Some?
    && cal.coverage.from.value <= cal.coverage.to.value
    && |cal.days| == cal.coverage.to.value - cal.coverage.from.value + 1
    && forall i :: 0 <= i < |cal.days| ==> cal.days[i].date == Some(cal.coverage.from.value + i)
  }

  lemma {:induction false} AscendingCompleteIsConsecutive(cal: Calendar, i: nat)
    requires Ascending(cal.days) && CoverageAccepted(cal)
    requires cal.coverage.from.value + i <= cal.coverage.to.value
    ensures i < |cal.days| && cal.days[i].date == Some(cal.coverage.from.value + i)
  {
    var from := cal.coverage.from.value;
    if i > 0 {
      AscendingCompleteIsConsecutive(cal, i - 1);
    }
    assert Present(cal.days, from + i);
    var j :| 0 <= j < |cal.days| && cal.days[j].date == Some(from + i);
    assert j >= i;
  }

  lemma PassesTile(cal: Calendar)
    ensures SequenceAccepted(cal.days, cal.market, cal.calendarId) && CoverageAccepted(cal)
       <==> Tiles(cal) && forall i :: 0 <= i < |cal.days| ==> DayAccepted(cal.days[i], cal.market, cal.calendarId)
  {
    if SequenceAccepted(cal.days, cal.market, cal.calendarId) && CoverageAccepted(cal) {
      var from, to := cal.coverage.from.value, cal.coverage.to.value;
      forall x | from <= x <= to ensures x - from < |cal.days| && cal.days[x - from].date == Some(x) {
        AscendingCompleteIsConsecutive(cal, x - from);
      }
      assert cal.days[to - from].date == Some(to);
      assert cal.days[|cal.days| - 1].date.value <= to;
    }
    if Tiles(cal) {
      var from, to := cal.coverage.from.value, cal.coverage.to.value;
      forall x | from <= x <= to ensures Present(cal.days, x) {
        assert cal.days[x - from].date == Some(x);
      }
    }
  }

  /** Both passes accept exactly the calendars whose i-th record is day from + i, for the
      whole coverage and nothing else. */
  lemma AcceptedIffTiles(cal: Calendar)
    ensures SequenceAccepted(cal.days, cal.market, cal.calendarId) && CoverageAccepted(cal)
       <==> Tiles(cal) && forall i :: 0 <= i < |cal.days| ==> WellMarked(cal, cal.days[i])
  {
    PassesTile(cal);
    hide SequenceAccepted, CoverageAccepted;
    if Tiles(cal) {
      forall i | 0 <= i < |cal.days|
        ensures DayAccepted(cal.days[i], cal.market, cal.calendarId) <==> WellMarked(cal, cal.days[i])
      {
        assert cal.days[i].date.Some?;
      }
    }
  }

  /** A record in shape, of the calendar's own market and identity, with both statuses known. */
  ghost predicate WellMarked(cal: Calendar, day: DayRecord) {
    && day.wellShaped && day.market == cal.market && day.calendarId == cal.calendarId
    && day.dayStatus != UnknownDayStatus && day.sessionStatus != UnknownSessionStatus
  }

  // ----- counting -----

  predicate Inside(date: Option<int>, from: int, to: int) {
    date.Some? && from <= date.value <= to
  }

  predicate Counts(day: DayRecord, from: int, to: int) {
    day.dayStatus.TradingDay? && Inside(day.date, from, to)
  }

  method CountTradingDays(days: seq<DayRecord>, from: int, to: int) returns (count: nat)
    ensures count == Count(days, from, to)
  {
    count := 0;
    for i := 0 to |days|
      invariant count == Count(days[..i], from, to)
    {
      assert days[..i+1][..i] == days[..i];
      if Counts(days[i], from, to) {
        count := count + 1;
      }
    }
    assert days[..|days|] == days;
  }

  function Count(days: seq<DayRecord>, from: int, to: int): nat {
    if days == [] then 0
    else Count(days[..|days|-1], from, to) + if Counts(days[|days|-1], from, to) then 1 else 0
  }

  /** The trading days of a window, as a set of days. */
  ghost function TradingDays(days: seq<DayRecord>, from: int, to: int): set<int> {
    set i | 0 <= i < |days| && Counts(days[i], from, to) :: days[i].date.value
  }

  /** On ascending records the count is a count of days, those of the window whose record says that
      there is trading: no day is counted twice. */
  lemma CountIsSize(days: seq<DayRecord>, from: int, to: int)
    requires Ascending(days)
    ensures Count(days, from, to) == |TradingDays(days, from, to)|
    ensures forall x :: x in TradingDays(days, from, to) <==>
              from <= x <= to && exists i :: 0 <= i < |days| && days[i].date == Some(x) && days[i].dayStatus.TradingDay?
  {
    CountedOnce(days, from, to);
    forall i | 0 <= i < |days|
      ensures Counts(days[i], from, to) <==> days[i].dayStatus.TradingDay? && days[i].date.Some? && from <= days[i].date.value <= to
    {
    }
    hide Count, Counts, Ascending;
  }

  lemma {:induction false} CountedOnce(days: seq<DayRecord>, from: int, to: int)
    requires Ascending(days)
    ensures Count(days, from, to) == |TradingDays(days, from, to)|
  {
    if days != [] {
      hide TradingDays, Counts;
      var init, last := days[..|days|-1], days[|days|-1];
      CountedOnce(init, from, to);
      assert days == init + [last];
      TradingDaysGrow(init, last, from, to);
    }
  }

  lemma TradingDaysGrow(init: seq<DayRecord>, last: DayRecord, from: int, to: int)
    requires Ascending(init + [last])
    ensures |TradingDays(init + [last], from, to)| == |TradingDays(init, from, to)| + if Counts(last, from, to) then 1 else 0
  {
    var days := init + [last];
    var more, rest := TradingDays(days, from, to), TradingDays(init, from, to);
    var added: set<int> := if Counts(last, from, to) then {last.date.value} else {};
    assert days[|init|] == last;
    forall x | x in rest ensures x in more && x !in added {
      var i :| 0 <= i < |init| && Counts(init[i], from, to) && init[i].date == Some(x);
      assert days[i] == init[i] && days[i].date.value < days[|init|].date.value;
    }
    forall x | x in more ensures x in rest || x in added {
      var i :| 0 <= i < |days| && Counts(days[i], from, to) && days[i].date == Some(x);
      assert i == |init| || days[i] == init[i];
    }
    assert more == rest + added;
  }

  lemma {:induction false} CountSplits(days: seq<DayRecord>, from: int, mid: int, to: int)
    requires from <= mid <= to + 1
    ensures Count(days, from, mid - 1) + Count(days, mid, to) == Count(days, from, to)
  {
    if days != [] {
      CountSplits(days[..|days|-1], from, mid, to);
    }
  }

  /** Pending, conflicting and session errors of the records inside a window. */
  predicate WindowClear(days: seq<DayRecord>, from: int, to: int) {
    forall i :: 0 <= i < |days| && Inside(days[i].date, from, to) ==>
      !days[i].dayStatus.DayPending? && !days[i].dayStatus.DayConflict?
      && (days[i].dayStatus.TradingDay? ==> days[i].sessionStatus.SessionFinal?)
  }

  /** On an accepted calendar a window inside the coverage is clear exactly when every day of it has a
      record that decides it: no trading, or trading in a final session. */
  lemma ClearIffDecided(cal: Calendar, from: int, to: int)
    requires SequenceAccepted(cal.days, cal.market, cal.calendarId) && CoverageAccepted(cal)
    requires cal.coverage.from.value <= from && to <= cal.coverage.to.value
    ensures WindowClear(cal.days, from, to) <==>
              forall x :: from <= x <= to ==> Decided(cal.days, x)
  {
    AcceptedIffTiles(cal);
    hide SequenceAccepted, CoverageAccepted;
    var first := cal.coverage.from.value;
    forall i | 0 <= i < |cal.days| ensures WellMarked(cal, cal.days[i]) && cal.days[i].date == Some(first + i) {
    }
    if WindowClear(cal.days, from, to) {
      forall x | from <= x <= to ensures Decided(cal.days, x) {
        assert Decides(cal.days[x - first], x);
      }
    }
    if forall x :: from <= x <= to ==> Decided(cal.days, x) {
      forall i | 0 <= i < |cal.days| && from <= first + i <= to ensures Decides(cal.days[i], first + i) {
        assert Decided(cal.days, first + i);
        var j :| 0 <= j < |cal.days| && Decides(cal.days[j], first + i);
        assert j == i;
      }
    }
  }

  ghost predicate Decided(days: seq<DayRecord>, x: int) {
    exists i :: 0 <= i < |days| && Decides(days[i], x)
  }

  ghost predicate Decides(day: DayRecord, x: int) {
    day.date == Some(x) && (day.dayStatus == NonTradingDay || (day.dayStatus == TradingDay && day.sessionStatus == SessionFinal))
  }

  method CheckWindowStatuses(days: seq<DayRecord>, from: int, to: int, already: seq<CalendarError>) returns (errors: seq<CalendarError>)
    ensures errors == [] <==> already == [] && WindowClear(days, from, to)
  {
    errors := already;
    for i := 0 to |days|
      invariant errors == [] <==> already == [] && WindowClear(days[..i], from, to)
    {
      assert days[..i+1] == days[..i] + [days[i]];
      var day := days[i];
      if Inside(day.date, from, to) {
        if day.dayStatus.DayPending? {
          errors := errors + [CalendarError(PendingDay, Some(i), day.date)];
        } else if day.dayStatus.DayConflict? {
          errors := errors + [CalendarError(ConflictingDay, Some(i), day.date)];
        } else if day.dayStatus.TradingDay? && !day.sessionStatus.SessionFinal? {
          errors := errors + [CalendarError(SessionSchedulePending, Some(i), day.date)];
        }
      }
    }
    assert days[..|days|] == days;
  }

  predicate Within(x: int, coverage: Coverage) {
    coverage.from.Some? && coverage.to.Some? && coverage.from.value <= x <= coverage.to.value
  }

  /** The warm-up window is everything before the feature start. */
  method ValidateWarmupRange(cal: Calendar, required: int, featureStart: Option<int>)
    returns (errors: seq<CalendarError>, tradingDays: Option<nat>)
    ensures tradingDays.Some? <==> required >= 0 && featureStart.Some? && Within(featureStart.value, cal.coverage)
    ensures tradingDays.Some? ==> tradingDays.value == Count(cal.days, cal.coverage.from.value, featureStart.value - 1)
    ensures errors == [] <==>
              tradingDays.Some? && required <= tradingDays.value
              && WindowClear(cal.days, cal.coverage.from.value, featureStart.value - 1)
  {
    errors, tradingDays := [], None;
    if required < 0 {
      return [CalendarError(InvalidRequirement, None, None)], None;
    }
    if featureStart.None? {
      return [CalendarError(InvalidTradingDate, None, None)], None;
    }
    if cal.coverage.from.None? || cal.coverage.to.None? {
      return [CalendarError(InvalidCoverageRange, None, None)], None;
    }
    var from := cal.coverage.from.value;
    if featureStart.value < from || featureStart.value > cal.coverage.to.value {
      return [CalendarError(DateOutsideCoverage, None, featureStart)], None;
    }
    var windowTo := featureStart.value - 1;
    var count := 0;
    if windowTo >= from {
      count := CountTradingDays(cal.days, from, windowTo);
    } else {
      EmptyWindowCountsNothing(cal.days, from, windowTo);
    }
    errors := CheckWindowStatuses(cal.days, from, windowTo, errors);
    if count < required {
      errors := errors + [CalendarError(WarmupInsufficient, None, featureStart)];
    }
    tradingDays := Some(count);
  }

  lemma {:induction false} EmptyWindowCountsNothing(days: seq<DayRecord>, from: int, to: int)
    requires to < from
    ensures Count(days, from, to) == 0
  {
    if days != [] {
      EmptyWindowCountsNothing(days[..|days|-1], from, to);
    }
  }

  method ValidateEvaluationRange(cal: Calendar, required: int, featureStart: Option<int>, evaluationEnd: Option<int>)
    returns (errors: seq<CalendarError>, tradingDays: Option<nat>)
    ensures tradingDays.Some? <==>
              required >= 0 && featureStart.Some? && evaluationEnd.Some? && featureStart.value <= evaluationEnd.value
              && Within(featureStart.value, cal.coverage) && Within(evaluationEnd.value, cal.coverage)
    ensures tradingDays.Some? ==> tradingDays.value == Count(cal.days, featureStart.value, evaluationEnd.value)
    ensures errors == [] <==>
              tradingDays.Some? && required <= tradingDays.value
              && WindowClear(cal.days, featureStart.value, evaluationEnd.value)
  {
    errors, tradingDays := [], None;
    if required < 0 {
      return [CalendarError(InvalidRequirement, None, None)], None;
    }
    if featureStart.None? || evaluationEnd.None? {
      return [CalendarError(InvalidTradingDate, None, None)], None;
    }
    if featureStart.value > evaluationEnd.value {
      return [CalendarError(InvalidCoverageRange, None, featureStart)], None;
    }
    if cal.coverage.from.None? || cal.coverage.to.None? {
      return [CalendarError(InvalidCoverageRange, None, None)], None;
    }
    if !Within(featureStart.value, cal.coverage) {
      errors := errors + [CalendarError(DateOutsideCoverage, None, featureStart)];
    }
    if !Within(evaluationEnd.value, cal.coverage) {
      errors := errors + [CalendarError(DateOutsideCoverage, None, evaluationEnd)];
    }
    if errors != [] {
      return;
    }
    var count := CountTradingDays(cal.days, featureStart.value, evaluationEnd.value);
    errors := CheckWindowStatuses(cal.days, featureStart.value, evaluationEnd.value, errors);
    if count < required {
      errors := errors + [CalendarError(EvaluationInsufficient, None, evaluationEnd)];
    }
    tradingDays := Some(count);
  }

  /** On an accepted calendar the warm-up and evaluation counts add up to the number of
      distinct trading days from the start of the coverage to the end of the evaluation. */
  lemma WindowsAddUp(cal: Calendar, featureStart: int, evaluationEnd: int)
    requires SequenceAccepted(cal.days, cal.market, cal.calendarId) && CoverageAccepted(cal)
    requires Within(featureStart, cal.coverage) && featureStart <= evaluationEnd
    ensures Count(cal.days, cal.coverage.from.value, featureStart - 1) + Count(cal.days, featureStart, evaluationEnd)
         == |TradingDays(cal.days, cal.coverage.from.value, evaluationEnd)|
  {
    CountSplits(cal.days, cal.coverage.from.value, featureStart, evaluationEnd);
    CountIsSize(cal.days, cal.coverage.from.value, evaluationEnd);
  }

  // ----- candles against the calendar -----

  datatype CandleDate = CandleDate(date: Option<int>, market: string)

  /** The first record of each date, as the validator's lookup map holds it. */
  function DayMap(days: seq<DayRecord>): (m: map<int, DayRecord>)
    ensures forall x :: x in m <==> exists i :: 0 <= i < |days| && days[i].date == Some(x)
    ensures forall x :: x in m ==> m[x] in days && m[x].date == Some(x)
  {
    if days == [] then map[]
    else
      var init := DayMap(days[..|days|-1]);
      var last := days[|days|-1];
      if last.date.Some? && last.date.value !in init then init[last.date.value := last] else init
  }

  predicate CandleAllowed(cal: Calendar, m: map<int, DayRecord>, market: string, c: CandleDate) {
    && c.date.Some?
    && c.market == market
    && (cal.coverage.from.Some? && cal.coverage.to.Some? ==> Within(c.date.value, cal.coverage))
    && c.date.value in m
    && m[c.date.value].market == market
    && m[c.date.value].dayStatus.TradingDay?
    && m[c.date.value].sessionStatus.SessionFinal?
  }

  const MARKETS: set<string> := {"SYNTHETIC_KOSPI", "SYNTHETIC_KOSDAQ"}

  /** A requested range of days, its ends None when they do not parse. */
  datatype Requested = Requested(from: Option<int>, to: Option<int>)

  predicate RangeCovered(coverage: Coverage, r: Requested) {
    r.from.Some? && r.to.Some? && r.from.value <= r.to.value && Within(r.from.value, coverage) && Within(r.to.value, coverage)
  }

  /** No nearest date is ever substituted: the range must lie in the coverage as it stands. */
  method ValidateRequestedRange(coverage: Coverage, r: Requested) returns (errors: seq<CalendarError>)
    ensures errors == [] <==> RangeCovered(coverage, r)
  {
    errors := [];
    if coverage.from.None? || coverage.to.None? {
      return [CalendarError(InvalidTradingDate, None, None)];
    }
    if r.from.None? {
      errors := errors + [CalendarError(InvalidTradingDate, None, None)];
    }
    if r.to.None? {
      errors := errors + [CalendarError(InvalidTradingDate, None, None)];
    }
    if r.from.None? || r.to.None? {
      return;
    }
    if r.from.value > r.to.value {
      return [CalendarError(InvalidCoverageRange, None, r.from)];
    }
    if r.from.value < coverage.from.value {
      errors := errors + [CalendarError(RangeInsufficient, None, r.from)];
    }
    if r.to.value > coverage.to.value {
      errors := errors + [CalendarError(RangeInsufficient, None, r.to)];
    }
  }

  /** On an accepted calendar a range is covered exactly when every day of it has its record. */
  lemma RangeCoveredIffPresent(cal: Calendar, from: int, to: int)
    requires SequenceAccepted(cal.days, cal.market, cal.calendarId) && CoverageAccepted(cal) && from <= to
    ensures RangeCovered(cal.coverage, Requested(Some(from), Some(to))) <==> forall x :: from <= x <= to ==> Present(cal.days, x)
  {
    if forall x :: from <= x <= to ==> Present(cal.days, x) {
      assert Present(cal.days, from) && Present(cal.days, to);
    }
  }

  /** `requested` is None when neither end of a required range is given. */
  method ValidateCandleDates(cal: Calendar, market: string, requested: Option<Requested>, candles: seq<CandleDate>)
    returns (errors: seq<CalendarError>)
    ensures errors == [] <==>
              && market in MARKETS && cal.market == market
              && (requested.Some? ==> RangeCovered(cal.coverage, requested.value))
              && forall k :: 0 <= k < |candles| ==> CandleAllowed(cal, DayMap(cal.days), market, candles[k])
  {
    errors := [];
    if market !in MARKETS {
      return [CalendarError(InvalidMarket, None, None)];
    }
    if cal.market != market {
      return [CalendarError(MarketMismatch, None, None)];
    }
    if requested.Some? {
      errors := ValidateRequestedRange(cal.coverage, requested.value);
    }
    ghost var ranged := errors == [];
    var dayMap := DayMap(cal.days);
    for i := 0 to |candles|
      invariant errors == [] <==> ranged && forall k :: 0 <= k < i ==> CandleAllowed(cal, dayMap, market, candles[k])
    {
      var c := candles[i];
      if c.date.None? {
        errors := errors + [CalendarError(InvalidTradingDate, Some(i), None)];
      } else if c.market != market {
        errors := errors + [CalendarError(MarketMismatch, Some(i), c.date)];
      } else if cal.coverage.from.Some? && cal.coverage.to.Some? && !Within(c.date.value, cal.coverage) {
        errors := errors + [CalendarError(DateOutsideCoverage, Some(i), c.date)];
      } else if c.date.value !in dayMap {
        errors := errors + [CalendarError(DateMissing, Some(i), c.date)];
      } else {
        var record := dayMap[c.date.value];
        if record.market != market {
          errors := errors + [CalendarError(MarketMismatch, Some(i), c.date)];
        } else if record.dayStatus.DayPending? {
          errors := errors + [CalendarError(PendingDay, Some(i), c.date)];
        } else if record.dayStatus.DayConflict? {
          errors := errors + [CalendarError(ConflictingDay, Some(i), c.date)];
        } else if !record.dayStatus.TradingDay? {
          errors := errors + [CalendarError(CandleOnNonTradingDay, Some(i), c.date)];
        } else if !record.sessionStatus.SessionFinal? {
          errors := errors + [CalendarError(SessionSchedulePending, Some(i), c.date)];
        }
      }
    }
  }

  /** On an accepted calendar the lookup is plain arithmetic: a candle is allowed exactly when
      its market is right, its date is covered and record date - from is a final trading day. */
  lemma CandleLookupIsOffset(cal: Calendar, c: CandleDate)
    requires SequenceAccepted(cal.days, cal.market, cal.calendarId) && CoverageAccepted(cal)
    ensures CandleAllowed(cal, DayMap(cal.days), cal.market, c) <==>
              c.market == cal.market && c.date.Some? && Within(c.date.value, cal.coverage)
              && var k := c.date.value - cal.coverage.from.value;
                 k < |cal.days| && cal.days[k].dayStatus.TradingDay? && cal.days[k].sessionStatus.SessionFinal?
  {
    AcceptedIffTiles(cal);
    if c.date.Some? && Within(c.date.value, cal.coverage) {
      var k := c.date.value - cal.coverage.from.value;
      assert cal.days[k].date == c.date;
      var record := DayMap(cal.days)[c.date.value];
      var j :| 0 <= j < |cal.days| && cal.days[j] == record;
      assert j == k;
    }
  }
}
