/** FinancialPeriodService: the user's budgeting period as a function of today
    and an optional reset day of month (1..31). Without a reset day the period
    is the calendar month. With one, the period runs from the last reset day on
    or before today to the day before the next reset day.

    The source computes the reset days with Carbon's overflowing day(n),
    addMonth() and subMonth(). `CurrentPeriod`, `NextPeriod` and
    `IsInCurrentPeriod` model that arithmetic as written; the lemmas after them
    exhibit where it breaks the period's promise. `CurrentPeriodFixed`,
    `NextPeriodFixed` and `IsInCurrentPeriodFixed` clamp a reset day to the
    month's last day and carry the intended properties. */
module Periods {
  import opened Base
  import opened Calendar

  datatype Period = Period(start: Date, end: Date)

  /** The settings form accepts a null reset day or an integer in 1..31. */
  predicate ValidResetDay(reset: Option<int>) {
    reset.None? || 1 <= reset.value <= 31
  }

  /** Both ends included (Carbon gte / lte at day granularity). */
  predicate Contains(p: Period, d: Date) {
    NotAfter(p.start, d) && NotAfter(d, p.end)
  }

  /** getCurrentPeriod, as written. */
  function CurrentPeriod(reset: Option<int>, today: Date): (r: Period)
    requires ValidResetDay(reset)
    ensures reset.None? ==>
              (Contains(r, today) && r.start.day == 1
               && MonthIndex(r.start) == MonthIndex(today) == MonthIndex(r.end)
               && r.end.day == DaysInMonth(today.year, today.month))
    ensures reset.Some? && today.day >= reset.value ==>
              r.start == YMD(today.year, today.month, reset.value) && NotAfter(r.start, today)
  {
    match reset
    case None => Period(StartOfMonth(today), EndOfMonth(today))
    case Some(rd) =>
      if today.day >= rd then Period(SetDay(today, rd), PrevDay(SetDay(AddMonths(today, 1), rd)))
      else Period(SetDay(AddMonths(today, -1), rd), PrevDay(SetDay(today, rd)))
  }

  /** getNextPeriod, as written: without a reset day the calendar month of
      addMonth(); with one, from the day after the current period's end to the
      day before the reset day a month later. */
  function NextPeriod(reset: Option<int>, today: Date): (r: Period)
    requires ValidResetDay(reset)
    ensures reset.None? ==> r.start.day == 1 && MonthIndex(r.start) > MonthIndex(today)
    ensures reset.Some? ==> Before(CurrentPeriod(reset, today).end, r.start)
  {
    match reset
    case None =>
      var later := AddMonths(today, 1);
      Period(StartOfMonth(later), EndOfMonth(later))
    case Some(rd) =>
      var nextStart := NextDay(CurrentPeriod(reset, today).end);
      Period(nextStart, PrevDay(SetDay(AddMonths(nextStart, 1), rd)))
  }

  /** isInCurrentPeriod, as written. */
  predicate IsInCurrentPeriod(d: Date, reset: Option<int>, today: Date)
    requires ValidResetDay(reset)
  {
    Contains(CurrentPeriod(reset, today), d)
  }

  /** With a reset day the next period starts the day right after the current
      one ends: the two periods leave no gap. */
  lemma NextPeriodFollows(reset: Option<int>, today: Date)
    requires ValidResetDay(reset) && reset.Some?
    ensures PrevDay(NextPeriod(reset, today).start) == CurrentPeriod(reset, today).end
  {
    PrevOfNext(CurrentPeriod(reset, today).end);
  }

  /** With a reset day of at most 28 and today's day of month at most 28, no
      Carbon overflow occurs and the period is the intended one. */
  lemma CurrentPeriodWithoutOverflow(reset: Option<int>, today: Date)
    requires reset.Some? && 1 <= reset.value <= 28 && today.day <= 28
    ensures CurrentPeriod(reset, today) == CurrentPeriodFixed(reset, today)
  {
    var rd := reset.value;
    var mi := MonthIndex(today);
    assert ClampedDay(mi, rd) == YMD(today.year, today.month, rd);
    if today.day >= rd {
      var later := AddMonths(today, 1);
      assert MonthIndex(later) == mi + 1 && later.day == today.day;
      assert SetDay(later, rd) == ClampedDay(mi + 1, rd);
    } else {
      var earlier := AddMonths(today, -1);
      assert MonthIndex(earlier) == mi - 1 && earlier.day == today.day;
      assert SetDay(earlier, rd) == ClampedDay(mi - 1, rd);
      assert !NotAfter(ClampedDay(mi, rd), today);
    }
  }

  /** As written, on 1 March 2025 with reset day 30 the current period is
      2 March to 29 March: it does not contain today. subMonth() gives
      1 February, and day(30) overflows that to 2 March. */
  lemma CurrentPeriodMissesToday()
    ensures var today := YMD(2025, 3, 1);
      && CurrentPeriod(Some(30), today) == Period(YMD(2025, 3, 2), YMD(2025, 3, 29))
      && !IsInCurrentPeriod(today, Some(30), today)
  {
    assert Normalize(2025, 2, 30) == YMD(2025, 3, 2);
    assert AddMonths(YMD(2025, 3, 1), -1) == YMD(2025, 2, 1);
  }

  /** As written, on 31 January 2025 with reset day 15 the current period is
      15 January to 14 March: addMonth() overflows 31 January to 3 March. */
  lemma CurrentPeriodSpansTwoMonths()
    ensures CurrentPeriod(Some(15), YMD(2025, 1, 31)) == Period(YMD(2025, 1, 15), YMD(2025, 3, 14))
  {
    assert Normalize(2025, 2, 31) == YMD(2025, 3, 3);
    assert AddMonths(YMD(2025, 1, 31), 1) == YMD(2025, 3, 3);
  }

  /** As written, without a reset day the next period of 31 January 2025 is
      March: addMonth() overflows to 3 March, so February is skipped. */
  lemma NextPeriodSkipsMonth()
    ensures NextPeriod(None, YMD(2025, 1, 31)) == Period(YMD(2025, 3, 1), YMD(2025, 3, 31))
  {
    assert Normalize(2025, 2, 31) == YMD(2025, 3, 3);
    assert AddMonths(YMD(2025, 1, 31), 1) == YMD(2025, 3, 3);
  }

  /** The reset day in the month with index mi, clamped to the month's end. */
  function ResetDayIn(mi: int, rd: int): (r: Date)
    requires 1 <= rd
    ensures MonthIndex(r) == mi
  {
    ClampedDay(mi, rd)
  }

  /** getCurrentPeriod with clamped reset days: it always contains today. */
  function CurrentPeriodFixed(reset: Option<int>, today: Date): (r: Period)
    requires ValidResetDay(reset)
    ensures Contains(r, today)
  {
    match reset
    case None => Period(StartOfMonth(today), EndOfMonth(today))
    case Some(rd) =>
      var mi := MonthIndex(today);
      var here := ResetDayIn(mi, rd);
      if NotAfter(here, today) then
        var next := ResetDayIn(mi + 1, rd);
        EarlierMonthIsBefore(today, next);
        PrevDayIsPredecessor(next, today);
        Period(here, PrevDay(next))
      else
        var prior := ResetDayIn(mi - 1, rd);
        EarlierMonthIsBefore(prior, today);
        PrevDayIsPredecessor(here, today);
        Period(prior, PrevDay(here))
  }

  /** With a reset day the fixed period starts on a reset day and ends the day
      before the following month's reset day. */
  lemma CurrentPeriodFixedSpansResetDays(reset: Option<int>, today: Date)
    requires reset.Some? && 1 <= reset.value <= 31
    ensures var r := CurrentPeriodFixed(reset, today);
      && r.start == ResetDayIn(MonthIndex(r.start), reset.value)
      && NextDay(r.end) == ResetDayIn(MonthIndex(r.start) + 1, reset.value)
      && (MonthIndex(r.start) == MonthIndex(today) || MonthIndex(r.start) == MonthIndex(today) - 1)
  {
    var rd := reset.value;
    var mi := MonthIndex(today);
    var r := CurrentPeriodFixed(reset, today);
    if NotAfter(ResetDayIn(mi, rd), today) {
      assert r == Period(ResetDayIn(mi, rd), PrevDay(ResetDayIn(mi + 1, rd)));
      NextOfPrev(ResetDayIn(mi + 1, rd));
    } else {
      assert r == Period(ResetDayIn(mi - 1, rd), PrevDay(ResetDayIn(mi, rd)));
      NextOfPrev(ResetDayIn(mi, rd));
    }
  }

  /** The day after a month's last day is the next month's first day. */
  lemma AfterEndOfMonth(d: Date)
    ensures NextDay(EndOfMonth(d)) == FirstOfMonth(MonthIndex(d) + 1)
  {
    var e := EndOfMonth(d);
    if e.month < 12 {
      assert NextDay(e) == YMD(e.year, e.month + 1, 1);
    } else {
      assert NextDay(e) == YMD(e.year + 1, 1, 1);
    }
    MonthIndexLexicographic(NextDay(e), FirstOfMonth(MonthIndex(d) + 1));
  }

  /** getNextPeriod with clamped reset days and month steps. */
  function NextPeriodFixed(reset: Option<int>, today: Date): (r: Period)
    requires ValidResetDay(reset)
    ensures Before(CurrentPeriodFixed(reset, today).end, r.start)
  {
    match reset
    case None =>
      var first := FirstOfMonth(MonthIndex(today) + 1);
      EarlierMonthIsBefore(EndOfMonth(today), first);
      Period(first, EndOfMonth(first))
    case Some(rd) =>
      var nextStart := NextDay(CurrentPeriodFixed(reset, today).end);
      Period(nextStart, PrevDay(ResetDayIn(MonthIndex(nextStart) + 1, rd)))
  }

  /** The fixed next period is the period that will be current on its first
      day, and it starts the day after the current period ends. */
  lemma NextPeriodFixedIsCurrentThen(reset: Option<int>, today: Date)
    requires ValidResetDay(reset)
    ensures var next := NextPeriodFixed(reset, today);
      && next == CurrentPeriodFixed(reset, next.start)
      && next.start == NextDay(CurrentPeriodFixed(reset, today).end)
  {
    match reset
    case None =>
      AfterEndOfMonth(today);
    case Some(rd) =>
      var cur := CurrentPeriodFixed(reset, today);
      var next := NextPeriodFixed(reset, today);
      CurrentPeriodFixedSpansResetDays(reset, today);
      var mi := MonthIndex(cur.start) + 1;
      assert next.start == ResetDayIn(mi, rd);
      assert NotAfter(ResetDayIn(mi, rd), next.start);
  }

  /** isInCurrentPeriod with the fixed period. */
  predicate IsInCurrentPeriodFixed(d: Date, reset: Option<int>, today: Date)
    requires ValidResetDay(reset)
  {
    Contains(CurrentPeriodFixed(reset, today), d)
  }

  /** Today is in the fixed current period, and so are both of its ends. */
  lemma IsInCurrentPeriodFixedInclusive(reset: Option<int>, today: Date)
    requires ValidResetDay(reset)
    ensures var p := CurrentPeriodFixed(reset, today);
      && IsInCurrentPeriodFixed(today, reset, today)
      && IsInCurrentPeriodFixed(p.start, reset, today)
      && IsInCurrentPeriodFixed(p.end, reset, today)
  {
  }
}
