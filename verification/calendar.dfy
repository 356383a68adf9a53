/** Proleptic Gregorian calendar dates with the arithmetic the source gets from
    Carbon. Carbon's addMonths, addYears and day(n) OVERFLOW into the following
    month (31 January plus one month is 3 March in a common year); they do not
    clamp to the month's last day. `Normalize` is that overflow rule. The clamping
    variants at the end exist only for the corrected period and trend definitions. */
module Calendar {

  datatype YMD = YMD(year: int, month: int, day: int)

  predicate IsLeapYear(y: int) {
    (y % 4 == 0 && y % 100 != 0) || y % 400 == 0
  }

  function DaysInMonth(y: int, m: int): (r: int)
    requires 1 <= m <= 12
    ensures 28 <= r <= 31
    ensures m == 2 ==> (r == 29 <==> IsLeapYear(y))
  {
    if m == 2 then (if IsLeapYear(y) then 29 else 28)
    else if m == 4 || m == 6 || m == 9 || m == 11 then 30
    else 31
  }

  ghost predicate ValidYMD(d: YMD) {
    1 <= d.month <= 12 && 1 <= d.day <= DaysInMonth(d.year, d.month)
  }

  /** A calendar day (the `date` columns; times of day are not modelled). */
  type Date = d: YMD | 1 <= d.month <= 12 && 1 <= d.day <= DaysInMonth(d.year, d.month)
    witness YMD(2000, 1, 1)

  /** Months since year 0, month 1: the month a date falls in, as one integer. */
  function MonthIndex(d: YMD): int {
    d.year * 12 + d.month - 1
  }

  /** An order-preserving integer code of a date (not a day count): the day of the
      month never exceeds 31, so 32 slots per month keep the order exact. */
  function Rank(d: YMD): int {
    MonthIndex(d) * 32 + d.day - 1
  }

  /** Strictly earlier (Carbon lt). */
  predicate Before(a: Date, b: Date) {
    Rank(a) < Rank(b)
  }

  /** Earlier or equal (Carbon lte). */
  predicate NotAfter(a: Date, b: Date) {
    Rank(a) <= Rank(b)
  }

  /** Month indices order (year, month) pairs lexicographically. */
  lemma MonthIndexLexicographic(a: YMD, b: YMD)
    requires 1 <= a.month <= 12 && 1 <= b.month <= 12
    ensures MonthIndex(a) < MonthIndex(b) <==> a.year < b.year || (a.year == b.year && a.month < b.month)
    ensures MonthIndex(a) == MonthIndex(b) <==> a.year == b.year && a.month == b.month
  {
    if a.year < b.year {
      assert a.year * 12 + 12 <= b.year * 12;
    } else if b.year < a.year {
      assert b.year * 12 + 12 <= a.year * 12;
    }
  }

  /** Ranks compare by month first, then by day within the month. */
  lemma RankByMonth(a: Date, b: Date)
    ensures MonthIndex(a) < MonthIndex(b) ==> Rank(a) < Rank(b)
    ensures MonthIndex(a) == MonthIndex(b) ==> (Rank(a) < Rank(b) <==> a.day < b.day)
    ensures MonthIndex(a) == MonthIndex(b) ==> (Rank(a) == Rank(b) <==> a.day == b.day)
  {
    if MonthIndex(a) < MonthIndex(b) {
      assert MonthIndex(a) * 32 + 32 <= MonthIndex(b) * 32;
    }
  }

  /** The order on dates is the lexicographic order on (year, month, day). */
  lemma BeforeIsLexicographic(a: Date, b: Date)
    ensures Before(a, b) <==>
      a.year < b.year || (a.year == b.year && (a.month < b.month || (a.month == b.month && a.day < b.day)))
  {
    MonthIndexLexicographic(a, b);
    MonthIndexLexicographic(b, a);
    RankByMonth(a, b);
    RankByMonth(b, a);
  }

  /** Distinct dates have distinct ranks, so NotAfter is antisymmetric. */
  lemma RankInjective(a: Date, b: Date)
    requires Rank(a) == Rank(b)
    ensures a == b
  {
    MonthIndexLexicographic(a, b);
    RankByMonth(a, b);
    RankByMonth(b, a);
  }

  /** A date in an earlier month is earlier. */
  lemma EarlierMonthIsBefore(a: Date, b: Date)
    ensures MonthIndex(a) < MonthIndex(b) ==> Before(a, b)
  {
    RankByMonth(a, b);
  }

  function MonthOf(mi: int): (r: (int, int))
    ensures 1 <= r.1 <= 12
    ensures r.0 * 12 + r.1 - 1 == mi
  {
    (mi / 12, mi % 12 + 1)
  }

  /** setDate(y, m, d) with PHP's overflow: a day beyond the month's length rolls
      into the following months. */
  function Normalize(y: int, m: int, d: int): (r: Date)
    requires 1 <= m <= 12 && 1 <= d
    ensures MonthIndex(r) >= y * 12 + m - 1
    ensures d <= DaysInMonth(y, m) <==> MonthIndex(r) == y * 12 + m - 1
    ensures d <= DaysInMonth(y, m) ==> r == YMD(y, m, d)
    decreases d
  {
    if d <= DaysInMonth(y, m) then YMD(y, m, d)
    else if m < 12 then Normalize(y, m + 1, d - DaysInMonth(y, m))
    else Normalize(y + 1, 1, d - DaysInMonth(y, m))
  }

  /** Carbon addDays(n), n >= 0. */
  function AddDays(d: Date, n: nat): (r: Date)
    ensures n == 0 ==> r == d
    ensures n > 0 ==> Before(d, r)
  {
    var r := Normalize(d.year, d.month, d.day + n);
    if d.day + n <= DaysInMonth(d.year, d.month) then r
    else
      EarlierMonthIsBefore(d, r);
      r
  }

  /** Carbon addDay(). */
  function NextDay(d: Date): (r: Date)
    ensures Before(d, r)
  {
    AddDays(d, 1)
  }

  /** Carbon subDay(). */
  function PrevDay(d: Date): (r: Date)
    ensures Before(r, d)
  {
    if d.day > 1 then YMD(d.year, d.month, d.day - 1)
    else if d.month > 1 then YMD(d.year, d.month - 1, DaysInMonth(d.year, d.month - 1))
    else YMD(d.year - 1, 12, 31)
  }

  /** Carbon addMonths(n) for any integer n (subMonths(n) is addMonths(-n)),
      with overflow: the day of month is kept and rolls over when too large. */
  function AddMonths(d: Date, n: int): (r: Date)
    ensures MonthIndex(r) >= MonthIndex(d) + n
    ensures d.day <= DaysInMonth(MonthOf(MonthIndex(d) + n).0, MonthOf(MonthIndex(d) + n).1)
            ==> r.day == d.day && MonthIndex(r) == MonthIndex(d) + n
  {
    var ym := MonthOf(MonthIndex(d) + n);
    Normalize(ym.0, ym.1, d.day)
  }

  /** Carbon addYears(n), with the same overflow (29 February plus one year is
      1 March). */
  function AddYears(d: Date, n: int): (r: Date)
    ensures MonthIndex(r) >= MonthIndex(d) + 12 * n
  {
    Normalize(d.year + n, d.month, d.day)
  }

  /** Carbon day(n): set the day of month, overflowing into the next month. */
  function SetDay(d: Date, n: int): (r: Date)
    requires 1 <= n <= 31
    ensures MonthIndex(r) >= MonthIndex(d)
    ensures n <= DaysInMonth(d.year, d.month) ==> r == YMD(d.year, d.month, n)
    ensures n > DaysInMonth(d.year, d.month) ==> MonthIndex(r) > MonthIndex(d)
  {
    Normalize(d.year, d.month, n)
  }

  function StartOfMonth(d: Date): (r: Date)
    ensures MonthIndex(r) == MonthIndex(d) && r.day == 1
    ensures NotAfter(r, d)
  {
    YMD(d.year, d.month, 1)
  }

  function EndOfMonth(d: Date): (r: Date)
    ensures MonthIndex(r) == MonthIndex(d) && r.day == DaysInMonth(d.year, d.month)
    ensures NotAfter(d, r)
  {
    YMD(d.year, d.month, DaysInMonth(d.year, d.month))
  }

  /** The first day of the month with the given month index. */
  function FirstOfMonth(mi: int): (r: Date)
    ensures MonthIndex(r) == mi && r.day == 1
  {
    var ym := MonthOf(mi);
    YMD(ym.0, ym.1, 1)
  }

  /** The day with the given day-of-month in month `mi`, clamped to its last day
      (Carbon's NoOverflow variants). */
  function ClampedDay(mi: int, day: int): (r: Date)
    requires 1 <= day
    ensures MonthIndex(r) == mi
    ensures r.day == if day <= DaysInMonth(MonthOf(mi).0, MonthOf(mi).1) then day
                     else DaysInMonth(MonthOf(mi).0, MonthOf(mi).1)
  {
    var ym := MonthOf(mi);
    var last := DaysInMonth(ym.0, ym.1);
    YMD(ym.0, ym.1, if day <= last then day else last)
  }

  /** Nothing lies strictly between a day and the next one. */
  lemma NextDayIsSuccessor(d: Date, e: Date)
    requires Before(d, e)
    ensures NotAfter(NextDay(d), e)
  {
    BeforeIsLexicographic(d, e);
    var n := NextDay(d);
    if d.day < DaysInMonth(d.year, d.month) {
      assert n == YMD(d.year, d.month, d.day + 1);
    } else if d.month < 12 {
      assert n == YMD(d.year, d.month + 1, 1);
      assert e.year > d.year || (e.year == d.year && e.month > d.month);
    } else {
      assert n == YMD(d.year + 1, 1, 1);
      assert e.year > d.year;
    }
  }

  /** Nothing lies strictly between the previous day and a day. */
  lemma PrevDayIsPredecessor(d: Date, e: Date)
    requires Before(e, d)
    ensures NotAfter(e, PrevDay(d))
  {
    BeforeIsLexicographic(e, d);
    if d.day > 1 {
    } else if d.month > 1 {
      assert PrevDay(d) == YMD(d.year, d.month - 1, DaysInMonth(d.year, d.month - 1));
      assert e.year < d.year || (e.year == d.year && e.month < d.month);
    } else {
      assert PrevDay(d) == YMD(d.year - 1, 12, 31);
      assert e.year < d.year;
    }
  }

  /** The day before the next day is the day itself. */
  lemma PrevOfNext(d: Date)
    ensures PrevDay(NextDay(d)) == d
  {
    var n := NextDay(d);
    PrevDayIsPredecessor(n, d);
    assert Before(PrevDay(n), n);
    if Before(d, PrevDay(n)) {
      NextDayIsSuccessor(d, PrevDay(n));
    }
    RankInjective(d, PrevDay(n));
  }

  /** The day after the previous day is the day itself. */
  lemma NextOfPrev(d: Date)
    ensures NextDay(PrevDay(d)) == d
  {
    var p := PrevDay(d);
    NextDayIsSuccessor(p, d);
    assert NotAfter(NextDay(p), d);
    if Before(NextDay(p), d) {
      PrevDayIsPredecessor(d, NextDay(p));
    }
    RankInjective(d, NextDay(p));
  }
}
