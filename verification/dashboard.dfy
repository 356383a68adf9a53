/** DashboardService: the dashboard's figures for a financial period, the
    financial overview's projections, the monthly trend and the calendar of
    upcoming payments. The period is an input (the user's financial period is
    computed by FinancialPeriodService, modelled in `Periods`). Every read that
    follows a generation reads the store the generation produced. */
module Dashboard {
  import opened Base
  import opened Calendar
  import opened Tables
  import opened Records
  import opened Projector
  import opened PaymentQueries
  import Reports
  import Accounts
  import Periods

  /** The dashboard's upcoming list: the user's unpaid payments due in the
      period, both ends included. */
  function UpcomingInPeriod(user: UserId, start: Date, end: Date): Payment -> bool {
    (p: Payment) => p.owner == user && Unpaid(p) && DueBetween(p, start, end)
  }

  /** getUpcomingPaymentsForPeriod(user, start, end), ordered by due date. */
  function UpcomingPaymentsForPeriod(s: Store, user: UserId, start: Date, end: Date): (r: seq<Id>)
    ensures |r| <= s.nextId
  {
    Query(s.payments, UpcomingInPeriod(user, start, end), s.nextId)
  }

  /** The list holds exactly the user's unpaid payments due in [start, end],
      by due date. */
  lemma UpcomingPaymentsForPeriodSpec(s: Store, user: UserId, start: Date, end: Date)
    requires IdsBelow(s)
    ensures var r := UpcomingPaymentsForPeriod(s, user, start, end);
      && OrderedByDue(s.payments, r)
      && forall k :: k in r <==>
           k in s.payments && s.payments[k].owner == user && !s.payments[k].isPaid
           && NotAfter(start, s.payments[k].dueDate) && NotAfter(s.payments[k].dueDate, end)
  {
    QuerySpec(s.payments, UpcomingInPeriod(user, start, end), s.nextId);
  }

  datatype DashboardData = DashboardData(
    period: Periods.Period,
    summary: Reports.TransactionSummary,
    upcoming: seq<Id>,
    overdue: seq<Id>,
    categorySpending: seq<Reports.CategorySpend>,
    paymentSummary: PaymentSummary,
    totalBalance: Cents,
    balanceAfterPlanned: Cents)

  /** getDashboardData: generate the user's payments (default horizon), then
      read everything from the generated store. A generation failure aborts. */
  function GetDashboardData(s: Store, user: UserId, period: Periods.Period, today: Date): (r: Result<(Store, DashboardData)>)
    requires IdsBelow(s) && IntervalsPositive(s)
    ensures r.Err? <==> GenerateAll(s, user, None, today).Err?
    ensures r.Ok? ==> IdsBelow(r.value.0) && PaymentsExtended(s, r.value.0)
    ensures r.Ok? ==> r.value.1.balanceAfterPlanned + r.value.1.paymentSummary.totalDue == r.value.1.totalBalance
  {
    match GenerateAll(s, user, None, today)
    case Err(e) => Err(e)
    case Ok(generated) =>
      var g := generated.0;
      var paymentSummary := PaymentSummaryForPeriod(g, user, period.start, period.end);
      var total := Accounts.TotalBalance(g, user, None);
      Ok((g, DashboardData(
        period,
        Reports.TransactionSummaryForPeriod(g, user, period.start, period.end),
        UpcomingPaymentsForPeriod(g, user, period.start, period.end),
        OverduePayments(g, user, today),
        Reports.CategorySpending(g, user, period.start, period.end, 10),
        paymentSummary,
        total,
        total - paymentSummary.totalDue)))
  }

  /** The user's unpaid expense payments due in [start, end]. */
  function PlannedExpense(user: UserId, start: Date, end: Date): Payment -> bool {
    (p: Payment) => p.owner == user && Unpaid(p) && DueBetween(p, start, end) && !IsIncome(p)
  }

  /** The dashboard reads the generated store: its upcoming list is every
      unpaid payment of the user due in the period, generated ones included,
      and the balance after planned payments is the total balance less the
      unpaid expenses due in the period. */
  lemma DashboardSpec(s: Store, user: UserId, period: Periods.Period, today: Date)
    requires IdsBelow(s) && IntervalsPositive(s)
    requires GetDashboardData(s, user, period, today).Ok?
    ensures var (g, d) := GetDashboardData(s, user, period, today).value;
      && (forall k :: k in d.upcoming <==>
            k in g.payments && g.payments[k].owner == user && !g.payments[k].isPaid
            && NotAfter(period.start, g.payments[k].dueDate) && NotAfter(g.payments[k].dueDate, period.end))
      && d.balanceAfterPlanned
         == Accounts.TotalBalance(g, user, None)
            - SumBelow(g.payments, Where(PlannedExpense(user, period.start, period.end), Amount), g.nextId)
  {
    var g := GetDashboardData(s, user, period, today).value.0;
    UpcomingPaymentsForPeriodSpec(g, user, period.start, period.end);
    var inPeriod := PaymentQueries.InPeriod(user, period.start, period.end);
    SumPointwise(g.payments,
      Where(Not(IsIncome), Where(Unpaid, Where(inPeriod, Amount))),
      Where(PlannedExpense(user, period.start, period.end), Amount), g.nextId);
  }

  /** A payment's signed amount: income adds, expense subtracts. */
  function Signed(p: Payment): int {
    if IsIncome(p) then p.amount else -p.amount
  }

  datatype Projection = Projection(expenses: Cents, income: Cents, net: Cents)

  datatype Overview = Overview(
    period: Periods.Period,
    current: Reports.TransactionSummary,
    projected: Projection,
    totalBalance: Cents,
    overdueCount: int,
    overdueAmount: Cents)

  /** getFinancialOverview: the period's transaction summary; projected
      income and expenses over the upcoming payments up to the period's end
      (getUpcomingPayments with that horizon); the total balance; the count
      and amount of overdue payments. Sums do not depend on list order, so
      they are taken over the rows the lists select. */
  function FinancialOverview(s: Store, user: UserId, period: Periods.Period, today: Date): (r: Overview)
    ensures r.overdueCount >= 0
  {
    var upcoming := Where(UpcomingFilter(user, today, period.end), Amount);
    var expenses := SumBelow(s.payments, Where(IsExpense, upcoming), s.nextId);
    var income := SumBelow(s.payments, Where(IsIncome, upcoming), s.nextId);
    CountNonNegative(s.payments, OverdueFilter(user, today), s.nextId);
    Overview(
      period,
      Reports.TransactionSummaryForPeriod(s, user, period.start, period.end),
      Projection(expenses, income, income - expenses),
      Accounts.TotalBalance(s, user, None),
      CountBelow(s.payments, OverdueFilter(user, today), s.nextId),
      SumBelow(s.payments, Where(OverdueFilter(user, today), Amount), s.nextId))
  }

  /** The projected net is the signed sum over the unpaid payments due from
      today to the period's end, and the overdue count is the length of the
      overdue list. */
  lemma FinancialOverviewSpec(s: Store, user: UserId, period: Periods.Period, today: Date)
    requires IdsBelow(s)
    ensures var r := FinancialOverview(s, user, period, today);
      && r.projected.net == SumBelow(s.payments, Where(UpcomingFilter(user, today, period.end), Signed), s.nextId)
      && r.overdueCount == |OverduePayments(s, user, today)|
  {
    var r := FinancialOverview(s, user, period, today);
    var upcoming := Where(UpcomingFilter(user, today, period.end), Amount);
    assert r.projected.net == SumBelow(s.payments, Where(UpcomingFilter(user, today, period.end), Signed), s.nextId) by {
      SumDifference(s.payments, Where(IsIncome, upcoming), Where(IsExpense, upcoming),
        Where(UpcomingFilter(user, today, period.end), Signed), s.nextId);
    }
    assert r.overdueCount == |OverduePayments(s, user, today)| by {
      QuerySpec(s.payments, OverdueFilter(user, today), s.nextId);
    }
  }

  datatype TrendEntry = TrendEntry(monthStart: Date, monthEnd: Date, income: Cents, expenses: Cents, net: Cents)

  function TrendEntryFor(s: Store, user: UserId, start: Date, end: Date): TrendEntry {
    var summary := Reports.TransactionSummaryForPeriod(s, user, start, end);
    TrendEntry(start, end, summary.income, summary.expenses, summary.net)
  }

  /** The day getMonthlyTrend takes i months back, as written: subMonths(i),
      which overflows when the day of month does not exist there. */
  function MonthBack(today: Date, i: nat): Date {
    AddMonths(today, -(i as int))
  }

  /** Going back no months is today. */
  lemma MonthBackZero(today: Date)
    ensures MonthBack(today, 0) == today
  {
    var ym := MonthOf(MonthIndex(today));
    MonthIndexLexicographic(YMD(ym.0, ym.1, 1), today);
  }

  /** getMonthlyTrend(months), as written: for i from months - 1 down to 0, the
      calendar month of subMonths(i) and its transaction summary. */
  method MonthlyTrend(s: Store, user: UserId, months: int, today: Date) returns (trends: seq<TrendEntry>)
    ensures |trends| == if months > 0 then months else 0
    ensures forall j :: 0 <= j < |trends| ==>
      trends[j] == TrendEntryFor(s, user, StartOfMonth(MonthBack(today, |trends| - 1 - j)), EndOfMonth(MonthBack(today, |trends| - 1 - j)))
    ensures |trends| > 0 ==> MonthIndex(trends[|trends| - 1].monthStart) == MonthIndex(today)
  {
    trends := [];
    var i := months - 1;
    while i >= 0
      invariant i < months
      invariant months > 0 ==> -1 <= i && |trends| == months - 1 - i
      invariant months <= 0 ==> trends == []
      invariant forall j :: 0 <= j < |trends| ==>
        trends[j] == TrendEntryFor(s, user, StartOfMonth(MonthBack(today, months - 1 - j)), EndOfMonth(MonthBack(today, months - 1 - j)))
      decreases i
    {
      var d := MonthBack(today, i);
      trends := trends + [TrendEntryFor(s, user, StartOfMonth(d), EndOfMonth(d))];
      i := i - 1;
    }
    if |trends| > 0 {
      MonthBackZero(today);
    }
  }

  /** As written, on 31 March 2025 a two-month trend reports March twice and
      February not at all: subMonths(1) overflows 31 February to 3 March. */
  lemma MonthlyTrendRepeatsMonth()
    ensures StartOfMonth(MonthBack(YMD(2025, 3, 31), 1)) == YMD(2025, 3, 1)
    ensures StartOfMonth(MonthBack(YMD(2025, 3, 31), 0)) == YMD(2025, 3, 1)
  {
    assert Normalize(2025, 2, 31) == YMD(2025, 3, 3);
    assert MonthBack(YMD(2025, 3, 31), 1) == YMD(2025, 3, 3);
    MonthBackZero(YMD(2025, 3, 31));
  }

  /** getMonthlyTrend with month steps that do not overflow: the first day of
      the month i months back. The entries are consecutive calendar months,
      oldest first, ending with the current month. */
  method MonthlyTrendFixed(s: Store, user: UserId, months: int, today: Date) returns (trends: seq<TrendEntry>)
    ensures |trends| == if months > 0 then months else 0
    ensures forall j :: 0 <= j < |trends| ==>
      && MonthIndex(trends[j].monthStart) == MonthIndex(today) - (|trends| - 1 - j)
      && trends[j].monthStart.day == 1
      && trends[j] == TrendEntryFor(s, user, trends[j].monthStart, EndOfMonth(trends[j].monthStart))
    ensures forall j :: 0 < j < |trends| ==> MonthIndex(trends[j].monthStart) == MonthIndex(trends[j - 1].monthStart) + 1
  {
    trends := [];
    var i := months - 1;
    while i >= 0
      invariant i < months
      invariant months > 0 ==> -1 <= i && |trends| == months - 1 - i
      invariant months <= 0 ==> trends == []
      invariant forall j :: 0 <= j < |trends| ==>
        && MonthIndex(trends[j].monthStart) == MonthIndex(today) - (months - 1 - j)
        && trends[j].monthStart.day == 1
        && trends[j] == TrendEntryFor(s, user, trends[j].monthStart, EndOfMonth(trends[j].monthStart))
      decreases i
    {
      var first := FirstOfMonth(MonthIndex(today) - i);
      trends := trends + [TrendEntryFor(s, user, first, EndOfMonth(first))];
      i := i - 1;
    }
  }

  /** Group ids by their payment's due date, keeping list order in each group
      (Collection::groupBy); an id without a row is skipped. */
  function GroupByDue(payments: map<Id, Payment>, ids: seq<Id>): (r: map<Date, seq<Id>>)
    decreases |ids|
  {
    if ids == [] then map[]
    else
      var g := GroupByDue(payments, ids[..|ids| - 1]);
      var k := ids[|ids| - 1];
      if k !in payments then g
      else
        var d := payments[k].dueDate;
        g[d := (if d in g then g[d] else []) + [k]]
  }

  /** Each group of r holds exactly the listed ids due on its date, and no
      group is empty. */
  ghost predicate GroupsByDue(payments: map<Id, Payment>, ids: seq<Id>, r: map<Date, seq<Id>>) {
    && (forall d :: d in r ==> |r[d]| > 0)
    && (forall d, k :: d in r && k in r[d] <==> k in ids && k in payments && payments[k].dueDate == d)
  }

  lemma {:induction false} GroupByDueSpec(payments: map<Id, Payment>, ids: seq<Id>)
    ensures GroupsByDue(payments, ids, GroupByDue(payments, ids))
    decreases |ids|
  {
    if ids != [] {
      var prefix := ids[..|ids| - 1];
      var g := GroupByDue(payments, prefix);
      var last := ids[|ids| - 1];
      var r := GroupByDue(payments, ids);
      GroupByDueSpec(payments, prefix);
      assert ids == prefix + [last];
      assert forall k :: k in ids <==> k in prefix || k == last;
      if last in payments {
        var d0 := payments[last].dueDate;
        assert r == g[d0 := (if d0 in g then g[d0] else []) + [last]];
        forall d, k
          ensures (d in r && k in r[d]) <==> (k in ids && k in payments && payments[k].dueDate == d)
        {
          var inPrefix := k in prefix && k in payments && payments[k].dueDate == d;
          assert (d in g && k in g[d]) <==> inPrefix;
          if d == d0 {
            var base := if d0 in g then g[d0] else [];
            assert r[d] == base + [last];
            assert k in r[d] <==> k in base || k == last;
            assert k in base <==> d in g && k in g[d];
          } else {
            assert d in r <==> d in g;
            if d in g {
              assert r[d] == g[d];
            }
            assert k == last ==> payments[k].dueDate != d;
          }
        }
        forall d | d in r
          ensures |r[d]| > 0
        {
          if d != d0 {
            assert r[d] == g[d];
          }
        }
      } else {
        assert r == g;
      }
    }
  }

  /** The calendar's groups over a store: the ids listed for [start, end]
      grouped by due date. */
  lemma CalendarGroups(g: Store, user: UserId, start: Date, end: Date)
    requires IdsBelow(g)
    ensures var cal := GroupByDue(g.payments, UpcomingPaymentsForPeriod(g, user, start, end));
      && (forall d :: d in cal ==> |cal[d]| > 0 && NotAfter(start, d) && NotAfter(d, end))
      && (forall d, k :: d in cal && k in cal[d] <==>
            k in g.payments && g.payments[k].owner == user && !g.payments[k].isPaid && g.payments[k].dueDate == d
            && NotAfter(start, d) && NotAfter(d, end))
  {
    var ids := UpcomingPaymentsForPeriod(g, user, start, end);
    var cal := GroupByDue(g.payments, ids);
    assert forall k :: k in ids <==>
      k in g.payments && g.payments[k].owner == user && !g.payments[k].isPaid
      && NotAfter(start, g.payments[k].dueDate) && NotAfter(g.payments[k].dueDate, end)
    by {
      UpcomingPaymentsForPeriodSpec(g, user, start, end);
    }
    assert GroupsByDue(g.payments, ids, cal) by {
      GroupByDueSpec(g.payments, ids);
    }
    forall d | d in cal
      ensures NotAfter(start, d) && NotAfter(d, end)
    {
      var k := cal[d][0];
      assert k in cal[d];
      assert k in ids && g.payments[k].dueDate == d;
    }
  }

  /** getUpcomingPaymentsCalendar(daysAhead): generate up to today + daysAhead,
      then the user's unpaid payments due in [today, today + daysAhead] by due
      date, grouped by due date. */
  function UpcomingCalendar(s: Store, user: UserId, daysAhead: nat, today: Date): (r: Result<(Store, map<Date, seq<Id>>)>)
    requires IdsBelow(s) && IntervalsPositive(s)
    ensures r.Err? <==> GenerateAll(s, user, Some(AddDays(today, daysAhead)), today).Err?
    ensures r.Ok? ==> IdsBelow(r.value.0) && PaymentsExtended(s, r.value.0)
  {
    var end := AddDays(today, daysAhead);
    match GenerateAll(s, user, Some(end), today)
    case Err(e) => Err(e)
    case Ok(generated) =>
      var g := generated.0;
      Ok((g, GroupByDue(g.payments, UpcomingPaymentsForPeriod(g, user, today, end))))
  }

  /** The calendar's group for date d holds exactly the user's unpaid payments
      due on d, generated ones included, and it has groups only for dates from
      today to today + daysAhead. */
  lemma UpcomingCalendarSpec(s: Store, user: UserId, daysAhead: nat, today: Date)
    requires IdsBelow(s) && IntervalsPositive(s)
    requires UpcomingCalendar(s, user, daysAhead, today).Ok?
    ensures var (g, cal) := UpcomingCalendar(s, user, daysAhead, today).value;
      && (forall d :: d in cal ==> |cal[d]| > 0 && NotAfter(today, d) && NotAfter(d, AddDays(today, daysAhead)))
      && (forall d, k :: d in cal && k in cal[d] <==>
            k in g.payments && g.payments[k].owner == user && !g.payments[k].isPaid && g.payments[k].dueDate == d
            && NotAfter(today, d) && NotAfter(d, AddDays(today, daysAhead)))
  {
    var end := AddDays(today, daysAhead);
    var generated := GenerateAll(s, user, Some(end), today).value;
    var g := generated.0;
    assert UpcomingCalendar(s, user, daysAhead, today).value
      == (g, GroupByDue(g.payments, UpcomingPaymentsForPeriod(g, user, today, end)));
    CalendarGroups(g, user, today, end);
  }
}
