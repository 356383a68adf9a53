/** The Payment model's query scopes and predicates, PaymentService's payment
    lists (upcoming, overdue, for a period; each ordered by due date) and its
    period summary. A list is the selection of matching ids in id order, sorted
    stably by due date. */
module PaymentQueries {
  import opened Base
  import opened Calendar
  import opened Tables
  import opened Sorting
  import opened Records
  import opened Projector

  /** scopePaid. */
  predicate Paid(p: Payment) {
    p.isPaid
  }

  /** scopeUnpaid. */
  predicate Unpaid(p: Payment) {
    !p.isPaid
  }

  /** scopeDueBetween: whereBetween on the due date, inclusive at both ends. */
  predicate DueBetween(p: Payment, start: Date, end: Date) {
    NotAfter(start, p.dueDate) && NotAfter(p.dueDate, end)
  }

  /** The database's comparison of two 'Y-m-d' strings: lexicographic on
      (year, month, day). */
  predicate DateStringLess(a: Date, b: Date) {
    a.year < b.year || (a.year == b.year && (a.month < b.month || (a.month == b.month && a.day < b.day)))
  }

  /** scopeOverdue: unpaid and due before today's date string. */
  predicate OverdueScope(p: Payment, today: Date) {
    Unpaid(p) && DateStringLess(p.dueDate, today)
  }

  /** scopeUpcoming: unpaid and due on or after today's date string. */
  predicate UpcomingScope(p: Payment, today: Date) {
    Unpaid(p) && !DateStringLess(p.dueDate, today)
  }

  /** isOverdue: not paid and due before the start of today. */
  predicate IsOverdue(p: Payment, today: Date) {
    !p.isPaid && Before(p.dueDate, today)
  }

  predicate IsIncome(p: Payment) {
    p.kind == PaymentType.Income
  }

  predicate IsExpense(p: Payment) {
    p.kind == PaymentType.Expense
  }

  /** The overdue scope and isOverdue agree: comparing date strings is comparing dates. */
  lemma OverdueScopeIsOverdue(p: Payment, today: Date)
    ensures OverdueScope(p, today) <==> IsOverdue(p, today)
  {
    BeforeIsLexicographic(p.dueDate, today);
  }

  /** The upcoming scope is unpaid and due on or after today. */
  lemma UpcomingScopeIsNotBefore(p: Payment, today: Date)
    ensures UpcomingScope(p, today) <==> Unpaid(p) && NotAfter(today, p.dueDate)
  {
    BeforeIsLexicographic(p.dueDate, today);
  }

  /** Overdue and upcoming split the unpaid payments; paid and unpaid split all
      payments. */
  lemma ScopesPartition(p: Payment, today: Date)
    ensures Paid(p) != Unpaid(p)
    ensures Unpaid(p) <==> OverdueScope(p, today) || UpcomingScope(p, today)
    ensures !(OverdueScope(p, today) && UpcomingScope(p, today))
  {
  }

  /** Exactly one of isIncome and isExpense holds. */
  lemma IncomeOrExpense(p: Payment)
    ensures IsIncome(p) != IsExpense(p)
  {
  }

  /** A payment id's sort key: its due date's rank. */
  function DueKey(payments: map<Id, Payment>): Id -> int {
    k => if k in payments then Rank(payments[k].dueDate) else 0
  }

  /** `ids` are payments listed by non-decreasing due date. */
  ghost predicate OrderedByDue(payments: map<Id, Payment>, ids: seq<Id>) {
    && (forall i :: 0 <= i < |ids| ==> ids[i] in payments)
    && (forall i, j :: 0 <= i < j < |ids| ==> NotAfter(payments[ids[i]].dueDate, payments[ids[j]].dueDate))
  }

  /** `->where(keep)->orderBy('due_date')->get()` over the ids below n. */
  function Query(payments: map<Id, Payment>, keep: Payment -> bool, n: nat): (r: seq<Id>)
    ensures |r| == |Select(payments, keep, n)|
  {
    SortBy(Select(payments, keep, n), DueKey(payments))
  }

  /** A query lists exactly the matching payments, each once, by due date. */
  lemma QuerySpec(payments: map<Id, Payment>, keep: Payment -> bool, n: nat)
    ensures var r := Query(payments, keep, n);
      && (forall k :: k in r <==> k < n && k in payments && keep(payments[k]))
      && |r| == CountBelow(payments, keep, n)
      && OrderedByDue(payments, r)
  {
    var sel := Select(payments, keep, n);
    var r := Query(payments, keep, n);
    SelectSpec(payments, keep, n);
    SelectCount(payments, keep, n);
    SortBySorts(sel, DueKey(payments));
    assert forall k :: k in r <==> k in sel by {
      forall k
        ensures k in r <==> k in sel
      {
        assert k in r <==> k in multiset(r);
        assert k in sel <==> k in multiset(sel);
      }
    }
    forall i, j | 0 <= i < j < |r|
      ensures NotAfter(payments[r[i]].dueDate, payments[r[j]].dueDate)
    {
      assert r[i] in r && r[j] in r;
      assert DueKey(payments)(r[i]) <= DueKey(payments)(r[j]);
    }
  }

  /** The user's unpaid payments due between today and the horizon. */
  function UpcomingFilter(user: UserId, today: Date, until: Date): Payment -> bool {
    (p: Payment) => p.owner == user && Unpaid(p) && NotAfter(today, p.dueDate) && NotAfter(p.dueDate, until)
  }

  /** getUpcomingPayments(user, until): horizon `until`, else MonthsAhead
      months from today. */
  function UpcomingPayments(s: Store, user: UserId, until: Option<Date>, today: Date): (r: seq<Id>)
    ensures |r| <= s.nextId
  {
    Query(s.payments, UpcomingFilter(user, today, Horizon(until, today)), s.nextId)
  }

  /** The upcoming list is exactly the user's unpaid payments due from today to
      the horizon, by due date. */
  lemma UpcomingPaymentsSpec(s: Store, user: UserId, until: Option<Date>, today: Date)
    requires IdsBelow(s)
    ensures var r := UpcomingPayments(s, user, until, today);
      && OrderedByDue(s.payments, r)
      && forall k :: k in r <==>
           k in s.payments && s.payments[k].owner == user && Unpaid(s.payments[k])
           && NotAfter(today, s.payments[k].dueDate) && NotAfter(s.payments[k].dueDate, Horizon(until, today))
  {
    QuerySpec(s.payments, UpcomingFilter(user, today, Horizon(until, today)), s.nextId);
  }

  function OverdueFilter(user: UserId, today: Date): Payment -> bool {
    (p: Payment) => p.owner == user && OverdueScope(p, today)
  }

  /** getOverduePayments(user). */
  function OverduePayments(s: Store, user: UserId, today: Date): (r: seq<Id>)
    ensures |r| <= s.nextId
  {
    Query(s.payments, OverdueFilter(user, today), s.nextId)
  }

  /** The overdue list is exactly the user's payments for which isOverdue
      holds, by due date. */
  lemma OverduePaymentsSpec(s: Store, user: UserId, today: Date)
    requires IdsBelow(s)
    ensures var r := OverduePayments(s, user, today);
      && OrderedByDue(s.payments, r)
      && forall k :: k in r <==> k in s.payments && s.payments[k].owner == user && IsOverdue(s.payments[k], today)
  {
    QuerySpec(s.payments, OverdueFilter(user, today), s.nextId);
    forall k | k in s.payments
      ensures OverdueScope(s.payments[k], today) <==> IsOverdue(s.payments[k], today)
    {
      OverdueScopeIsOverdue(s.payments[k], today);
    }
  }

  function InPeriod(user: UserId, start: Date, end: Date): Payment -> bool {
    (p: Payment) => p.owner == user && DueBetween(p, start, end)
  }

  /** getPaymentsForPeriod(user, start, end). */
  function PaymentsForPeriod(s: Store, user: UserId, start: Date, end: Date): (r: seq<Id>)
    ensures |r| <= s.nextId
  {
    Query(s.payments, InPeriod(user, start, end), s.nextId)
  }

  /** The period list is exactly the user's payments due in [start, end], both
      ends included, by due date. */
  lemma PaymentsForPeriodSpec(s: Store, user: UserId, start: Date, end: Date)
    requires IdsBelow(s)
    ensures var r := PaymentsForPeriod(s, user, start, end);
      && OrderedByDue(s.payments, r)
      && forall k :: k in r <==>
           k in s.payments && s.payments[k].owner == user
           && NotAfter(start, s.payments[k].dueDate) && NotAfter(s.payments[k].dueDate, end)
  {
    QuerySpec(s.payments, InPeriod(user, start, end), s.nextId);
  }

  /** getPaymentSummaryForPeriod's figures (amounts in cents). */
  datatype PaymentSummary = PaymentSummary(
    totalDue: Cents,
    totalExpectedIncome: Cents,
    totalPaid: Cents,
    unpaidCount: int,
    paidCount: int)

  function Amount(p: Payment): int {
    p.amount
  }

  /** The period's payments filtered by where() after where(), then summed or
      counted: unpaid expenses are due, unpaid incomes expected, paid ones paid
      whatever their type. */
  function PaymentSummaryForPeriod(s: Store, user: UserId, start: Date, end: Date): (r: PaymentSummary)
    ensures r.unpaidCount >= 0 && r.paidCount >= 0
  {
    var inPeriod := InPeriod(user, start, end);
    var amounts := Where(inPeriod, Amount);
    var ones := Where(inPeriod, One());
    CountNonNegative(s.payments, Both(inPeriod, Unpaid), s.nextId);
    CountNonNegative(s.payments, Both(inPeriod, Paid), s.nextId);
    SumPointwise(s.payments, Where(Unpaid, ones), Where(Both(inPeriod, Unpaid), One()), s.nextId);
    SumPointwise(s.payments, Where(Paid, ones), Where(Both(inPeriod, Paid), One()), s.nextId);
    PaymentSummary(
      SumBelow(s.payments, Where(Not(IsIncome), Where(Unpaid, amounts)), s.nextId),
      SumBelow(s.payments, Where(IsIncome, Where(Unpaid, amounts)), s.nextId),
      SumBelow(s.payments, Where(Paid, amounts), s.nextId),
      SumBelow(s.payments, Where(Unpaid, ones), s.nextId),
      SumBelow(s.payments, Where(Paid, ones), s.nextId))
  }

  /** The paid and unpaid counts add up to the number of payments listed for
      the period, and the three totals to the period's whole amount. */
  lemma PaymentSummaryPartitions(s: Store, user: UserId, start: Date, end: Date)
    requires IdsBelow(s)
    ensures var r := PaymentSummaryForPeriod(s, user, start, end);
      && r.unpaidCount + r.paidCount == |PaymentsForPeriod(s, user, start, end)|
      && r.totalDue + r.totalExpectedIncome + r.totalPaid
         == SumBelow(s.payments, Where(InPeriod(user, start, end), Amount), s.nextId)
  {
    var inPeriod := InPeriod(user, start, end);
    var amounts := Where(inPeriod, Amount);
    var ones := Where(inPeriod, One());
    SumPartition(s.payments, amounts, Paid, s.nextId);
    SumPartition(s.payments, Where(Unpaid, amounts), IsIncome, s.nextId);
    SumPartition(s.payments, ones, Paid, s.nextId);
    SumPointwise(s.payments, Where(Not(Paid), amounts), Where(Unpaid, amounts), s.nextId);
    SumPointwise(s.payments, Where(Not(Paid), ones), Where(Unpaid, ones), s.nextId);
    QuerySpec(s.payments, inPeriod, s.nextId);
  }
}
