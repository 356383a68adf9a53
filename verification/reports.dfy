/** TransactionService's read-side reports for a period: the income / expense /
    net summary, and spending per category (the largest totals first, at most
    `limit` groups). Both read the user's transactions dated within the period,
    both ends included. */
module Reports {
  import opened Base
  import opened Calendar
  import opened Tables
  import opened Sorting
  import opened Records
  import opened Ledger

  /** The user's transactions dated in [start, end] (Transaction::scopeInPeriod). */
  function InPeriod(user: UserId, start: Date, end: Date): Transaction -> bool {
    (t: Transaction) => t.owner == user && NotAfter(start, t.date) && NotAfter(t.date, end)
  }

  function OfKind(kind: TransactionType): Transaction -> bool {
    (t: Transaction) => t.kind == kind
  }

  function TxAmount(t: Transaction): int {
    t.amount
  }

  /** The signed effect a transaction has on its account's balance. */
  function NetEffect(t: Transaction): int {
    Contribution(t.kind, t.amount)
  }

  datatype TransactionSummary = TransactionSummary(income: Cents, expenses: Cents, net: Cents, count: int)

  /** getTransactionSummaryForPeriod: income and expense totals of the period's
      transactions, their difference, and how many transactions the period holds. */
  function TransactionSummaryForPeriod(s: Store, user: UserId, start: Date, end: Date): (r: TransactionSummary)
    ensures r.count >= 0
  {
    var amounts := Where(InPeriod(user, start, end), TxAmount);
    var income := SumBelow(s.transactions, Where(OfKind(TransactionType.Income), amounts), s.nextId);
    var expenses := SumBelow(s.transactions, Where(OfKind(TransactionType.Expense), amounts), s.nextId);
    CountNonNegative(s.transactions, InPeriod(user, start, end), s.nextId);
    TransactionSummary(income, expenses, income - expenses, CountBelow(s.transactions, InPeriod(user, start, end), s.nextId))
  }

  /** The summary's net is the sum of the balance effects applyTransactionToBalance
      gives the period's transactions: a transfer leg counts toward neither total. */
  lemma SummaryNetIsNetEffect(s: Store, user: UserId, start: Date, end: Date)
    ensures TransactionSummaryForPeriod(s, user, start, end).net
            == SumBelow(s.transactions, Where(InPeriod(user, start, end), NetEffect), s.nextId)
  {
    var amounts := Where(InPeriod(user, start, end), TxAmount);
    SumDifference(s.transactions,
      Where(OfKind(TransactionType.Income), amounts),
      Where(OfKind(TransactionType.Expense), amounts),
      Where(InPeriod(user, start, end), NetEffect), s.nextId);
  }

  /** Recording a transfer leg leaves income and expenses alone and adds one to
      the count when the leg is dated in the period. */
  lemma SummaryIgnoresTransfers(s: Store, user: UserId, start: Date, end: Date, t: Transaction)
    requires IdsBelow(s)
    requires t.kind == TransactionType.Transfer
    ensures var before := TransactionSummaryForPeriod(s, user, start, end);
      var after := TransactionSummaryForPeriod(InsertTransaction(s, t), user, start, end);
      && after.income == before.income
      && after.expenses == before.expenses
      && after.net == before.net
      && after.count == before.count + (if InPeriod(user, start, end)(t) then 1 else 0)
  {
    var amounts := Where(InPeriod(user, start, end), TxAmount);
    SumInsert(s.transactions, Where(OfKind(TransactionType.Income), amounts), s.nextId, t);
    SumInsert(s.transactions, Where(OfKind(TransactionType.Expense), amounts), s.nextId, t);
    SumInsert(s.transactions, Where(InPeriod(user, start, end), One()), s.nextId, t);
  }

  /** One category's expenses in the period. */
  function SpentOn(user: UserId, start: Date, end: Date, c: Id): Transaction -> bool {
    (t: Transaction) => InPeriod(user, start, end)(t) && t.kind == TransactionType.Expense && t.categoryId == Some(c)
  }

  /** One group of getCategorySpendingForPeriod: its category, total and count. */
  datatype CategorySpend = CategorySpend(categoryId: Id, total: Cents, count: int)

  function Group(s: Store, user: UserId, start: Date, end: Date, c: Id): CategorySpend {
    CategorySpend(c,
      SumBelow(s.transactions, Where(SpentOn(user, start, end, c), TxAmount), s.nextId),
      CountBelow(s.transactions, SpentOn(user, start, end, c), s.nextId))
  }

  /** groupBy('category_id') over the period's categorised expenses: one group
      per category id below n that some of them name, in category id order. */
  function GroupsBelow(s: Store, user: UserId, start: Date, end: Date, n: nat): (r: seq<CategorySpend>)
    ensures |r| <= n
    decreases n
  {
    if n == 0 then []
    else
      var g := Group(s, user, start, end, n - 1);
      GroupsBelow(s, user, start, end, n - 1) + (if g.count > 0 then [g] else [])
  }

  /** The groups are exactly the categories below n with some expense in the
      period, each once, each with its own total and count. */
  lemma {:induction false} GroupsBelowSpec(s: Store, user: UserId, start: Date, end: Date, n: nat)
    ensures var r := GroupsBelow(s, user, start, end, n);
      && (forall g :: g in r ==> g == Group(s, user, start, end, g.categoryId) && g.categoryId < n && g.count > 0)
      && (forall c: Id :: c < n && Group(s, user, start, end, c).count > 0 ==> Group(s, user, start, end, c) in r)
      && (forall i, j :: 0 <= i < j < |r| ==> r[i].categoryId < r[j].categoryId)
  {
    if n > 0 {
      var prev := GroupsBelow(s, user, start, end, n - 1);
      GroupsBelowSpec(s, user, start, end, n - 1);
      forall i | 0 <= i < |prev|
        ensures prev[i].categoryId < n - 1
      {
        assert prev[i] in prev;
      }
    }
  }

  /** sortByDesc('total'): ascending on the negated total. */
  function ByTotalDesc(g: CategorySpend): int {
    -g.total
  }

  /** Collection::take: the first `limit` items, or for a negative limit the last
      |limit| items; everything when the collection is shorter. */
  function Take<T>(xs: seq<T>, limit: int): (r: seq<T>)
    ensures limit >= 0 ==> |r| == if limit < |xs| then limit else |xs|
    ensures limit < 0 ==> |r| == if -limit < |xs| then -limit else |xs|
    ensures limit >= 0 ==> r == xs[..|r|]
    ensures limit < 0 ==> r == xs[|xs| - |r|..]
  {
    if limit >= 0 then (if limit < |xs| then xs[..limit] else xs)
    else (if -limit < |xs| then xs[|xs| + limit..] else xs)
  }

  /** getCategorySpendingForPeriod(user, start, end, limit). */
  function CategorySpending(s: Store, user: UserId, start: Date, end: Date, limit: int): (r: seq<CategorySpend>)
    ensures limit >= 0 ==> |r| <= limit
  {
    Take(SortBy(GroupsBelow(s, user, start, end, s.nextId), ByTotalDesc), limit)
  }

  /** Every transaction names a category id handed out by the counter. */
  ghost predicate CategoryRefsBelow(s: Store) {
    forall k :: k in s.transactions && s.transactions[k].categoryId.Some? ==> s.transactions[k].categoryId.value < s.nextId
  }

  /** A category some transaction is spent on is below the counter. */
  lemma SpentCategoryBelow(s: Store, user: UserId, start: Date, end: Date, c: Id)
    requires CategoryRefsBelow(s)
    requires Group(s, user, start, end, c).count > 0
    ensures c < s.nextId
  {
    CountPositiveHasWitness(s.transactions, SpentOn(user, start, end, c), s.nextId);
  }

  /** The groups sorted by total, descending: the same groups, each once. */
  lemma SortedGroups(s: Store, user: UserId, start: Date, end: Date)
    ensures var groups := GroupsBelow(s, user, start, end, s.nextId);
      var sorted := SortBy(groups, ByTotalDesc);
      && (forall g :: g in sorted <==> g in groups)
      && SortedBy(sorted, ByTotalDesc)
      && Distinct(sorted)
  {
    var groups := GroupsBelow(s, user, start, end, s.nextId);
    var sorted := SortBy(groups, ByTotalDesc);
    GroupsBelowSpec(s, user, start, end, s.nextId);
    SortBySorts(groups, ByTotalDesc);
    forall g
      ensures g in sorted <==> g in groups
    {
      assert g in sorted <==> g in multiset(sorted);
      assert g in groups <==> g in multiset(groups);
    }
    SortByDistinct(groups, ByTotalDesc);
  }

  /** Category spending lists each category at most once, with its true expense
      total and count for the period, largest total first. */
  lemma CategorySpendingGroups(s: Store, user: UserId, start: Date, end: Date, limit: int)
    ensures var r := CategorySpending(s, user, start, end, limit);
      && (forall g :: g in r ==> g == Group(s, user, start, end, g.categoryId) && g.count > 0)
      && (forall i, j :: 0 <= i < j < |r| ==> r[i].total >= r[j].total)
      && (forall i, j :: 0 <= i < j < |r| ==> r[i].categoryId != r[j].categoryId)
  {
    var groups := GroupsBelow(s, user, start, end, s.nextId);
    var sorted := SortBy(groups, ByTotalDesc);
    var r := CategorySpending(s, user, start, end, limit);
    var off := if limit >= 0 then 0 else |sorted| - |r|;
    assert forall i :: 0 <= i < |r| ==> r[i] == sorted[off + i];
    assert forall g :: g in sorted ==> g == Group(s, user, start, end, g.categoryId) && g.count > 0 by {
      GroupsBelowSpec(s, user, start, end, s.nextId);
      SortedGroups(s, user, start, end);
    }
    assert SortedBy(sorted, ByTotalDesc) && Distinct(sorted) by {
      SortedGroups(s, user, start, end);
    }
    forall i, j | 0 <= i < j < |r|
      ensures r[i].total >= r[j].total && r[i].categoryId != r[j].categoryId
    {
      assert ByTotalDesc(sorted[off + i]) <= ByTotalDesc(sorted[off + j]);
      assert sorted[off + i] in sorted && sorted[off + j] in sorted;
    }
  }

  /** With a non-negative limit no category left out spent more than a listed
      one: the list is the top `limit` categories by total. */
  lemma CategorySpendingTop(s: Store, user: UserId, start: Date, end: Date, limit: nat, c: Id)
    requires CategoryRefsBelow(s)
    requires Group(s, user, start, end, c).count > 0
    requires Group(s, user, start, end, c) !in CategorySpending(s, user, start, end, limit)
    ensures forall g :: g in CategorySpending(s, user, start, end, limit) ==> g.total >= Group(s, user, start, end, c).total
  {
    var groups := GroupsBelow(s, user, start, end, s.nextId);
    var sorted := SortBy(groups, ByTotalDesc);
    var r := CategorySpending(s, user, start, end, limit);
    SpentCategoryBelow(s, user, start, end, c);
    assert Group(s, user, start, end, c) in sorted by {
      GroupsBelowSpec(s, user, start, end, s.nextId);
      SortedGroups(s, user, start, end);
    }
    var k :| 0 <= k < |sorted| && sorted[k] == Group(s, user, start, end, c);
    assert k >= |r|;
    assert SortedBy(sorted, ByTotalDesc) by {
      SortedGroups(s, user, start, end);
    }
    forall g | g in r
      ensures g.total >= Group(s, user, start, end, c).total
    {
      var j :| 0 <= j < |r| && r[j] == g;
      assert sorted[j] == g;
      assert ByTotalDesc(sorted[j]) <= ByTotalDesc(sorted[k]);
    }
  }

  /** With a limit at least the number of categories spent on, every such
      category is listed. */
  lemma CategorySpendingComplete(s: Store, user: UserId, start: Date, end: Date, limit: int, c: Id)
    requires CategoryRefsBelow(s)
    requires limit >= |GroupsBelow(s, user, start, end, s.nextId)|
    requires Group(s, user, start, end, c).count > 0
    ensures Group(s, user, start, end, c) in CategorySpending(s, user, start, end, limit)
  {
    SpentCategoryBelow(s, user, start, end, c);
    GroupsBelowSpec(s, user, start, end, s.nextId);
    SortedGroups(s, user, start, end);
  }
}
