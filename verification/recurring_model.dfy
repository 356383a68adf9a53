/** The RecurringPayment model: next-date arithmetic, the "has ended" test, the
    next due date, the notEnded/notExhausted query scopes and the deleting hook. */
module RecurringModel {
  import opened Base
  import opened Calendar
  import opened Tables
  import opened Records

  /** calculateNextDate: one interval after `from`, by the schedule's unit. */
  function CalculateNextDate(rp: RecurringPayment, from: Date): (r: Date)
    ensures rp.intervalValue >= 1 ==> Before(from, r)
    ensures rp.intervalValue == 0 ==> r == from
  {
    var n := rp.intervalValue;
    match rp.intervalType
    case Days => AddDays(from, n)
    case Weeks => AddDays(from, 7 * n)
    case Months =>
      EarlierMonthIsBefore(from, AddMonths(from, n));
      AddMonths(from, n)
    case Years =>
      EarlierMonthIsBefore(from, AddYears(from, n));
      AddYears(from, n)
  }

  /** A weekly schedule of n is a daily schedule of 7n. */
  lemma WeeksAreSevenDays(rp: RecurringPayment, from: Date)
    requires rp.intervalType == Weeks
    ensures CalculateNextDate(rp, from)
         == CalculateNextDate(rp.(intervalType := Days, intervalValue := 7 * rp.intervalValue), from)
  {
  }

  /** A yearly schedule of n is a monthly schedule of 12n, overflow included. */
  lemma YearsAreTwelveMonths(rp: RecurringPayment, from: Date)
    requires rp.intervalType == Years
    ensures CalculateNextDate(rp, from)
         == CalculateNextDate(rp.(intervalType := Months, intervalValue := 12 * rp.intervalValue), from)
  {
    var n := rp.intervalValue;
    var ym := MonthOf(MonthIndex(from) + 12 * n);
    assert ym.0 * 12 + ym.1 - 1 == (from.year + n) * 12 + from.month - 1;
    assert ym.1 == from.month && ym.0 == from.year + n;
  }

  /** Number of the schedule's payments with id below n. */
  function CountOfBelow(payments: map<Id, Payment>, rid: Id, n: nat): (r: nat)
    ensures r <= n
    decreases n
  {
    if n == 0 then 0
    else CountOfBelow(payments, rid, n - 1) + (if n - 1 in payments && payments[n - 1].recurringId == Some(rid) then 1 else 0)
  }

  /** payments()->count(): how many live payments the schedule has. */
  function PaymentCount(s: Store, rid: Id): nat {
    CountOfBelow(s.payments, rid, s.nextId)
  }

  /** Tables that agree on the schedule's rows below n count alike. */
  lemma {:induction false} CountOfAgree(m1: map<Id, Payment>, m2: map<Id, Payment>, rid: Id, n: nat)
    requires forall k :: k < n ==> (k in m1 && m1[k].recurringId == Some(rid) <==> k in m2 && m2[k].recurringId == Some(rid))
    ensures CountOfBelow(m1, rid, n) == CountOfBelow(m2, rid, n)
  {
    if n > 0 {
      CountOfAgree(m1, m2, rid, n - 1);
    }
  }

  /** A row inserted under a fresh id counts once if it belongs to the schedule. */
  lemma CountOfInsert(m: map<Id, Payment>, rid: Id, n: nat, p: Payment)
    requires KeysBelow(m, n)
    ensures CountOfBelow(m[n := p], rid, n + 1) == CountOfBelow(m, rid, n) + (if p.recurringId == Some(rid) then 1 else 0)
  {
    CountOfAgree(m[n := p], m, rid, n);
  }

  /** Adding c rows of the schedule at ids n .. n+c-1, and nothing else, adds c
      to the count. */
  lemma {:induction false} CountOfExtend(m1: map<Id, Payment>, m2: map<Id, Payment>, rid: Id, n: nat, c: nat)
    requires forall k :: k < n ==> (k in m1 <==> k in m2)
    requires forall k :: k < n && k in m1 ==> m2[k] == m1[k]
    requires forall k :: n <= k < n + c ==> k in m2 && m2[k].recurringId == Some(rid)
    ensures CountOfBelow(m2, rid, n + c) == CountOfBelow(m1, rid, n) + c
  {
    if c == 0 {
      CountOfAgree(m2, m1, rid, n);
    } else {
      CountOfExtend(m1, m2, rid, n, c - 1);
    }
  }

  /** Raising the bound past every id changes no count. */
  lemma {:induction false} CountOfBeyond(m: map<Id, Payment>, rid: Id, n: nat, n': nat)
    requires KeysBelow(m, n) && n <= n'
    ensures CountOfBelow(m, rid, n') == CountOfBelow(m, rid, n)
    decreases n'
  {
    if n' > n {
      CountOfBeyond(m, rid, n, n' - 1);
    }
  }

  /** The latest due date among the schedule's payments with id below n
      (payments()->latest('due_date')->first()). */
  function LatestDueBelow(payments: map<Id, Payment>, rid: Id, n: nat): Option<Date>
    decreases n
  {
    if n == 0 then None
    else
      var rest := LatestDueBelow(payments, rid, n - 1);
      if n - 1 in payments && payments[n - 1].recurringId == Some(rid) then
        var d := payments[n - 1].dueDate;
        if rest.Some? && NotAfter(d, rest.value) then rest else Some(d)
      else rest
  }

  /** The latest due date is absent exactly when the schedule has no payment, and
      otherwise is the due date of one of its payments that no other is after. */
  lemma {:induction false} LatestDueBelowSpec(payments: map<Id, Payment>, rid: Id, n: nat)
    ensures var r := LatestDueBelow(payments, rid, n);
      && (r.None? <==> forall k :: k < n && k in payments ==> payments[k].recurringId != Some(rid))
      && (r.Some? ==> exists k :: k < n && k in payments && payments[k].recurringId == Some(rid)
                                 && payments[k].dueDate == r.value)
      && (r.Some? ==> forall k :: k < n && k in payments && payments[k].recurringId == Some(rid)
                                 ==> NotAfter(payments[k].dueDate, r.value))
  {
    if n > 0 {
      LatestDueBelowSpec(payments, rid, n - 1);
    }
  }

  function LatestDueDate(s: Store, rid: Id): Option<Date> {
    LatestDueBelow(s.payments, rid, s.nextId)
  }

  /** PHP truthiness of `installments`: null and 0 both mean "no cap". */
  predicate Capped(rp: RecurringPayment) {
    rp.installments.Some? && rp.installments.value != 0
  }

  /** hasEnded: the end date lies before today, or the installment cap is used up. */
  predicate HasEnded(rp: RecurringPayment, count: int, today: Date) {
    (rp.endDate.Some? && Before(rp.endDate.value, today))
    || (Capped(rp) && count >= rp.installments.value)
  }

  /** getNextDueDate: the start date before any payment exists, else one interval
      after the latest due date. */
  function GetNextDueDate(rp: RecurringPayment, latest: Option<Date>): (r: Date)
    ensures rp.intervalValue >= 1 && latest.Some? ==> Before(latest.value, r)
    ensures latest.None? ==> r == rp.startDate
  {
    if latest.Some? then CalculateNextDate(rp, latest.value) else rp.startDate
  }

  /** scopeNotEnded: no end date, or an end date not before today. */
  predicate ScopeNotEnded(rp: RecurringPayment, today: Date) {
    rp.endDate.None? || NotAfter(today, rp.endDate.value)
  }

  /** scopeNotExhausted: no cap, or fewer payments than the cap. */
  predicate ScopeNotExhausted(rp: RecurringPayment, count: int) {
    rp.installments.None? || count < rp.installments.value
  }

  /** The notEnded scope is exactly the negation of hasEnded's date clause. */
  lemma NotEndedIsNotDateEnded(rp: RecurringPayment, today: Date)
    ensures ScopeNotEnded(rp, today) <==> !(rp.endDate.Some? && Before(rp.endDate.value, today))
  {
  }

  /** The notExhausted scope is the negation of hasEnded's cap clause, except for
      a cap of 0, which the SQL scope treats as exhausted and hasEnded as no cap. */
  lemma NotExhaustedIsNotCapReached(rp: RecurringPayment, count: int)
    ensures rp.installments != Some(0) ==>
      (ScopeNotExhausted(rp, count) <==> !(Capped(rp) && count >= rp.installments.value))
    ensures rp.installments == Some(0) && count >= 0 ==>
      !ScopeNotExhausted(rp, count) && !(Capped(rp) && count >= rp.installments.value)
  {
  }

  /** The deleting hook: a schedule's unpaid payments go, paid ones stay. */
  function DeleteUnpaidOf(payments: map<Id, Payment>, rid: Id): (r: map<Id, Payment>)
    ensures forall k :: k in r <==> k in payments && !(payments[k].recurringId == Some(rid) && !payments[k].isPaid)
    ensures forall k :: k in r ==> r[k] == payments[k]
  {
    map k | k in payments && !(payments[k].recurringId == Some(rid) && !payments[k].isPaid) :: payments[k]
  }

  /** The rows the deleting hook soft-deletes: the schedule's unpaid payments. */
  function UnpaidOf(payments: map<Id, Payment>, rid: Id): (r: map<Id, Payment>)
    ensures r.Keys <= payments.Keys
    ensures forall k :: k in r ==> r[k] == payments[k] && r[k].recurringId == Some(rid) && !r[k].isPaid
  {
    map k | k in payments && payments[k].recurringId == Some(rid) && !payments[k].isPaid :: payments[k]
  }

  /** The deleting hook splits the table: what it keeps and what it
      soft-deletes are disjoint and together make up the table. */
  lemma DeleteHookSplits(payments: map<Id, Payment>, rid: Id)
    ensures DeleteUnpaidOf(payments, rid).Keys !! UnpaidOf(payments, rid).Keys
    ensures DeleteUnpaidOf(payments, rid) + UnpaidOf(payments, rid) == payments
  {
    var a := DeleteUnpaidOf(payments, rid);
    var b := UnpaidOf(payments, rid);
    assert (a + b).Keys == payments.Keys;
  }

  /** The paid history of the schedule survives the deleting hook untouched. */
  lemma DeleteHookKeepsPaid(payments: map<Id, Payment>, rid: Id, k: Id)
    requires k in payments && payments[k].isPaid
    ensures k in DeleteUnpaidOf(payments, rid) && DeleteUnpaidOf(payments, rid)[k] == payments[k]
  {
  }
}
