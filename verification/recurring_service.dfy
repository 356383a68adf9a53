/** RecurringPaymentService: creating a schedule (and materialising its
    payments), updating it (propagating new terms to its unpaid payments, or
    dropping them on deactivation), deleting it, regenerating its payments and
    its statistics. Paid history is never touched. */
module RecurringService {
  import opened Base
  import opened Calendar
  import opened Tables
  import opened Records
  import opened RecurringModel
  import opened Projector

  /** The validated fields createRecurringPayment reads; None is an absent or
      null key. */
  datatype RecurringInput = RecurringInput(
    accountId: Id,
    categoryId: Id,
    name: string,
    amount: Cents,
    currency: string,
    intervalType: IntervalType,
    intervalValue: Option<nat>,
    startDate: Date,
    endDate: Option<Date>,
    installments: Option<int>,
    isActive: Option<bool>)

  /** The row createRecurringPayment inserts: currency upper-cased, interval 1
      and active unless given. */
  function NewRecurring(user: UserId, d: RecurringInput): (r: RecurringPayment)
    ensures r.currency == Upper(d.currency)
    ensures r.intervalValue == (if d.intervalValue.Some? then d.intervalValue.value else 1)
    ensures r.isActive == (d.isActive != Some(false))
    ensures r.owner == user && r.accountId == d.accountId && r.categoryId == d.categoryId && r.name == d.name
    ensures r.amount == d.amount && r.intervalType == d.intervalType && r.startDate == d.startDate
    ensures r.endDate == d.endDate && r.installments == d.installments
  {
    RecurringPayment(user, d.accountId, d.categoryId, d.name, d.amount, Upper(d.currency), d.intervalType,
                     d.intervalValue.GetOr(1), d.startDate, d.endDate, d.installments, d.isActive.GetOr(true))
  }

  /** createRecurringPayment: the schedule is inserted under the next id and,
      when active, its payments are generated up to the default horizon; a
      failing generator run rolls the insertion back. No payment, live or
      soft-deleted, refers to the new id, so the only failure is a missing
      category. */
  function CreateRecurring(s: Store, user: UserId, d: RecurringInput, today: Date): (r: Result<(Store, Id)>)
    requires IdsBelow(s) && RefsBelow(s)
    requires d.intervalValue != Some(0)
    ensures r.Ok? ==> r.value.1 == s.nextId && r.value.1 in r.value.0.recurring
                      && r.value.0.recurring[r.value.1] == NewRecurring(user, d)
    ensures r.Ok? ==> IdsBelow(r.value.0) && r.value.0.accounts == s.accounts && r.value.0.transactions == s.transactions
    ensures r.Err? ==> r.error == NotFound
  {
    var rp := NewRecurring(user, d);
    var rid := s.nextId;
    var s1 := s.(recurring := s.recurring[rid := rp], nextId := rid + 1);
    if !rp.isActive then Ok((s1, rid))
    else
      GenerateWithoutTrashed(s1, rid, None, today);
      match Generate(s1, rid, None, today)
      case Err(e) => Err(e)
      case Ok(g) => Ok((g.0, rid))
  }

  /** A new schedule has no payments yet, so an active one's first payment is
      due on its start date (unless it has already ended), and an inactive one
      adds no payment at all. */
  lemma CreateRecurringPayments(s: Store, user: UserId, d: RecurringInput, today: Date)
    requires IdsBelow(s) && RefsBelow(s) && d.intervalValue != Some(0)
    requires CreateRecurring(s, user, d, today).Ok?
    ensures var r := CreateRecurring(s, user, d, today).value;
      && (d.isActive == Some(false) ==> r.0.payments == s.payments)
      && (forall k :: k in s.payments ==> k in r.0.payments && r.0.payments[k] == s.payments[k])
      && (forall k :: k in r.0.payments && k !in s.payments ==>
            r.0.payments[k].recurringId == Some(r.1) && !r.0.payments[k].isPaid
            && NotAfter(d.startDate, r.0.payments[k].dueDate))
  {
    var rp := NewRecurring(user, d);
    var rid := s.nextId;
    var s1 := s.(recurring := s.recurring[rid := rp], nextId := rid + 1);
    assert IdsBelow(s1);
    if rp.isActive {
      assert FirstCandidate(s1, rid) == d.startDate by {
        LatestDueBelowSpec(s1.payments, rid, s1.nextId);
        assert forall k :: k in s1.payments ==> s1.payments[k].recurringId != Some(rid);
      }
      GenerateCreates(s1, rid, None, today);
    }
  }

  /** The fields updateRecurringPayment reads. None keeps the stored value (the
      `??` fallback); end date and installments are replaced whenever their key
      is present, so Some(None) clears them. */
  datatype RecurringUpdate = RecurringUpdate(
    accountId: Option<Id>,
    categoryId: Option<Id>,
    name: Option<string>,
    amount: Option<Cents>,
    currency: Option<string>,
    intervalType: Option<IntervalType>,
    intervalValue: Option<nat>,
    startDate: Option<Date>,
    endDate: Option<Option<Date>>,
    installments: Option<Option<int>>,
    isActive: Option<bool>)

  /** The schedule after `$recurringPayment->update([...])`. */
  function UpdatedRecurring(rp: RecurringPayment, d: RecurringUpdate): (r: RecurringPayment)
    ensures r.owner == rp.owner
    ensures d.name.None? ==> r.name == rp.name
    ensures d.name.Some? ==> r.name == d.name.value
    ensures d.currency.None? ==> r.currency == rp.currency
    ensures d.currency.Some? ==> r.currency == Upper(d.currency.value)
    ensures d.endDate.None? ==> r.endDate == rp.endDate
    ensures d.endDate.Some? ==> r.endDate == d.endDate.value
    ensures d.installments.None? ==> r.installments == rp.installments
    ensures d.installments.Some? ==> r.installments == d.installments.value
    ensures d.isActive.None? ==> r.isActive == rp.isActive
    ensures d.isActive == Some(false) ==> !r.isActive
    ensures d.intervalValue.None? ==> r.intervalValue == rp.intervalValue
  {
    RecurringPayment(
      rp.owner,
      d.accountId.GetOr(rp.accountId),
      d.categoryId.GetOr(rp.categoryId),
      d.name.GetOr(rp.name),
      d.amount.GetOr(rp.amount),
      if d.currency.Some? then Upper(d.currency.value) else rp.currency,
      d.intervalType.GetOr(rp.intervalType),
      d.intervalValue.GetOr(rp.intervalValue),
      d.startDate.GetOr(rp.startDate),
      d.endDate.GetOr(rp.endDate),
      d.installments.GetOr(rp.installments),
      d.isActive.GetOr(rp.isActive))
  }

  /** An update that names no field changes nothing. */
  lemma UpdateNothingKeeps(rp: RecurringPayment)
    ensures UpdatedRecurring(rp, RecurringUpdate(None, None, None, None, None, None, None, None, None, None, None)) == rp
  {
  }

  /** updateFuturePayments: each unpaid payment of the schedule takes its
      account, category, amount, currency and name (as description). */
  function UpdateFuturePayments(payments: map<Id, Payment>, rid: Id, rp: RecurringPayment): (r: map<Id, Payment>)
    ensures r.Keys == payments.Keys
  {
    map k | k in payments ::
      if payments[k].recurringId == Some(rid) && !payments[k].isPaid then
        payments[k].(accountId := rp.accountId, categoryId := rp.categoryId, amount := rp.amount,
                     currency := rp.currency, description := Some(rp.name))
      else payments[k]
  }

  /** The schedule's unpaid payments carry its new terms; everything else,
      and every due date, is as it was. */
  lemma UpdateFuturePaymentsSpec(payments: map<Id, Payment>, rid: Id, rp: RecurringPayment, k: Id)
    requires k in payments
    ensures var p := payments[k]; var q := UpdateFuturePayments(payments, rid, rp)[k];
      && q.dueDate == p.dueDate && q.isPaid == p.isPaid && q.recurringId == p.recurringId && q.kind == p.kind
      && (p.recurringId == Some(rid) && !p.isPaid ==>
            q.accountId == rp.accountId && q.categoryId == rp.categoryId && q.amount == rp.amount
            && q.currency == rp.currency && q.description == Some(rp.name))
      && (!(p.recurringId == Some(rid) && !p.isPaid) ==> q == p)
  {
  }

  /** deleteUnpaidPayments and the deleting hook: a mass soft delete of the
      schedule's unpaid payments, which move from the live table to the
      soft-deleted rows. */
  function DeleteUnpaidPayments(s: Store, rid: Id): (r: Store)
    ensures r.payments.Keys <= s.payments.Keys
    ensures forall k :: k in s.payments && k !in r.payments ==> k in r.trashed && r.trashed[k] == s.payments[k]
    ensures forall k :: k in s.trashed && k !in s.payments ==> k in r.trashed && r.trashed[k] == s.trashed[k]
    ensures r.accounts == s.accounts && r.transactions == s.transactions && r.recurring == s.recurring
  {
    s.(payments := DeleteUnpaidOf(s.payments, rid), trashed := s.trashed + UnpaidOf(s.payments, rid))
  }

  /** updateRecurringPayment. When the result is active the unpaid payments are
      updated and generation runs (a failing run rolls everything back); when
      an active schedule is deactivated its unpaid payments are deleted; an
      inactive one that stays inactive keeps its payments. */
  function UpdateRecurring(s: Store, rid: Id, d: RecurringUpdate, today: Date): (r: Result<Store>)
    requires IdsBelow(s) && rid in s.recurring
    requires UpdatedRecurring(s.recurring[rid], d).intervalValue >= 1
    ensures r.Ok? ==> rid in r.value.recurring && r.value.recurring[rid] == UpdatedRecurring(s.recurring[rid], d)
    ensures r.Ok? ==> r.value.accounts == s.accounts && r.value.transactions == s.transactions && IdsBelow(r.value)
  {
    var prior := s.recurring[rid];
    var rp := UpdatedRecurring(prior, d);
    var s1 := s.(recurring := s.recurring[rid := rp]);
    if rp.isActive then
      var s2 := s1.(payments := UpdateFuturePayments(s1.payments, rid, rp));
      match Generate(s2, rid, None, today)
      case Err(e) => Err(e)
      case Ok(g) => Ok(g.0)
    else if prior.isActive then Ok(DeleteUnpaidPayments(s1, rid))
    else Ok(s1)
  }

  /** An update that leaves the schedule active gives every unpaid payment of it
      the new terms and keeps its paid payments, every due date and every other
      payment; the only other payments are newly generated ones. */
  lemma UpdateActivePropagates(s: Store, rid: Id, d: RecurringUpdate, today: Date)
    requires IdsBelow(s) && rid in s.recurring
    requires UpdatedRecurring(s.recurring[rid], d).intervalValue >= 1
    requires UpdatedRecurring(s.recurring[rid], d).isActive
    requires UpdateRecurring(s, rid, d, today).Ok?
    ensures var r := UpdateRecurring(s, rid, d, today).value; var rp := UpdatedRecurring(s.recurring[rid], d);
      && (forall k :: k in s.payments ==> k in r.payments && r.payments[k].dueDate == s.payments[k].dueDate)
      && (forall k :: k in s.payments && (s.payments[k].recurringId != Some(rid) || s.payments[k].isPaid) ==>
            r.payments[k] == s.payments[k])
      && (forall k :: k in s.payments && s.payments[k].recurringId == Some(rid) && !s.payments[k].isPaid ==>
            && r.payments[k].accountId == rp.accountId && r.payments[k].categoryId == rp.categoryId
            && r.payments[k].amount == rp.amount && r.payments[k].currency == rp.currency
            && r.payments[k].description == Some(rp.name) && !r.payments[k].isPaid)
      && (forall k :: k in r.payments && k !in s.payments ==> s.nextId <= k)
  {
    var rp := UpdatedRecurring(s.recurring[rid], d);
    var s1 := s.(recurring := s.recurring[rid := rp]);
    var s2 := s1.(payments := UpdateFuturePayments(s1.payments, rid, rp));
    var r := UpdateRecurring(s, rid, d, today).value;
    assert PaymentsExtended(s2, r);
    forall k | k in s.payments
      ensures k in r.payments && r.payments[k] == s2.payments[k]
    {
      UpdateFuturePaymentsSpec(s.payments, rid, rp, k);
    }
  }

  /** Deactivating an active schedule deletes exactly its unpaid payments; its
      paid payments and every other payment stay as they were. */
  lemma DeactivateDropsUnpaid(s: Store, rid: Id, d: RecurringUpdate, today: Date)
    requires IdsBelow(s) && rid in s.recurring
    requires UpdatedRecurring(s.recurring[rid], d).intervalValue >= 1
    requires s.recurring[rid].isActive && !UpdatedRecurring(s.recurring[rid], d).isActive
    ensures var r := UpdateRecurring(s, rid, d, today);
      && r.Ok?
      && (forall k :: k in r.value.payments <==>
            k in s.payments && !(s.payments[k].recurringId == Some(rid) && !s.payments[k].isPaid))
      && (forall k :: k in r.value.payments ==> r.value.payments[k] == s.payments[k])
  {
  }

  /** A schedule that is and stays inactive keeps all its payments. */
  lemma InactiveStaysQuiet(s: Store, rid: Id, d: RecurringUpdate, today: Date)
    requires IdsBelow(s) && rid in s.recurring
    requires UpdatedRecurring(s.recurring[rid], d).intervalValue >= 1
    requires !s.recurring[rid].isActive && !UpdatedRecurring(s.recurring[rid], d).isActive
    ensures UpdateRecurring(s, rid, d, today).Ok? && UpdateRecurring(s, rid, d, today).value.payments == s.payments
  {
  }

  /** deactivate: updateRecurringPayment with is_active false. */
  function Deactivate(s: Store, rid: Id, today: Date): (r: Result<Store>)
    requires IdsBelow(s) && rid in s.recurring && s.recurring[rid].intervalValue >= 1
    ensures r.Ok? && rid in r.value.recurring && !r.value.recurring[rid].isActive
  {
    UpdateRecurring(s, rid, RecurringUpdate(None, None, None, None, None, None, None, None, None, None, Some(false)), today)
  }

  /** activate: updateRecurringPayment with is_active true. */
  function Activate(s: Store, rid: Id, today: Date): (r: Result<Store>)
    requires IdsBelow(s) && rid in s.recurring && s.recurring[rid].intervalValue >= 1
    ensures r.Ok? ==> rid in r.value.recurring && r.value.recurring[rid] == s.recurring[rid].(isActive := true)
  {
    UpdateRecurring(s, rid, RecurringUpdate(None, None, None, None, None, None, None, None, None, None, Some(true)), today)
  }

  /** Deactivating and then activating a schedule fails as written when its next
      due date, counted from the live payments left, is the due date of an
      unpaid payment the deactivation soft-deleted: the generator inserts that
      date again, the unique index rejects it and the activation rolls back. */
  lemma ReactivateHitsDeleted(s: Store, rid: Id, today: Date, k: Id)
    requires IdsBelow(s) && rid in s.recurring && s.recurring[rid].intervalValue >= 1
    requires s.recurring[rid].isActive && s.recurring[rid].categoryId in s.categories
    requires k in s.payments && s.payments[k].recurringId == Some(rid) && !s.payments[k].isPaid
    requires var s1 := Deactivate(s, rid, today).value; var rp := s.recurring[rid];
      && !HasEnded(rp, PaymentCount(s1, rid), today)
      && s.payments[k].dueDate == GetNextDueDate(rp, LatestDueDate(s1, rid))
      && !Halts(rp, s.payments[k].dueDate, PaymentCount(s1, rid), Horizon(None, today))
    ensures Activate(Deactivate(s, rid, today).value, rid, today) == Err(DuplicateDueDate)
  {
    var rp := s.recurring[rid];
    var s1 := Deactivate(s, rid, today).value;
    var s2 := s1.(recurring := s1.recurring[rid := rp]);
    assert UpdatedRecurring(s1.recurring[rid], RecurringUpdate(None, None, None, None, None, None, None, None, None, None, Some(true))) == rp;
    assert UpdateFuturePayments(s2.payments, rid, rp) == s2.payments;
    assert k in s2.trashed && s2.trashed[k] == s.payments[k];
    assert PaymentCount(s2, rid) == PaymentCount(s1, rid) && LatestDueDate(s2, rid) == LatestDueDate(s1, rid);
    GenerateHitsTrashed(s2, rid, None, today);
  }

  /** deleteRecurringPayment: the unpaid payments go (first explicitly, then
      again by the deleting hook), then the schedule itself. */
  function DeleteRecurring(s: Store, rid: Id): (r: Result<Store>)
    ensures rid !in s.recurring <==> r.Err?
    ensures r.Ok? ==> r.value.recurring == s.recurring - {rid}
    ensures r.Ok? ==> r.value.accounts == s.accounts && r.value.transactions == s.transactions
  {
    if rid !in s.recurring then Err(NotFound)
    else
      var s1 := DeleteUnpaidPayments(DeleteUnpaidPayments(s, rid), rid);
      Ok(s1.(recurring := s1.recurring - {rid}))
  }

  /** Deleting a schedule keeps every paid payment, and every payment of
      another schedule, and removes every unpaid one of its own. */
  lemma DeleteRecurringKeepsPaid(s: Store, rid: Id)
    requires rid in s.recurring
    ensures var r := DeleteRecurring(s, rid).value;
      && (forall k :: k in s.payments && (s.payments[k].isPaid || s.payments[k].recurringId != Some(rid)) ==>
            k in r.payments && r.payments[k] == s.payments[k])
      && (forall k :: k in s.payments && !s.payments[k].isPaid && s.payments[k].recurringId == Some(rid) ==>
            k !in r.payments)
      && r.payments.Keys <= s.payments.Keys
  {
  }

  /** regeneratePayments: nothing for an inactive schedule, else the generator
      up to the default horizon. */
  function Regenerate(s: Store, rid: Id, today: Date): (r: Result<(Store, seq<Id>)>)
    requires IdsBelow(s) && rid in s.recurring && s.recurring[rid].intervalValue >= 1
    ensures !s.recurring[rid].isActive ==> r == Ok((s, []))
  {
    if !s.recurring[rid].isActive then Ok((s, [])) else Generate(s, rid, None, today)
  }

  /** The inactive guard changes nothing: regenerating is running the generator. */
  lemma RegenerateIsGenerate(s: Store, rid: Id, today: Date)
    requires IdsBelow(s) && rid in s.recurring && s.recurring[rid].intervalValue >= 1
    ensures Regenerate(s, rid, today) == Generate(s, rid, None, today)
  {
  }

  /** getStatistics: counts and amounts of the schedule's live payments, split
      by paid state, and the next due date. */
  datatype Statistics = Statistics(
    totalPayments: int,
    paidPayments: int,
    unpaidPayments: int,
    totalPaidAmount: Cents,
    totalPendingAmount: Cents,
    nextDueDate: Date)

  function OfSchedule(rid: Id): Payment -> bool {
    (p: Payment) => p.recurringId == Some(rid)
  }

  function PaidFlag(p: Payment): bool {
    p.isPaid
  }

  function PaymentAmount(p: Payment): int {
    p.amount
  }

  function GetStatistics(s: Store, rid: Id): (r: Statistics)
    requires rid in s.recurring
    ensures r.nextDueDate == GetNextDueDate(s.recurring[rid], LatestDueDate(s, rid))
  {
    var mine := OfSchedule(rid);
    Statistics(
      CountBelow(s.payments, mine, s.nextId),
      SumBelow(s.payments, Where(PaidFlag, Where(mine, One())), s.nextId),
      SumBelow(s.payments, Where(Not(PaidFlag), Where(mine, One())), s.nextId),
      SumBelow(s.payments, Where(PaidFlag, Where(mine, PaymentAmount)), s.nextId),
      SumBelow(s.payments, Where(Not(PaidFlag), Where(mine, PaymentAmount)), s.nextId),
      FirstCandidate(s, rid))
  }

  /** The count of one schedule's payments, by either fold, is the same. */
  lemma {:induction false} CountIsPaymentCount(m: map<Id, Payment>, rid: Id, n: nat)
    ensures CountBelow(m, OfSchedule(rid), n) == CountOfBelow(m, rid, n)
  {
    if n > 0 {
      CountIsPaymentCount(m, rid, n - 1);
      assert CountBelow(m, OfSchedule(rid), n)
          == CountBelow(m, OfSchedule(rid), n - 1) + (if n - 1 in m then Where(OfSchedule(rid), One())(m[n - 1]) else 0);
    }
  }

  /** total = paid + unpaid, the total is the schedule's payment count, and the
      paid and pending amounts add up to the amount of all its payments. */
  lemma StatisticsPartition(s: Store, rid: Id)
    requires rid in s.recurring
    ensures var r := GetStatistics(s, rid);
      && r.totalPayments == r.paidPayments + r.unpaidPayments
      && r.totalPayments == PaymentCount(s, rid)
      && r.totalPaidAmount + r.totalPendingAmount == SumBelow(s.payments, Where(OfSchedule(rid), PaymentAmount), s.nextId)
  {
    var mine := OfSchedule(rid);
    SumPartition(s.payments, Where(mine, One()), PaidFlag, s.nextId);
    SumPartition(s.payments, Where(mine, PaymentAmount), PaidFlag, s.nextId);
    CountIsPaymentCount(s.payments, rid, s.nextId);
  }

  /** When all of a schedule's payments are unpaid and of the same amount, the
      pending amount is that amount times their number (five unpaid payments of
      100.00 are 500.00 pending). */
  lemma PendingIsAmountTimesCount(s: Store, rid: Id, amount: Cents)
    requires rid in s.recurring
    requires forall k :: k in s.payments && s.payments[k].recurringId == Some(rid) ==>
               !s.payments[k].isPaid && s.payments[k].amount == amount
    ensures GetStatistics(s, rid).totalPendingAmount == amount * GetStatistics(s, rid).unpaidPayments
    ensures GetStatistics(s, rid).unpaidPayments == GetStatistics(s, rid).totalPayments
  {
    var mine := OfSchedule(rid);
    var pending := Where(Not(PaidFlag), Where(mine, PaymentAmount));
    var count := Where(Not(PaidFlag), Where(mine, One()));
    SumPointwise(s.payments, pending, Where(mine, PaymentAmount), s.nextId);
    SumPointwise(s.payments, count, Where(mine, One()), s.nextId);
    SumConstant(s.payments, PaymentAmount, mine, amount, s.nextId);
  }
}
