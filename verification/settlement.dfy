/** PaymentService's settlement state machine. markAsPaid turns an unpaid
    payment into a transaction, moves the account's balance by the payment and
    re-runs the schedule's generator; markAsUnpaid undoes the balance move and
    deletes the transaction; deletePayment settles back first when needed.
    Also createManualPayment and the type it derives from the category. */
module Settlement {
  import opened Base
  import opened Calendar
  import opened Tables
  import opened Records
  import opened RecurringModel
  import opened Projector
  import opened Ledger

  /** The transaction type a payment settles as (Income -> Income, Expense -> Expense). */
  function SettledKind(k: PaymentType): (r: TransactionType)
    ensures r != TransactionType.Transfer
    ensures r == TransactionType.Income <==> k == PaymentType.Income
  {
    match k
    case Income => TransactionType.Income
    case Expense => TransactionType.Expense
  }

  /** The transaction markAsPaid records for p: the payment's account, category,
      schedule, amount, currency and description, dated paidDate or the due date. */
  function SettlingTransaction(p: Payment, paidDate: Option<Date>): Transaction {
    Transaction(p.owner, p.accountId, Some(p.categoryId), p.recurringId, SettledKind(p.kind), p.amount,
                p.currency, p.description, paidDate.GetOr(p.dueDate), None, None, None, None)
  }

  /** The payment as markAsPaid leaves it. */
  function PaidPayment(p: Payment, tid: Id, today: Date): Payment {
    p.(isPaid := true, paidAt := Some(today), transactionId := Some(tid))
  }

  /** The payment as markAsUnpaid leaves it. */
  function UnpaidPayment(p: Payment): Payment {
    p.(isPaid := false, paidAt := None, transactionId := None)
  }

  /** Does markAsPaid re-run the generator: the payment has a schedule that is
      still live (not soft-deleted) and active? */
  predicate Regenerates(s: Store, p: Payment) {
    p.recurringId.Some? && p.recurringId.value in s.recurring && s.recurring[p.recurringId.value].isActive
  }

  /** The generator run by markAsPaid fails: the schedule has not ended and
      either its category is gone, or a payment the loop creates is due on a
      date that a soft-deleted payment of the schedule holds in the index. */
  predicate RegenerationFails(s: Store, p: Payment, today: Date)
    requires IdsBelow(s) && IntervalsPositive(s) && Regenerates(s, p)
  {
    var rid := p.recurringId.value;
    && !HasEnded(s.recurring[rid], PaymentCount(s, rid), today)
    && (|| s.recurring[rid].categoryId !in s.categories
        || Collides(s.trashed, rid, s.payments, GenerateFixed(s, rid, None, today).value.0.payments))
  }

  /** The store after the transaction is recorded, the payment marked and the
      balance moved, before the generator runs. */
  function Settle(s: Store, pid: Id, paidDate: Option<Date>, today: Date): (r: Store)
    requires IdsBelow(s) && pid in s.payments && s.payments[pid].accountId in s.accounts
    ensures IdsBelow(r) && r.nextId == s.nextId + 1 && r.recurring == s.recurring && r.categories == s.categories
  {
    var p := s.payments[pid];
    var t := SettlingTransaction(p, paidDate);
    var s1 := InsertTransaction(s, t);
    var s2 := s1.(payments := s1.payments[pid := PaidPayment(p, s.nextId, today)]);
    ApplyToBalance(s2, p.accountId, t.kind, t.amount)
  }

  /** markAsPaid(payment, paidDate): the store and the id of the new transaction.
      A missing account makes the balance update fail and the whole call roll
      back, as does a failing generator run. */
  function MarkAsPaid(s: Store, pid: Id, paidDate: Option<Date>, today: Date): (r: Result<(Store, Id)>)
    requires IdsBelow(s) && IntervalsPositive(s)
    ensures pid !in s.payments ==> r == Err(NotFound)
    ensures pid in s.payments && s.payments[pid].isPaid ==> r == Err(PaymentAlreadyPaid)
    ensures pid in s.payments && s.payments[pid].accountId !in s.accounts ==> r.Err?
    ensures r.Ok? ==> r.value.1 == s.nextId && IdsBelow(r.value.0)
  {
    if pid !in s.payments then Err(NotFound)
    else
      var p := s.payments[pid];
      if p.isPaid then Err(PaymentAlreadyPaid)
      else if p.accountId !in s.accounts then Err(NotFound)
      else
        var s3 := Settle(s, pid, paidDate, today);
        if Regenerates(s3, p) then
          match Generate(s3, p.recurringId.value, None, today)
          case Err(e) => Err(e)
          case Ok(g) => Ok((g.0, s.nextId))
        else Ok((s3, s.nextId))
  }

  /** Recording the settlement changes no schedule's payment count. */
  lemma SettleKeepsCount(s: Store, pid: Id, paidDate: Option<Date>, today: Date, rid: Id)
    requires IdsBelow(s) && pid in s.payments && s.payments[pid].accountId in s.accounts
    ensures PaymentCount(Settle(s, pid, paidDate, today), rid) == PaymentCount(s, rid)
  {
    var s3 := Settle(s, pid, paidDate, today);
    CountOfAgree(s3.payments, s.payments, rid, s.nextId + 1);
    CountOfBeyond(s.payments, rid, s.nextId, s.nextId + 1);
  }

  /** markAsPaid fails exactly when the payment is missing or already paid, its
      account is missing, or the generator run on the settled store fails on a
      missing category or on a soft-deleted due date. */
  lemma MarkAsPaidFails(s: Store, pid: Id, paidDate: Option<Date>, today: Date)
    requires IdsBelow(s) && IntervalsPositive(s)
    ensures MarkAsPaid(s, pid, paidDate, today).Err? <==>
      || pid !in s.payments || s.payments[pid].isPaid || s.payments[pid].accountId !in s.accounts
      || (Regenerates(s, s.payments[pid])
          && RegenerationFails(Settle(s, pid, paidDate, today), s.payments[pid], today))
  {
  }

  /** markAsPaid records exactly one transaction, under the next id: the
      payment's own terms, dated paidDate or the due date. The payment is marked
      paid on `today` and points to it; every other existing payment is
      unchanged and every other new payment has a later id. */
  lemma MarkAsPaidRecords(s: Store, pid: Id, paidDate: Option<Date>, today: Date)
    requires IdsBelow(s) && IntervalsPositive(s)
    requires MarkAsPaid(s, pid, paidDate, today).Ok?
    ensures var r := MarkAsPaid(s, pid, paidDate, today).value; var p := s.payments[pid];
      && !p.isPaid
      && r.0.transactions == s.transactions[r.1 := SettlingTransaction(p, paidDate)]
      && r.0.payments[pid] == PaidPayment(p, r.1, today)
      && (forall k :: k in s.payments ==> k in r.0.payments)
      && (forall k :: k in s.payments && k != pid ==> r.0.payments[k] == s.payments[k])
      && (forall k :: k in r.0.payments && k !in s.payments ==> r.1 < k)
  {
    var p := s.payments[pid];
    var s3 := Settle(s, pid, paidDate, today);
    MarkAsPaidExtendsSettled(s, pid, paidDate, today);
    assert s3.transactions == s.transactions[s.nextId := SettlingTransaction(p, paidDate)];
    assert s3.payments == s.payments[pid := PaidPayment(p, s.nextId, today)];
  }

  /** A successful markAsPaid is the settled store with generated payments added. */
  lemma MarkAsPaidExtendsSettled(s: Store, pid: Id, paidDate: Option<Date>, today: Date)
    requires IdsBelow(s) && IntervalsPositive(s)
    requires MarkAsPaid(s, pid, paidDate, today).Ok?
    ensures pid in s.payments && !s.payments[pid].isPaid && s.payments[pid].accountId in s.accounts
    ensures MarkAsPaid(s, pid, paidDate, today).value.1 == s.nextId
    ensures PaymentsExtended(Settle(s, pid, paidDate, today), MarkAsPaid(s, pid, paidDate, today).value.0)
  {
    var p := s.payments[pid];
    var s3 := Settle(s, pid, paidDate, today);
    if Regenerates(s3, p) {
      assert PaymentsExtended(s3, MarkAsPaid(s, pid, paidDate, today).value.0);
    }
  }

  /** The balance move markAsPaid makes is exactly applyTransactionToBalance for
      the transaction it records: +amount for income, -amount for an expense,
      on the payment's account, and no other account moves. */
  lemma MarkAsPaidAppliesTransaction(s: Store, pid: Id, paidDate: Option<Date>, today: Date)
    requires IdsBelow(s) && IntervalsPositive(s)
    requires MarkAsPaid(s, pid, paidDate, today).Ok?
    ensures var r := MarkAsPaid(s, pid, paidDate, today).value; var p := s.payments[pid];
      && r.1 in r.0.transactions && p.accountId in s.accounts
      && var t := r.0.transactions[r.1];
      && r.0.accounts == ApplyToBalance(s, t.accountId, t.kind, t.amount).accounts
      && r.0.accounts[p.accountId].balance
         == s.accounts[p.accountId].balance + (if p.kind == PaymentType.Income then p.amount else -p.amount)
  {
    var p := s.payments[pid];
    var s3 := Settle(s, pid, paidDate, today);
    MarkAsPaidRecords(s, pid, paidDate, today);
    MarkAsPaidExtendsSettled(s, pid, paidDate, today);
    var t := SettlingTransaction(p, paidDate);
    assert s3.accounts == ApplyToBalance(s, t.accountId, t.kind, t.amount).accounts;
  }

  /** Settling a payment keeps every reconciled account reconciled: the
      recorded transaction is an income or expense, which recalculateBalance
      counts. */
  lemma MarkAsPaidKeepsReconciled(s: Store, pid: Id, paidDate: Option<Date>, today: Date, a: Id)
    requires IdsBelow(s) && IntervalsPositive(s) && a in s.accounts && Reconciled(s, a)
    requires MarkAsPaid(s, pid, paidDate, today).Ok?
    ensures a in MarkAsPaid(s, pid, paidDate, today).value.0.accounts
    ensures Reconciled(MarkAsPaid(s, pid, paidDate, today).value.0, a)
  {
    var r := MarkAsPaid(s, pid, paidDate, today).value;
    MarkAsPaidSettles(s, pid, paidDate, today);
    SettledKeepsReconciled(s, r.0, pid, r.1, today, a);
  }

  /** A settlement keeps a reconciled account reconciled. */
  lemma SettledKeepsReconciled(s: Store, c: Store, pid: Id, n: Id, today: Date, a: Id)
    requires IdsBelow(s) && SettledFrom(s, c, pid, n, today) && a in s.accounts && Reconciled(s, a)
    ensures a in c.accounts && Reconciled(c, a)
  {
    KindSumChange(s.transactions, c.transactions, a, TransactionType.Income, c.nextId, n);
    KindSumChange(s.transactions, c.transactions, a, TransactionType.Expense, c.nextId, n);
    KindSumBeyond(s.transactions, a, TransactionType.Income, s.nextId, c.nextId);
    KindSumBeyond(s.transactions, a, TransactionType.Expense, s.nextId, c.nextId);
    ContributionIsNetTerm(c.transactions[n], a);
  }

  /** markAsUnpaid(payment, deleteTransaction). With deleteTransaction and a
      linked transaction, the payment's own amount and type are reverted on the
      payment's account and the transaction row is removed directly (no
      transfer handling); a missing account or transaction fails and rolls
      back. In every successful case the paid flag, date and link are cleared. */
  function MarkAsUnpaid(s: Store, pid: Id, deleteTransaction: bool): (r: Result<Store>)
    ensures pid !in s.payments ==> r == Err(NotFound)
    ensures pid in s.payments && !s.payments[pid].isPaid ==> r == Err(PaymentAlreadyUnpaid)
    ensures r.Ok? ==> pid in s.payments && s.payments[pid].isPaid
    ensures r.Ok? ==> r.value.payments == s.payments[pid := UnpaidPayment(s.payments[pid])]
    ensures r.Ok? ==> r.value.nextId == s.nextId && r.value.recurring == s.recurring && r.value.trashed == s.trashed
                      && r.value.categories == s.categories && r.value.accounts.Keys == s.accounts.Keys
  {
    if pid !in s.payments then Err(NotFound)
    else
      var p := s.payments[pid];
      if !p.isPaid then Err(PaymentAlreadyUnpaid)
      else if p.transactionId.Some? && deleteTransaction then
        if p.accountId !in s.accounts || p.transactionId.value !in s.transactions then Err(NotFound)
        else
          var s1 := RevertFromBalance(s, p.accountId, SettledKind(p.kind), p.amount);
          Ok(s1.(transactions := s1.transactions - {p.transactionId.value}, payments := s1.payments[pid := UnpaidPayment(p)]))
      else Ok(s.(payments := s.payments[pid := UnpaidPayment(p)]))
  }

  /** Does markAsUnpaid delete the transaction and revert the balance? */
  predicate Reverts(p: Payment, deleteTransaction: bool) {
    p.transactionId.Some? && deleteTransaction
  }

  /** What markAsUnpaid does to the ledger: with deleteTransaction and a linked
      transaction it removes exactly that row and moves the payment's account
      back by the payment (-amount for income, +amount for an expense), failing
      only when the account or the row is missing; otherwise the ledger is
      untouched. */
  lemma MarkAsUnpaidLedger(s: Store, pid: Id, deleteTransaction: bool)
    requires pid in s.payments && s.payments[pid].isPaid
    ensures var r := MarkAsUnpaid(s, pid, deleteTransaction); var p := s.payments[pid];
      && (r.Err? <==> Reverts(p, deleteTransaction)
                      && (p.accountId !in s.accounts || p.transactionId.value !in s.transactions))
      && (r.Ok? && !Reverts(p, deleteTransaction) ==>
            r.value.accounts == s.accounts && r.value.transactions == s.transactions)
      && (r.Ok? && Reverts(p, deleteTransaction) ==>
            && r.value.transactions == s.transactions - {p.transactionId.value}
            && forall a :: a in s.accounts ==>
                 r.value.accounts[a] == s.accounts[a].(balance := s.accounts[a].balance
                   - (if a == p.accountId then (if p.kind == PaymentType.Income then p.amount else -p.amount) else 0)))
  {
  }

  /** When the linked transaction still carries the payment's account, type and
      amount, markAsUnpaid has the same effect on the ledger as
      TransactionService::deleteTransaction on that row. */
  lemma MarkAsUnpaidIsDeleteTransaction(s: Store, pid: Id)
    requires pid in s.payments && s.payments[pid].isPaid && s.payments[pid].transactionId.Some?
    requires var p := s.payments[pid]; var tid := p.transactionId.value;
      && tid in s.transactions && p.accountId in s.accounts
      && s.transactions[tid].accountId == p.accountId
      && s.transactions[tid].kind == SettledKind(p.kind) && s.transactions[tid].amount == p.amount
    ensures var tid := s.payments[pid].transactionId.value;
      && MarkAsUnpaid(s, pid, true).value.accounts == DeleteTransaction(s, tid).value.accounts
      && MarkAsUnpaid(s, pid, true).value.transactions == DeleteTransaction(s, tid).value.transactions
  {
    var tid := s.payments[pid].transactionId.value;
    DeleteRevertsOne(s, tid);
  }

  /** Whatever deleteTransaction says, markAsUnpaid never touches the ledger
      with the flag off. */
  lemma MarkAsUnpaidKeepOnlyClears(s: Store, pid: Id)
    requires pid in s.payments && s.payments[pid].isPaid
    ensures var r := MarkAsUnpaid(s, pid, false);
      r.Ok? && r.value == s.(payments := s.payments[pid := UnpaidPayment(s.payments[pid])])
  {
  }

  /** An unpaid payment carries no paid date and no transaction, as every
      unpaid payment the services write does. */
  predicate Pristine(p: Payment) {
    !p.isPaid && p.paidAt.None? && p.transactionId.None?
  }

  /** `c` is `s` after payment pid was settled by transaction n on `today`:
      the row added, the payment marked, the balance applied, and otherwise
      only payments added under fresh ids. */
  ghost predicate SettledFrom(s: Store, c: Store, pid: Id, n: Id, today: Date) {
    && pid in s.payments && s.payments[pid].accountId in s.accounts
    && var p := s.payments[pid];
    && n !in s.transactions && n in c.transactions && c.transactions - {n} == s.transactions && n < c.nextId
    && c.transactions[n].accountId == p.accountId && c.transactions[n].kind == SettledKind(p.kind)
    && c.transactions[n].amount == p.amount
    && pid in c.payments && c.payments[pid] == PaidPayment(p, n, today)
    && c.accounts == ApplyToBalance(s, p.accountId, SettledKind(p.kind), p.amount).accounts
    && c.recurring == s.recurring && c.categories == s.categories && c.trashed == s.trashed && s.nextId <= c.nextId
    && (forall k :: k in s.payments && k != pid ==> k in c.payments && c.payments[k] == s.payments[k])
    && (forall k :: k in c.payments && k !in s.payments ==> s.nextId <= k < c.nextId)
  }

  /** markAsPaid's result is such a settlement by the transaction it returns. */
  lemma MarkAsPaidSettles(s: Store, pid: Id, paidDate: Option<Date>, today: Date)
    requires IdsBelow(s) && IntervalsPositive(s)
    requires MarkAsPaid(s, pid, paidDate, today).Ok?
    ensures var r := MarkAsPaid(s, pid, paidDate, today).value; SettledFrom(s, r.0, pid, r.1, today)
  {
    var r := MarkAsPaid(s, pid, paidDate, today).value;
    MarkAsPaidExtendsSettled(s, pid, paidDate, today);
    SettledByExtension(s, r.0, pid, paidDate, today);
  }

  /** The settled store, and any extension of it by new payments, is a
      settlement by the transaction under the old counter. */
  lemma SettledByExtension(s: Store, c: Store, pid: Id, paidDate: Option<Date>, today: Date)
    requires IdsBelow(s) && pid in s.payments && s.payments[pid].accountId in s.accounts
    requires PaymentsExtended(Settle(s, pid, paidDate, today), c)
    ensures SettledFrom(s, c, pid, s.nextId, today)
  {
    var p := s.payments[pid];
    var t := SettlingTransaction(p, paidDate);
    var s2 := InsertTransaction(s, t).(payments := s.payments[pid := PaidPayment(p, s.nextId, today)]);
    var s3 := Settle(s, pid, paidDate, today);
    assert s3 == ApplyToBalance(s2, p.accountId, t.kind, t.amount);
    assert s3.accounts == ApplyToBalance(s, p.accountId, t.kind, t.amount).accounts by {
      ApplyToBalanceReadsAccounts(s2, s, p.accountId, t.kind, t.amount);
    }
    assert s.nextId !in s.transactions;
    assert c.transactions == s.transactions[s.nextId := t];
    assert c.transactions - {s.nextId} == s.transactions;
  }

  /** The balance move depends only on the accounts. */
  lemma ApplyToBalanceReadsAccounts(s: Store, s': Store, aid: Id, kind: TransactionType, amount: Cents)
    requires aid in s.accounts && s.accounts == s'.accounts
    ensures ApplyToBalance(s, aid, kind, amount).accounts == ApplyToBalance(s', aid, kind, amount).accounts
  {
  }

  /** Clearing a settled payment's paid flag, date and link gives back the
      pristine payment. */
  lemma UnpaidUndoesPaid(p: Payment, tid: Id, today: Date)
    requires Pristine(p)
    ensures UnpaidPayment(PaidPayment(p, tid, today)) == p
  {
  }

  /** markAsUnpaid with deleteTransaction undoes a settlement of a pristine
      payment: only the added payments remain. */
  lemma UnsettleRestores(s: Store, c: Store, pid: Id, n: Id, today: Date)
    requires SettledFrom(s, c, pid, n, today) && Pristine(s.payments[pid])
    ensures MarkAsUnpaid(c, pid, true).Ok? && PaymentsExtended(s, MarkAsUnpaid(c, pid, true).value)
  {
    var p := s.payments[pid];
    var u := MarkAsUnpaid(c, pid, true).value;
    UnpaidUndoesPaid(p, n, today);
    assert u.payments == c.payments[pid := p];
    assert u.transactions == s.transactions;
    assert u.accounts == s.accounts;
  }

  /** The balance round trip: marking a pristine payment paid and then unpaid
      (deleting the transaction) restores every balance, the transactions and the
      payment itself. What remains is only the payments the generator added,
      under fresh ids. */
  lemma PaidThenUnpaidRestores(s: Store, pid: Id, paidDate: Option<Date>, today: Date)
    requires IdsBelow(s) && IntervalsPositive(s)
    requires pid in s.payments && Pristine(s.payments[pid])
    requires MarkAsPaid(s, pid, paidDate, today).Ok?
    ensures var u := MarkAsUnpaid(MarkAsPaid(s, pid, paidDate, today).value.0, pid, true);
      u.Ok? && PaymentsExtended(s, u.value)
  {
    var r := MarkAsPaid(s, pid, paidDate, today).value;
    MarkAsPaidSettles(s, pid, paidDate, today);
    UnsettleRestores(s, r.0, pid, r.1, today);
  }

  /** markAsPaid leaves the schedules and categories alone and keeps the counter
      ahead of every id. */
  lemma MarkAsPaidFrame(s: Store, pid: Id, paidDate: Option<Date>, today: Date)
    requires IdsBelow(s) && IntervalsPositive(s)
    requires MarkAsPaid(s, pid, paidDate, today).Ok?
    ensures var r := MarkAsPaid(s, pid, paidDate, today).value.0;
      && r.recurring == s.recurring && r.categories == s.categories && r.trashed == s.trashed
      && s.nextId < r.nextId && r.accounts.Keys == s.accounts.Keys
  {
    var p := s.payments[pid];
    var s3 := Settle(s, pid, paidDate, today);
    if Regenerates(s3, p) {
      assert PaymentsExtended(s3, MarkAsPaid(s, pid, paidDate, today).value.0);
    }
  }

  /** deletePayment: a paid payment with a transaction is first marked unpaid
      (deleting the transaction and reverting the balance), then the payment
      itself is soft-deleted: it leaves the live table but keeps its schedule
      and due date in the unique index. */
  function DeletePayment(s: Store, pid: Id): (r: Result<Store>)
    ensures pid !in s.payments ==> r == Err(NotFound)
    ensures r.Ok? ==> pid in s.payments && r.value.payments == s.payments - {pid}
    ensures r.Ok? ==> pid in r.value.trashed && r.value.trashed - {pid} == s.trashed - {pid}
                      && r.value.trashed[pid].recurringId == s.payments[pid].recurringId
                      && r.value.trashed[pid].dueDate == s.payments[pid].dueDate
    ensures r.Ok? ==> r.value.nextId == s.nextId && r.value.recurring == s.recurring && r.value.categories == s.categories
  {
    if pid !in s.payments then Err(NotFound)
    else
      var p := s.payments[pid];
      if p.isPaid && p.transactionId.Some? then
        match MarkAsUnpaid(s, pid, true)
        case Err(e) => Err(e)
        case Ok(s1) => Ok(s1.(payments := s1.payments - {pid}, trashed := s1.trashed[pid := s1.payments[pid]]))
      else Ok(s.(payments := s.payments - {pid}, trashed := s.trashed[pid := p]))
  }

  /** Deleting a payment moves balances exactly as markAsUnpaid would, and
      leaves the ledger alone when the payment has no settled transaction. */
  lemma DeletePaymentLedger(s: Store, pid: Id)
    requires pid in s.payments
    ensures var r := DeletePayment(s, pid); var p := s.payments[pid];
      && (p.isPaid && p.transactionId.Some? ==>
            && (r.Err? <==> MarkAsUnpaid(s, pid, true).Err?)
            && (r.Ok? ==> r.value.accounts == MarkAsUnpaid(s, pid, true).value.accounts
                          && r.value.transactions == MarkAsUnpaid(s, pid, true).value.transactions))
      && (!(p.isPaid && p.transactionId.Some?) ==>
            r.Ok? && r.value.accounts == s.accounts && r.value.transactions == s.transactions)
  {
  }

  /** Paying a pristine payment and then deleting it leaves the ledger as it was
      and the payment gone. */
  lemma PaidThenDeletedRestores(s: Store, pid: Id, paidDate: Option<Date>, today: Date)
    requires IdsBelow(s) && IntervalsPositive(s)
    requires pid in s.payments && Pristine(s.payments[pid])
    requires MarkAsPaid(s, pid, paidDate, today).Ok?
    ensures var d := DeletePayment(MarkAsPaid(s, pid, paidDate, today).value.0, pid);
      && d.Ok? && d.value.accounts == s.accounts && d.value.transactions == s.transactions
      && pid !in d.value.payments
  {
    var r := MarkAsPaid(s, pid, paidDate, today).value;
    MarkAsPaidSettles(s, pid, paidDate, today);
    UnsettleRestores(s, r.0, pid, r.1, today);
  }

  /** determinePaymentType: an explicit type wins, else the type of the
      category if it exists (looked up without an owner check), else Expense. */
  function DeterminePaymentType(given: Option<PaymentType>, categoryId: Option<Id>, categories: map<Id, Category>): (r: PaymentType)
    ensures given.Some? ==> r == given.value
    ensures given.None? && categoryId.Some? && categoryId.value in categories ==>
      (r == PaymentType.Income <==> categories[categoryId.value].kind == CategoryType.Income)
    ensures given.None? && (categoryId.None? || categoryId.value !in categories) ==> r == PaymentType.Expense
  {
    if given.Some? then given.value
    else if categoryId.Some? && categoryId.value in categories then PaymentTypeFromCategory(categories[categoryId.value])
    else PaymentType.Expense
  }

  /** The validated fields createManualPayment reads; the request has no type. */
  datatype ManualPaymentInput = ManualPaymentInput(
    accountId: Id,
    categoryId: Id,
    amount: Cents,
    currency: string,
    description: Option<string>,
    dueDate: Date)

  /** createManualPayment: an unpaid, unscheduled payment typed by its category. */
  function CreateManualPayment(s: Store, user: UserId, d: ManualPaymentInput): (r: (Store, Id))
    requires IdsBelow(s)
    ensures r.1 == s.nextId && r.0.nextId == s.nextId + 1 && r.1 in r.0.payments
    ensures var p := r.0.payments[r.1];
      && p.owner == user && Pristine(p) && p.recurringId.None?
      && p.accountId == d.accountId && p.categoryId == d.categoryId && p.amount == d.amount
      && p.currency == d.currency && p.description == d.description && p.dueDate == d.dueDate
      && (d.categoryId in s.categories ==>
            (p.kind == PaymentType.Income <==> s.categories[d.categoryId].kind == CategoryType.Income))
      && (d.categoryId !in s.categories ==> p.kind == PaymentType.Expense)
    ensures forall k :: k in s.payments ==> k in r.0.payments && r.0.payments[k] == s.payments[k]
    ensures r.0.accounts == s.accounts && r.0.transactions == s.transactions && r.0.recurring == s.recurring
  {
    var kind := DeterminePaymentType(None, Some(d.categoryId), s.categories);
    var p := Payment(user, d.accountId, d.categoryId, None, kind, d.amount, d.currency, d.description,
                     d.dueDate, false, None, None);
    (InsertPayment(s, p), s.nextId)
  }
}
