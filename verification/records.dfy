/** The five record kinds of the ledger (Account, Category, RecurringPayment,
    Payment, Transaction) and the in-memory store that holds them. A soft-deleted
    row is absent from its table; soft-deleted payments are kept apart, because
    the unique (schedule, due date) index still covers them. Every row belongs
    to one user (`owner`). */
module Records {
  import opened Base
  import opened Calendar
  import opened Tables

  type Id = nat
  type UserId = nat

  /** Money in cents: the amount and balance columns are two-decimal. */
  type Cents = int

  datatype CategoryType = Income | Expense
  datatype PaymentType = Income | Expense
  datatype TransactionType = Income | Expense | Transfer
  datatype IntervalType = Days | Weeks | Months | Years

  datatype Account = Account(
    owner: UserId,
    name: string,
    currency: string,
    balance: Cents,
    initialBalance: Cents)

  datatype Category = Category(owner: UserId, name: string, kind: CategoryType)

  /** A schedule that materialises Payments; not itself a ledger entry. */
  datatype RecurringPayment = RecurringPayment(
    owner: UserId,
    accountId: Id,
    categoryId: Id,
    name: string,
    amount: Cents,
    currency: string,
    intervalType: IntervalType,
    intervalValue: nat,
    startDate: Date,
    endDate: Option<Date>,
    installments: Option<int>,
    isActive: bool)

  /** One due obligation, generated from a schedule or entered by hand. */
  datatype Payment = Payment(
    owner: UserId,
    accountId: Id,
    categoryId: Id,
    recurringId: Option<Id>,
    kind: PaymentType,
    amount: Cents,
    currency: string,
    description: Option<string>,
    dueDate: Date,
    isPaid: bool,
    paidAt: Option<Date>,
    transactionId: Option<Id>)

  /** One ledger entry; a transfer is a pair of these linked to each other. */
  datatype Transaction = Transaction(
    owner: UserId,
    accountId: Id,
    categoryId: Option<Id>,
    recurringId: Option<Id>,
    kind: TransactionType,
    amount: Cents,
    currency: string,
    description: Option<string>,
    date: Date,
    exchangeRate: Option<real>,
    fromAccountId: Option<Id>,
    toAccountId: Option<Id>,
    linkedId: Option<Id>)

  /** The database: one table per record kind, the soft-deleted payments
      (`trashed`) and the id counter. */
  datatype Store = Store(
    accounts: map<Id, Account>,
    categories: map<Id, Category>,
    recurring: map<Id, RecurringPayment>,
    payments: map<Id, Payment>,
    trashed: map<Id, Payment>,
    transactions: map<Id, Transaction>,
    nextId: Id)

  /** Every id in use was handed out by the counter. */
  ghost predicate IdsBelow(s: Store) {
    && KeysBelow(s.accounts, s.nextId)
    && KeysBelow(s.categories, s.nextId)
    && KeysBelow(s.recurring, s.nextId)
    && KeysBelow(s.payments, s.nextId)
    && KeysBelow(s.transactions, s.nextId)
  }

  /** Every schedule a live or soft-deleted payment refers to, and every
      account a transaction is booked on, was handed out by the counter. */
  ghost predicate RefsBelow(s: Store) {
    && (forall k :: k in s.payments && s.payments[k].recurringId.Some? ==> s.payments[k].recurringId.value < s.nextId)
    && (forall k :: k in s.trashed && s.trashed[k].recurringId.Some? ==> s.trashed[k].recurringId.value < s.nextId)
    && (forall k :: k in s.transactions ==> s.transactions[k].accountId < s.nextId)
  }

  /** Every schedule in the store steps forward (interval_value >= 1). */
  ghost predicate IntervalsPositive(s: Store) {
    forall rid :: rid in s.recurring ==> s.recurring[rid].intervalValue >= 1
  }

  function InsertPayment(s: Store, p: Payment): (r: Store)
    ensures IdsBelow(s) ==> IdsBelow(r) && s.nextId !in s.payments
  {
    s.(payments := s.payments[s.nextId := p], nextId := s.nextId + 1)
  }

  function InsertTransaction(s: Store, t: Transaction): (r: Store)
    ensures IdsBelow(s) ==> IdsBelow(r) && s.nextId !in s.transactions
  {
    s.(transactions := s.transactions[s.nextId := t], nextId := s.nextId + 1)
  }

  /** Account::increment('balance', delta) (a negative delta is decrement). */
  function AdjustBalance(s: Store, aid: Id, delta: Cents): (r: Store)
    requires aid in s.accounts
    ensures IdsBelow(s) ==> IdsBelow(r)
  {
    s.(accounts := s.accounts[aid := s.accounts[aid].(balance := s.accounts[aid].balance + delta)])
  }

  /** A real amount to whole cents, rounding half up: what storing a product
      such as amount x rate into a two-decimal column keeps for a positive value. */
  function ToCents(x: real): (r: Cents)
    ensures x - 0.5 < r as real <= x + 0.5
  {
    (x + 0.5).Floor
  }

  /** `r` differs from `s` at most in the balances of existing accounts. */
  ghost predicate BalancesOnly(s: Store, r: Store) {
    && r.categories == s.categories
    && r.recurring == s.recurring
    && r.payments == s.payments
    && r.trashed == s.trashed
    && r.transactions == s.transactions
    && r.nextId == s.nextId
    && r.accounts.Keys == s.accounts.Keys
    && forall a :: a in s.accounts ==> r.accounts[a] == s.accounts[a].(balance := r.accounts[a].balance)
  }

  /** `r` differs from `s` only by payments added under fresh ids. */
  ghost predicate PaymentsExtended(s: Store, r: Store) {
    && r.accounts == s.accounts
    && r.categories == s.categories
    && r.recurring == s.recurring
    && r.trashed == s.trashed
    && r.transactions == s.transactions
    && s.nextId <= r.nextId
    && (forall k :: k in s.payments ==> k in r.payments && r.payments[k] == s.payments[k])
    && (forall k :: k in r.payments && k !in s.payments ==> s.nextId <= k < r.nextId)
  }

  lemma PaymentsExtendedTransitive(s1: Store, s2: Store, s3: Store)
    requires PaymentsExtended(s1, s2) && PaymentsExtended(s2, s3)
    ensures PaymentsExtended(s1, s3)
  {
  }
}
