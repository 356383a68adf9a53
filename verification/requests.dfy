/** The form requests in front of the ledger's write operations
    (TransferRequest, RecurringPaymentStoreRequest, TransactionStoreRequest,
    TransactionUpdateRequest, PaymentStoreRequest) and the BelongsToUser rule
    they share. A request is its raw fields, None standing for an absent or null
    key; handling it runs prepareForValidation, then authorize, then the rules,
    and either refuses it or yields the input record the service reads. */
module Requests {
  import opened Base
  import opened Calendar
  import opened Records
  import opened Ledger
  import opened Transfers
  import opened RecurringService
  import opened Settlement

  /** How a form request ends: the validated input, a 403, or a 422. */
  datatype Verdict<T> = Accepted(input: T) | Forbidden | Rejected

  // ---------------------------------------------------------------- BelongsToUser

  /** BelongsToUser's outcome: pass, or the reason it fails. */
  datatype RuleOutcome = Pass | Unauthenticated | Missing | NotYours

  /** The user the rule checks against: the one it was built with, else the
      authenticated one. */
  function ActingUser(explicit: Option<UserId>, auth: Option<UserId>): (r: Option<UserId>)
    ensures explicit.Some? ==> r == explicit
    ensures explicit.None? ==> r == auth
  {
    if explicit.Some? then explicit else auth
  }

  /** BelongsToUser::validate. `owners` is the rule's model table (row id to
      user_id), so a lookup is Model::find and a negative id finds nothing. A
      null value passes; an absent or falsy (0) user fails before the lookup. */
  function BelongsToUser(owners: map<Id, UserId>, explicit: Option<UserId>, auth: Option<UserId>, value: Option<int>): (r: RuleOutcome)
    ensures value.None? ==> r == Pass
    ensures value.Some? && ActingUser(explicit, auth) in {None, Some(0)} ==> r == Unauthenticated
    ensures r == Pass <==>
      || value.None?
      || (&& ActingUser(explicit, auth).Some? && ActingUser(explicit, auth).value != 0
          && 0 <= value.value && value.value in owners
          && owners[value.value] == ActingUser(explicit, auth).value)
  {
    if value.None? then Pass
    else
      var user := ActingUser(explicit, auth);
      if user.None? || user.value == 0 then Unauthenticated
      else if value.value < 0 || value.value !in owners then Missing
      else if owners[value.value] != user.value then NotYours
      else Pass
  }

  /** A user id given to the rule's constructor wins over the authenticated
      user. */
  lemma ExplicitUserWins(owners: map<Id, UserId>, user: UserId, auth1: Option<UserId>, auth2: Option<UserId>, value: Option<int>)
    ensures BelongsToUser(owners, Some(user), auth1, value) == BelongsToUser(owners, Some(user), auth2, value)
    ensures BelongsToUser(owners, Some(user), auth1, value) == BelongsToUser(owners, None, Some(user), value)
  {
  }

  function AccountOwners(s: Store): (r: map<Id, UserId>)
    ensures r.Keys == s.accounts.Keys
  {
    map k | k in s.accounts :: s.accounts[k].owner
  }

  function CategoryOwners(s: Store): (r: map<Id, UserId>)
    ensures r.Keys == s.categories.Keys
  {
    map k | k in s.categories :: s.categories[k].owner
  }

  /** On the accounts table the rule is the ownership test the services make
      with user->accounts()->findOrFail. */
  lemma BelongsToUserIsOwnsAccount(s: Store, user: UserId, aid: Id)
    requires user != 0
    ensures BelongsToUser(AccountOwners(s), None, Some(user), Some(aid)) == Pass <==> OwnsAccount(s, user, aid)
  {
  }

  // ---------------------------------------------------------------- field rules

  /** The characters PHP's trim() strips. */
  predicate IsTrimmed(c: char) {
    c == ' ' || c == '\t' || c == '\n' || c == '\r' || c == '\0' || c as int == 11
  }

  /** 'required' on a string: something is left after trimming. */
  predicate Filled(s: string) {
    exists i :: 0 <= i < |s| && !IsTrimmed(s[i])
  }

  /** 'required', 'integer', 'exists:<table>,id', BelongsToUser. */
  predicate RequiredOwned(owners: map<Id, UserId>, auth: Option<UserId>, v: Option<int>) {
    v.Some? && BelongsToUser(owners, None, auth, v) == Pass
  }

  /** 'nullable', 'integer', 'exists:<table>,id', BelongsToUser. */
  predicate NullableOwned(owners: map<Id, UserId>, auth: Option<UserId>, v: Option<int>) {
    BelongsToUser(owners, None, auth, v) == Pass
  }

  /** 'required', 'numeric', 'min:0.01'. */
  predicate PositiveAmount(v: Option<real>) {
    v.Some? && v.value >= 0.01
  }

  /** 'required', 'string', 'size:3' (after upper-casing). */
  predicate CurrencyCode(v: Option<string>) {
    v.Some? && Filled(v.value) && |v.value| == 3
  }

  /** 'nullable', 'string', 'max:1000'. */
  predicate Description(v: Option<string>) {
    v.None? || |v.value| <= 1000
  }

  /** A validated amount as the two-decimal column stores it. */
  function AmountCents(a: real): (r: Cents)
    ensures a >= 0.01 ==> r >= 1
    ensures a * 100.0 - 0.5 < r as real <= a * 100.0 + 0.5
  {
    ToCents(a * 100.0)
  }

  /** prepareForValidation's currency step: upper-case it when given. */
  function UpperField(v: Option<string>): (r: Option<string>)
    ensures r.None? <==> v.None?
    ensures r.Some? ==> |r.value| == |v.value| && (forall i :: 0 <= i < |r.value| ==> !IsLowerAscii(r.value[i]))
  {
    if v.Some? then Some(Upper(v.value)) else None
  }

  lemma UpperFieldIdempotent(v: Option<string>)
    ensures UpperField(UpperField(v)) == UpperField(v)
  {
    if v.Some? {
      UpperIdempotent(v.value);
    }
  }

  // ---------------------------------------------------------------- enums

  /** IntervalType's backing strings. */
  function IntervalName(t: IntervalType): string {
    match t
    case Days => "days"
    case Weeks => "weeks"
    case Months => "months"
    case Years => "years"
  }

  /** Rule::enum(IntervalType::class), i.e. IntervalType::tryFrom. */
  function ParseInterval(s: string): (r: Option<IntervalType>)
    ensures r.Some? ==> IntervalName(r.value) == s
  {
    if s == "days" then Some(Days)
    else if s == "weeks" then Some(Weeks)
    else if s == "months" then Some(Months)
    else if s == "years" then Some(Years)
    else None
  }

  /** Parsing accepts exactly the four names, each for its own case. */
  lemma ParseIntervalInverse(s: string, t: IntervalType)
    ensures ParseInterval(s) == Some(t) <==> s == IntervalName(t)
  {
  }

  /** TransactionType's backing strings. */
  function TransactionTypeName(t: TransactionType): string {
    match t
    case Income => "income"
    case Expense => "expense"
    case Transfer => "transfer"
  }

  /** Rule::enum(TransactionType::class), i.e. TransactionType::tryFrom. */
  function ParseTransactionType(s: string): (r: Option<TransactionType>)
    ensures r.Some? ==> TransactionTypeName(r.value) == s
  {
    if s == "income" then Some(TransactionType.Income)
    else if s == "expense" then Some(TransactionType.Expense)
    else if s == "transfer" then Some(TransactionType.Transfer)
    else None
  }

  lemma ParseTransactionTypeInverse(s: string, t: TransactionType)
    ensures ParseTransactionType(s) == Some(t) <==> s == TransactionTypeName(t)
  {
  }

  // ---------------------------------------------------------------- TransferRequest

  datatype TransferRequest = TransferRequest(
    fromAccountId: Option<int>,
    toAccountId: Option<int>,
    amount: Option<real>,
    exchangeRate: Option<real>,
    description: Option<string>,
    date: Option<Date>)

  predicate TransferRules(s: Store, auth: Option<UserId>, q: TransferRequest) {
    && RequiredOwned(AccountOwners(s), auth, q.fromAccountId)
    && RequiredOwned(AccountOwners(s), auth, q.toAccountId)
    && q.toAccountId != q.fromAccountId
    && PositiveAmount(q.amount)
    && (q.exchangeRate.None? || q.exchangeRate.value >= 0.000001)
    && Description(q.description)
  }

  /** TransferRequest: anyone may ask; the rules decide. */
  function ValidateTransfer(s: Store, auth: Option<UserId>, q: TransferRequest): (r: Verdict<TransferInput>)
    ensures r != Forbidden
    ensures r.Accepted? <==> TransferRules(s, auth, q)
  {
    if TransferRules(s, auth, q) then
      Accepted(TransferInput(q.fromAccountId.value, q.toAccountId.value, AmountCents(q.amount.value),
                             q.exchangeRate, q.date, q.description))
    else Rejected
  }

  /** A validated transfer names two distinct accounts of the user, a positive
      amount and a positive rate if any, so createTransfer can only fail for
      want of an exchange rate, and cannot fail when the request gave one. */
  lemma ValidTransferNeedsOnlyARate(s: Store, user: UserId, q: TransferRequest, quoted: Option<real>, today: Date)
    requires ValidateTransfer(s, Some(user), q).Accepted?
    ensures var d := ValidateTransfer(s, Some(user), q).input;
      && OwnsAccount(s, user, d.fromId) && OwnsAccount(s, user, d.toId) && d.fromId != d.toId
      && d.amount >= 1 && (d.rate.Some? ==> d.rate.value > 0.0)
    ensures var r := CreateTransfer(s, user, ValidateTransfer(s, Some(user), q).input, quoted, today);
      && (r.Err? ==> r.error == RateUnavailable)
      && (q.exchangeRate.Some? ==> r.Ok?)
  {
  }

  // ---------------------------------------------------------------- RecurringPaymentStoreRequest

  datatype RecurringRequest = RecurringRequest(
    accountId: Option<int>,
    categoryId: Option<int>,
    name: Option<string>,
    amount: Option<real>,
    currency: Option<string>,
    intervalType: Option<string>,
    intervalValue: Option<int>,
    startDate: Option<Date>,
    endDate: Option<Date>,
    installments: Option<int>,
    isActive: Option<bool>)

  /** prepareForValidation: upper-case a given currency; is_active is true
      unless the request has it. */
  function PrepareRecurring(q: RecurringRequest): (r: RecurringRequest)
    ensures r.currency == UpperField(q.currency)
    ensures r.isActive == Some(q.isActive.GetOr(true))
    ensures r.(currency := q.currency, isActive := q.isActive) == q
  {
    q.(currency := UpperField(q.currency), isActive := Some(q.isActive.GetOr(true)))
  }

  lemma PrepareRecurringIdempotent(q: RecurringRequest)
    ensures PrepareRecurring(PrepareRecurring(q)) == PrepareRecurring(q)
  {
    UpperFieldIdempotent(q.currency);
  }

  predicate RecurringRules(s: Store, auth: Option<UserId>, q: RecurringRequest) {
    && RequiredOwned(AccountOwners(s), auth, q.accountId)
    && RequiredOwned(CategoryOwners(s), auth, q.categoryId)
    && q.name.Some? && Filled(q.name.value) && |q.name.value| <= 255
    && PositiveAmount(q.amount)
    && CurrencyCode(q.currency)
    && q.intervalType.Some? && ParseInterval(q.intervalType.value).Some?
    && q.intervalValue.Some? && q.intervalValue.value >= 1
    && q.startDate.Some?
    && (q.endDate.None? || NotAfter(q.startDate.value, q.endDate.value))
    && (q.installments.None? || q.installments.value >= 1)
  }

  /** RecurringPaymentStoreRequest: the rules run on the prepared request. */
  function ValidateRecurring(s: Store, auth: Option<UserId>, q: RecurringRequest): (r: Verdict<RecurringInput>)
    ensures r != Forbidden
    ensures r.Accepted? <==> RecurringRules(s, auth, PrepareRecurring(q))
  {
    var p := PrepareRecurring(q);
    if RecurringRules(s, auth, p) then
      Accepted(RecurringInput(p.accountId.value, p.categoryId.value, p.name.value, AmountCents(p.amount.value),
                              p.currency.value, ParseInterval(p.intervalType.value).value,
                              Some(p.intervalValue.value), p.startDate.value, p.endDate, p.installments, p.isActive))
    else Rejected
  }

  /** A validated schedule meets createRecurringPayment's precondition and the
      schedule it inserts steps forward, ends no earlier than it starts, has a
      positive amount and installment count, a three-letter upper-case
      currency, and belongs with its account and category to the user. */
  lemma ValidRecurringIsWellFormed(s: Store, user: UserId, q: RecurringRequest)
    requires ValidateRecurring(s, Some(user), q).Accepted?
    ensures var d := ValidateRecurring(s, Some(user), q).input;
      var rp := NewRecurring(user, d);
      && d.intervalValue != Some(0)
      && rp.intervalValue >= 1 && rp.amount >= 1
      && (rp.endDate.Some? ==> NotAfter(rp.startDate, rp.endDate.value))
      && (rp.installments.Some? ==> rp.installments.value >= 1)
      && rp.currency == d.currency && |rp.currency| == 3
      && (forall i :: 0 <= i < |rp.currency| ==> !IsLowerAscii(rp.currency[i]))
      && OwnsAccount(s, user, rp.accountId)
      && rp.categoryId in s.categories && s.categories[rp.categoryId].owner == user
      && rp.isActive == q.isActive.GetOr(true)
  {
    var d := ValidateRecurring(s, Some(user), q).input;
    UpperIdempotent(q.currency.value);
  }

  // ---------------------------------------------------------------- TransactionStoreRequest / TransactionUpdateRequest

  /** The fields both transaction requests carry. */
  datatype TransactionRequest = TransactionRequest(
    accountId: Option<int>,
    categoryId: Option<int>,
    kind: Option<string>,
    amount: Option<real>,
    currency: Option<string>,
    description: Option<string>,
    date: Option<Date>)

  /** prepareForValidation: upper-case a given currency. */
  function PrepareTransaction(q: TransactionRequest): (r: TransactionRequest)
    ensures r.currency == UpperField(q.currency)
    ensures r.(currency := q.currency) == q
  {
    q.(currency := UpperField(q.currency))
  }

  /** The rule set the store and the update request share. */
  predicate TransactionRules(s: Store, auth: Option<UserId>, q: TransactionRequest) {
    && RequiredOwned(AccountOwners(s), auth, q.accountId)
    && NullableOwned(CategoryOwners(s), auth, q.categoryId)
    && q.kind.Some? && ParseTransactionType(q.kind.value).Some?
    && PositiveAmount(q.amount)
    && CurrencyCode(q.currency)
    && Description(q.description)
    && q.date.Some?
  }

  /** TransactionStoreRequest. */
  function ValidateTransactionStore(s: Store, auth: Option<UserId>, q: TransactionRequest): (r: Verdict<TransactionInput>)
    ensures r != Forbidden
    ensures r.Accepted? <==> TransactionRules(s, auth, PrepareTransaction(q))
  {
    var p := PrepareTransaction(q);
    if TransactionRules(s, auth, p) then
      Accepted(TransactionInput(p.accountId.value, if p.categoryId.Some? then Some(p.categoryId.value as nat) else None,
                                ParseTransactionType(p.kind.value).value, AmountCents(p.amount.value),
                                p.currency, p.description, p.date, None))
    else Rejected
  }

  /** A validated transaction is always booked: createTransaction succeeds, on
      an account and under a category (if any) of the user, with a positive
      amount and the upper-cased currency. */
  lemma ValidTransactionIsCreated(s: Store, user: UserId, q: TransactionRequest, today: Date)
    requires ValidateTransactionStore(s, Some(user), q).Accepted?
    ensures var d := ValidateTransactionStore(s, Some(user), q).input;
      && CreateTransaction(s, user, d, today).Ok?
      && (d.categoryId.Some? ==> d.categoryId.value in s.categories && s.categories[d.categoryId.value].owner == user)
      && d.amount >= 1 && d.currency == UpperField(q.currency) && |d.currency.value| == 3
  {
  }

  /** Validation does not see the case of the currency code. */
  lemma TransactionStoreIgnoresCurrencyCase(s: Store, auth: Option<UserId>, q: TransactionRequest, c: string)
    ensures ValidateTransactionStore(s, auth, q.(currency := Some(c)))
         == ValidateTransactionStore(s, auth, q.(currency := Some(Upper(c))))
  {
    UpperIdempotent(c);
  }

  /** TransactionUpdateRequest::authorize: the update policy on the route's
      transaction, which lets its owner (and nobody else) change it. A missing
      transaction is a 404, shown here as Forbidden. */
  predicate MayUpdate(s: Store, user: UserId, tid: Id) {
    tid in s.transactions && s.transactions[tid].owner == user
  }

  /** TransactionUpdateRequest: authorize first, then the store request's
      rules. Every field is sent, so every field is replaced except a null
      category or description, which updateTransaction's `??` keeps. */
  function ValidateTransactionUpdate(s: Store, user: UserId, tid: Id, q: TransactionRequest): (r: Verdict<TransactionUpdate>)
    ensures r == Forbidden <==> !MayUpdate(s, user, tid)
    ensures r.Accepted? <==> MayUpdate(s, user, tid) && TransactionRules(s, Some(user), PrepareTransaction(q))
  {
    var p := PrepareTransaction(q);
    if !MayUpdate(s, user, tid) then Forbidden
    else if TransactionRules(s, Some(user), p) then
      Accepted(TransactionUpdate(Some(p.accountId.value), if p.categoryId.Some? then Some(p.categoryId.value as nat) else None,
                                 Some(ParseTransactionType(p.kind.value).value), Some(AmountCents(p.amount.value)),
                                 p.currency, p.description, p.date))
    else Rejected
  }

  /** An accepted update always names the target account, one of the user's,
      so updateTransaction can fail only when the transaction's current account
      is gone; the rewritten row stays the user's. */
  lemma ValidUpdateTargetsOwnAccount(s: Store, user: UserId, tid: Id, q: TransactionRequest)
    requires ValidateTransactionUpdate(s, user, tid, q).Accepted?
    ensures var d := ValidateTransactionUpdate(s, user, tid, q).input;
      && d.accountId.Some? && OwnsAccount(s, user, d.accountId.value)
      && d.amount.Some? && d.amount.value >= 1
      && (UpdateTransaction(s, tid, d).Err? <==> s.transactions[tid].accountId !in s.accounts)
      && Updated(s.transactions[tid], d).owner == user
  {
  }

  /** What an accepted update does to the row: account, type, amount, currency
      (upper-cased) and date are all replaced by the sent values; a sent
      category or description replaces the stored one and a null one keeps it,
      so neither can be cleared. */
  lemma ValidUpdateRewrites(s: Store, user: UserId, tid: Id, q: TransactionRequest)
    requires ValidateTransactionUpdate(s, user, tid, q).Accepted?
    ensures var t := s.transactions[tid]; var u := Updated(t, ValidateTransactionUpdate(s, user, tid, q).input);
      && q.accountId.Some? && u.accountId as int == q.accountId.value
      && q.kind.Some? && Some(u.kind) == ParseTransactionType(q.kind.value)
      && q.amount.Some? && u.amount == AmountCents(q.amount.value)
      && Some(u.currency) == UpperField(q.currency)
      && Some(u.date) == q.date
      && (q.categoryId.Some? ==> u.categoryId.Some? && u.categoryId.value as int == q.categoryId.value)
      && (q.categoryId.None? ==> u.categoryId == t.categoryId)
      && (q.description.Some? ==> u.description == q.description)
      && (q.description.None? ==> u.description == t.description)
  {
  }

  // ---------------------------------------------------------------- PaymentStoreRequest

  datatype PaymentRequest = PaymentRequest(
    accountId: Option<int>,
    categoryId: Option<int>,
    amount: Option<real>,
    currency: Option<string>,
    description: Option<string>,
    dueDate: Option<Date>)

  predicate PaymentRules(s: Store, auth: Option<UserId>, q: PaymentRequest) {
    && RequiredOwned(AccountOwners(s), auth, q.accountId)
    && RequiredOwned(CategoryOwners(s), auth, q.categoryId)
    && PositiveAmount(q.amount)
    && CurrencyCode(q.currency)
    && Description(q.description)
    && q.dueDate.Some?
  }

  /** PaymentStoreRequest, with prepareForValidation's upper-casing. */
  function ValidatePayment(s: Store, auth: Option<UserId>, q: PaymentRequest): (r: Verdict<ManualPaymentInput>)
    ensures r != Forbidden
    ensures r.Accepted? <==> PaymentRules(s, auth, q.(currency := UpperField(q.currency)))
  {
    var p := q.(currency := UpperField(q.currency));
    if PaymentRules(s, auth, p) then
      Accepted(ManualPaymentInput(p.accountId.value, p.categoryId.value, AmountCents(p.amount.value),
                                  p.currency.value, p.description, p.dueDate.value))
    else Rejected
  }

  /** A validated manual payment names one of the user's categories, so the
      payment createManualPayment inserts takes its type from that category
      (never the expense fallback for a missing one), and a positive amount. */
  lemma ValidPaymentTypedByCategory(s: Store, user: UserId, q: PaymentRequest)
    requires IdsBelow(s)
    requires ValidatePayment(s, Some(user), q).Accepted?
    ensures var d := ValidatePayment(s, Some(user), q).input;
      var r := CreateManualPayment(s, user, d);
      var p := r.0.payments[r.1];
      && OwnsAccount(s, user, p.accountId)
      && p.categoryId in s.categories && s.categories[p.categoryId].owner == user
      && (p.kind == PaymentType.Income <==> s.categories[p.categoryId].kind == CategoryType.Income)
      && p.amount >= 1 && |p.currency| == 3
  {
  }
}
