/** TransactionService's bookkeeping: what a transaction does to its account's
    balance, creating, updating and deleting transactions (deleting a transfer
    leg reverts the transfer), and Account::recalculateBalance, which rebuilds a
    balance from the income and expense transactions alone. */
module Ledger {
  import opened Base
  import opened Calendar
  import opened Tables
  import opened Records

  /** The signed amount recalculateBalance credits to a transaction's account:
      income adds, expense subtracts, a transfer is not counted. */
  function Contribution(kind: TransactionType, amount: Cents): Cents {
    match kind
    case Income => amount
    case Expense => -amount
    case Transfer => 0
  }

  /** applyTransactionToBalance: increment for income, decrement for expense,
      nothing for a transfer. */
  function ApplyToBalance(s: Store, aid: Id, kind: TransactionType, amount: Cents): (r: Store)
    requires aid in s.accounts
    ensures BalancesOnly(s, r)
    ensures forall a :: a in s.accounts ==>
      r.accounts[a].balance == s.accounts[a].balance + (if a == aid then Contribution(kind, amount) else 0)
  {
    match kind
    case Income => AdjustBalance(s, aid, amount)
    case Expense => AdjustBalance(s, aid, -amount)
    case Transfer => s
  }

  /** revertTransactionFromBalance: decrement for income, increment for expense,
      nothing for a transfer. */
  function RevertFromBalance(s: Store, aid: Id, kind: TransactionType, amount: Cents): (r: Store)
    requires aid in s.accounts
    ensures BalancesOnly(s, r)
    ensures forall a :: a in s.accounts ==>
      r.accounts[a].balance == s.accounts[a].balance - (if a == aid then Contribution(kind, amount) else 0)
  {
    match kind
    case Income => AdjustBalance(s, aid, -amount)
    case Expense => AdjustBalance(s, aid, amount)
    case Transfer => s
  }

  /** Reverting a transaction undoes applying it. */
  lemma RevertUndoesApply(s: Store, aid: Id, kind: TransactionType, amount: Cents)
    requires aid in s.accounts
    ensures RevertFromBalance(ApplyToBalance(s, aid, kind, amount), aid, kind, amount) == s
  {
    var r := RevertFromBalance(ApplyToBalance(s, aid, kind, amount), aid, kind, amount);
    assert r.accounts == s.accounts;
  }

  /** Applying a transaction undoes reverting it. */
  lemma ApplyUndoesRevert(s: Store, aid: Id, kind: TransactionType, amount: Cents)
    requires aid in s.accounts
    ensures ApplyToBalance(RevertFromBalance(s, aid, kind, amount), aid, kind, amount) == s
  {
    var r := ApplyToBalance(RevertFromBalance(s, aid, kind, amount), aid, kind, amount);
    assert r.accounts == s.accounts;
  }

  /** Is aid one of the user's accounts (user->accounts()->findOrFail)? */
  predicate OwnsAccount(s: Store, user: UserId, aid: Id) {
    aid in s.accounts && s.accounts[aid].owner == user
  }

  /** The fields createTransaction reads; an absent optional field is None. */
  datatype TransactionInput = TransactionInput(
    accountId: Id,
    categoryId: Option<Id>,
    kind: TransactionType,
    amount: Cents,
    currency: Option<string>,
    description: Option<string>,
    date: Option<Date>,
    recurringId: Option<Id>)

  /** The row createTransaction inserts: the account's currency and today stand
      in for an absent currency and date; no transfer field is set. */
  function NewTransaction(user: UserId, d: TransactionInput, accountCurrency: string, today: Date): Transaction {
    Transaction(user, d.accountId, d.categoryId, d.recurringId, d.kind, d.amount,
                d.currency.GetOr(accountCurrency), d.description, d.date.GetOr(today),
                None, None, None, None)
  }

  /** createTransaction: the new id and the store after the row is inserted and
      applied once to the user's own account. */
  function CreateTransaction(s: Store, user: UserId, d: TransactionInput, today: Date): (r: Result<(Store, Id)>)
    ensures r.Err? <==> !OwnsAccount(s, user, d.accountId)
    ensures r.Err? ==> r.error == NotFound
    ensures r.Ok? ==> r.value.1 == s.nextId && r.value.0.nextId == s.nextId + 1
    ensures r.Ok? ==>
      r.value.0.transactions == s.transactions[s.nextId := NewTransaction(user, d, s.accounts[d.accountId].currency, today)]
    ensures r.Ok? ==>
      && r.value.0.payments == s.payments && r.value.0.recurring == s.recurring
      && r.value.0.categories == s.categories && r.value.0.accounts.Keys == s.accounts.Keys
    ensures r.Ok? ==> forall a :: a in s.accounts ==>
      r.value.0.accounts[a] == s.accounts[a].(balance := s.accounts[a].balance
                                               + (if a == d.accountId then Contribution(d.kind, d.amount) else 0))
  {
    if !OwnsAccount(s, user, d.accountId) then Err(NotFound)
    else
      var t := NewTransaction(user, d, s.accounts[d.accountId].currency, today);
      Ok((ApplyToBalance(InsertTransaction(s, t), d.accountId, t.kind, t.amount), s.nextId))
  }

  /** The fields updateTransaction reads. None keeps the stored value (the `??`
      fallback), so a category or description can be replaced but not cleared. */
  datatype TransactionUpdate = TransactionUpdate(
    accountId: Option<Id>,
    categoryId: Option<Id>,
    kind: Option<TransactionType>,
    amount: Option<Cents>,
    currency: Option<string>,
    description: Option<string>,
    date: Option<Date>)

  const NoChange := TransactionUpdate(None, None, None, None, None, None, None)

  /** The row after `$transaction->update([...])`. */
  function Updated(t: Transaction, d: TransactionUpdate): (r: Transaction)
    ensures r.owner == t.owner && r.recurringId == t.recurringId && r.exchangeRate == t.exchangeRate
    ensures r.fromAccountId == t.fromAccountId && r.toAccountId == t.toAccountId && r.linkedId == t.linkedId
    ensures d == NoChange ==> r == t
  {
    t.(accountId := d.accountId.GetOr(t.accountId),
       categoryId := if d.categoryId.Some? then d.categoryId else t.categoryId,
       kind := d.kind.GetOr(t.kind),
       amount := d.amount.GetOr(t.amount),
       currency := d.currency.GetOr(t.currency),
       description := if d.description.Some? then d.description else t.description,
       date := d.date.GetOr(t.date))
  }

  /** updateTransaction: revert the stored row from its old account, rewrite it,
      apply the new row to its (possibly different) account. The new account is
      looked up among all accounts (Account::findOrFail); a missing old or new
      account aborts the whole call. */
  function UpdateTransaction(s: Store, tid: Id, d: TransactionUpdate): (r: Result<Store>)
    requires tid in s.transactions
    ensures r.Err? <==> s.transactions[tid].accountId !in s.accounts || Updated(s.transactions[tid], d).accountId !in s.accounts
    ensures r.Err? ==> r.error == NotFound
    ensures r.Ok? ==> r.value.transactions == s.transactions[tid := Updated(s.transactions[tid], d)]
    ensures r.Ok? ==>
      && r.value.payments == s.payments && r.value.recurring == s.recurring
      && r.value.categories == s.categories && r.value.nextId == s.nextId
      && r.value.accounts.Keys == s.accounts.Keys
    ensures r.Ok? ==> var t := s.transactions[tid]; var u := Updated(t, d);
      forall a :: a in s.accounts ==>
        r.value.accounts[a] == s.accounts[a].(balance := s.accounts[a].balance
                                               - (if a == t.accountId then Contribution(t.kind, t.amount) else 0)
                                               + (if a == u.accountId then Contribution(u.kind, u.amount) else 0))
  {
    var t := s.transactions[tid];
    var u := Updated(t, d);
    if u.accountId !in s.accounts || t.accountId !in s.accounts then Err(NotFound)
    else
      var s1 := RevertFromBalance(s, t.accountId, t.kind, t.amount);
      var s2 := s1.(transactions := s1.transactions[tid := u]);
      Ok(ApplyToBalance(s2, u.accountId, u.kind, u.amount))
  }

  /** An update that changes nothing leaves the store as it was. */
  lemma UpdateNothingIsIdentity(s: Store, tid: Id)
    requires tid in s.transactions && s.transactions[tid].accountId in s.accounts
    ensures UpdateTransaction(s, tid, NoChange) == Ok(s)
  {
    var r := UpdateTransaction(s, tid, NoChange).value;
    assert r.transactions == s.transactions;
    assert r.accounts == s.accounts;
  }

  /** revertTransferBalances: with both account ids set and both accounts
      present, hand the outgoing amount back to the source and take the incoming
      amount off the destination, reading the other leg's amount from the linked
      row; without a linked row only this leg's own side is reverted. */
  function RevertTransfer(s: Store, t: Transaction): (r: Store)
    ensures BalancesOnly(s, r)
  {
    if t.fromAccountId.None? || t.toAccountId.None? then s
    else
      var from := t.fromAccountId.value;
      var to := t.toAccountId.value;
      if from !in s.accounts || to !in s.accounts then s
      else if t.linkedId.Some? && t.linkedId.value in s.transactions then
        var l := s.transactions[t.linkedId.value];
        var outgoing := if t.accountId == from then t.amount else l.amount;
        var incoming := if t.accountId == to then t.amount else l.amount;
        AdjustBalance(AdjustBalance(s, from, outgoing), to, -incoming)
      else if t.accountId == from then AdjustBalance(s, from, t.amount)
      else AdjustBalance(s, to, -t.amount)
  }

  /** Reverting a linked transfer leg between two distinct present accounts
      credits the source with the outgoing amount and debits the destination by
      the incoming amount, each read from whichever leg sits in that account. */
  lemma RevertLinkedTransfer(s: Store, t: Transaction)
    requires t.fromAccountId.Some? && t.toAccountId.Some? && t.fromAccountId != t.toAccountId
    requires t.fromAccountId.value in s.accounts && t.toAccountId.value in s.accounts
    requires t.linkedId.Some? && t.linkedId.value in s.transactions
    ensures var from := t.fromAccountId.value; var to := t.toAccountId.value;
      var l := s.transactions[t.linkedId.value];
      var outgoing := if t.accountId == from then t.amount else l.amount;
      var incoming := if t.accountId == to then t.amount else l.amount;
      forall a :: a in s.accounts ==>
        RevertTransfer(s, t).accounts[a]
        == s.accounts[a].(balance := s.accounts[a].balance + (if a == from then outgoing else 0) - (if a == to then incoming else 0))
  {
  }

  /** The rows deleteTransaction removes: the row itself and, for a transfer, the
      linked row when there is one. */
  function Doomed(s: Store, tid: Id): set<Id>
    requires tid in s.transactions
  {
    var t := s.transactions[tid];
    if t.kind == Transfer && t.linkedId.Some? && t.linkedId.value in s.transactions then {tid, t.linkedId.value}
    else {tid}
  }

  /** deleteTransaction. A transfer leg reverts the transfer and takes its linked
      leg with it; any other row is reverted from its account and removed (a
      missing account aborts). A Payment whose transaction_id names the row is
      not touched. */
  function DeleteTransaction(s: Store, tid: Id): (r: Result<Store>)
    requires tid in s.transactions
    ensures r.Err? <==> s.transactions[tid].kind != Transfer && s.transactions[tid].accountId !in s.accounts
    ensures r.Err? ==> r.error == NotFound
    ensures r.Ok? ==> r.value.transactions == s.transactions - Doomed(s, tid)
    ensures r.Ok? ==>
      && r.value.payments == s.payments && r.value.recurring == s.recurring
      && r.value.categories == s.categories && r.value.nextId == s.nextId
      && r.value.accounts.Keys == s.accounts.Keys
  {
    var t := s.transactions[tid];
    if t.kind == Transfer then
      var s1 := RevertTransfer(s, t);
      Ok(s1.(transactions := s1.transactions - Doomed(s, tid)))
    else if t.accountId !in s.accounts then Err(NotFound)
    else
      var s1 := RevertFromBalance(s, t.accountId, t.kind, t.amount);
      Ok(s1.(transactions := s1.transactions - {tid}))
  }

  /** Deleting an income or expense moves its account's balance back by exactly
      its contribution and no other balance. */
  lemma DeleteRevertsOne(s: Store, tid: Id)
    requires tid in s.transactions && s.transactions[tid].kind != Transfer
    requires s.transactions[tid].accountId in s.accounts
    ensures var r := DeleteTransaction(s, tid).value; var t := s.transactions[tid];
      forall a :: a in s.accounts ==>
        r.accounts[a] == s.accounts[a].(balance := s.accounts[a].balance - (if a == t.accountId then Contribution(t.kind, t.amount) else 0))
  {
  }

  /** Creating a transaction and deleting it again gives back every balance and
      the transaction table. */
  lemma CreateThenDelete(s: Store, user: UserId, d: TransactionInput, today: Date)
    requires IdsBelow(s)
    requires CreateTransaction(s, user, d, today).Ok?
    ensures var c := CreateTransaction(s, user, d, today).value;
      var r := DeleteTransaction(c.0, c.1);
      r.Ok? && r.value.accounts == s.accounts && r.value.transactions == s.transactions
  {
    var c := CreateTransaction(s, user, d, today).value;
    var t := c.0.transactions[c.1];
    assert s.nextId !in s.transactions;
    assert Doomed(c.0, c.1) == {c.1};
    assert c.0.transactions - {c.1} == s.transactions;
    var r := DeleteTransaction(c.0, c.1).value;
    if t.kind != Transfer {
      DeleteRevertsOne(c.0, c.1);
    } else {
      assert RevertTransfer(c.0, t) == c.0;
    }
    assert r.accounts == s.accounts;
  }

  /** What one transaction adds to the sum of one kind of amounts of one account. */
  function KindTerm(t: Transaction, aid: Id, kind: TransactionType): Cents {
    if t.accountId == aid && t.kind == kind then t.amount else 0
  }

  /** transactions()->where('type', kind)->sum('amount') for one account, over
      the rows with id below n. */
  function KindSum(txs: map<Id, Transaction>, aid: Id, kind: TransactionType, n: nat): Cents
    decreases n
  {
    if n == 0 then 0
    else KindSum(txs, aid, kind, n - 1) + (if n - 1 in txs then KindTerm(txs[n - 1], aid, kind) else 0)
  }

  /** Tables that agree term by term below n sum alike. */
  lemma {:induction false} KindSumAgree(t1: map<Id, Transaction>, t2: map<Id, Transaction>, aid: Id, kind: TransactionType, n: nat)
    requires forall k :: k < n ==> (k in t1 <==> k in t2)
    requires forall k :: k < n && k in t1 ==> KindTerm(t1[k], aid, kind) == KindTerm(t2[k], aid, kind)
    ensures KindSum(t1, aid, kind, n) == KindSum(t2, aid, kind, n)
  {
    if n > 0 {
      KindSumAgree(t1, t2, aid, kind, n - 1);
    }
  }

  /** The term of a row present in only one table, or changed between them. */
  function TermAt(txs: map<Id, Transaction>, k: Id, aid: Id, kind: TransactionType): Cents {
    if k in txs then KindTerm(txs[k], aid, kind) else 0
  }

  /** Changing, inserting or removing the row at one id k < n changes the sum by
      the difference of that row's terms. */
  lemma {:induction false} KindSumChange(t1: map<Id, Transaction>, t2: map<Id, Transaction>, aid: Id, kind: TransactionType, n: nat, k: Id)
    requires k < n
    requires forall j :: j < n && j != k ==> (j in t1 <==> j in t2)
    requires forall j :: j < n && j != k && j in t1 ==> KindTerm(t1[j], aid, kind) == KindTerm(t2[j], aid, kind)
    ensures KindSum(t2, aid, kind, n) == KindSum(t1, aid, kind, n) - TermAt(t1, k, aid, kind) + TermAt(t2, k, aid, kind)
    decreases n
  {
    if k == n - 1 {
      KindSumAgree(t1, t2, aid, kind, n - 1);
    } else {
      KindSumChange(t1, t2, aid, kind, n - 1, k);
    }
  }

  /** Adding transfer rows changes no income or expense sum. */
  lemma {:induction false} KindSumIgnoresTransfers(t1: map<Id, Transaction>, t2: map<Id, Transaction>, aid: Id, kind: TransactionType, n: nat)
    requires kind != TransactionType.Transfer
    requires forall k :: k in t1 ==> k in t2 && t2[k] == t1[k]
    requires forall k :: k in t2 && k !in t1 ==> t2[k].kind == TransactionType.Transfer
    ensures KindSum(t2, aid, kind, n) == KindSum(t1, aid, kind, n)
  {
    if n > 0 {
      KindSumIgnoresTransfers(t1, t2, aid, kind, n - 1);
    }
  }

  /** Raising the bound past every id changes no sum. */
  lemma {:induction false} KindSumBeyond(txs: map<Id, Transaction>, aid: Id, kind: TransactionType, n: nat, n': nat)
    requires KeysBelow(txs, n) && n <= n'
    ensures KindSum(txs, aid, kind, n') == KindSum(txs, aid, kind, n)
    decreases n'
  {
    if n' > n {
      KindSumBeyond(txs, aid, kind, n, n' - 1);
    }
  }

  /** The balance recalculateBalance computes: the initial balance plus the
      account's income amounts minus its expense amounts; transfers are ignored. */
  function RecalculatedBalance(s: Store, aid: Id): Cents
    requires aid in s.accounts
  {
    s.accounts[aid].initialBalance
    + KindSum(s.transactions, aid, TransactionType.Income, s.nextId)
    - KindSum(s.transactions, aid, TransactionType.Expense, s.nextId)
  }

  /** Account::recalculateBalance. */
  function RecalculateBalance(s: Store, aid: Id): (r: Store)
    requires aid in s.accounts
    ensures BalancesOnly(s, r)
    ensures forall a :: a in s.accounts && a != aid ==> r.accounts[a] == s.accounts[a]
    ensures r.accounts[aid].balance == RecalculatedBalance(s, aid)
  {
    s.(accounts := s.accounts[aid := s.accounts[aid].(balance := RecalculatedBalance(s, aid))])
  }

  /** The incrementally kept balance agrees with the recalculated one. */
  ghost predicate Reconciled(s: Store, aid: Id)
    requires aid in s.accounts
  {
    s.accounts[aid].balance == RecalculatedBalance(s, aid)
  }

  /** Recalculating reconciles, and a second recalculation changes nothing. */
  lemma RecalculateIdempotent(s: Store, aid: Id)
    requires aid in s.accounts
    ensures Reconciled(RecalculateBalance(s, aid), aid)
    ensures RecalculateBalance(RecalculateBalance(s, aid), aid) == RecalculateBalance(s, aid)
  {
    var r := RecalculateBalance(s, aid);
    assert RecalculatedBalance(r, aid) == RecalculatedBalance(s, aid);
    assert RecalculateBalance(r, aid).accounts == r.accounts;
  }

  /** A reconciled account is exactly one that recalculation leaves alone. */
  lemma ReconciledIsFixedPoint(s: Store, aid: Id)
    requires aid in s.accounts
    ensures Reconciled(s, aid) <==> RecalculateBalance(s, aid) == s
  {
    if Reconciled(s, aid) {
      assert RecalculateBalance(s, aid).accounts == s.accounts;
    }
  }

  /** An income or expense row's contribution is its income term minus its
      expense term on its own account, and it has no term on any other account. */
  lemma ContributionIsNetTerm(t: Transaction, aid: Id)
    ensures KindTerm(t, aid, TransactionType.Income) - KindTerm(t, aid, TransactionType.Expense)
            == (if t.accountId == aid then Contribution(t.kind, t.amount) else 0)
  {
  }

  /** An account no transaction is booked on sums to nothing. */
  lemma {:induction false} KindSumUnbooked(txs: map<Id, Transaction>, aid: Id, kind: TransactionType, n: nat)
    requires forall k :: k in txs ==> txs[k].accountId != aid
    ensures KindSum(txs, aid, kind, n) == 0
  {
    if n > 0 {
      KindSumUnbooked(txs, aid, kind, n - 1);
    }
  }

  /** Moving balances changes no recalculated balance. */
  lemma BalancesOnlyKeepsRecalculated(s: Store, r: Store, a: Id)
    requires BalancesOnly(s, r) && a in s.accounts
    ensures a in r.accounts && RecalculatedBalance(r, a) == RecalculatedBalance(s, a)
  {
  }

  /** Adding payments (and handing out their ids) reconciles nothing away. */
  lemma PaymentsExtendedKeepsReconciled(s: Store, r: Store, a: Id)
    requires IdsBelow(s) && PaymentsExtended(s, r) && a in s.accounts
    ensures a in r.accounts && (Reconciled(r, a) <==> Reconciled(s, a))
  {
    KindSumBeyond(s.transactions, a, TransactionType.Income, s.nextId, r.nextId);
    KindSumBeyond(s.transactions, a, TransactionType.Expense, s.nextId, r.nextId);
  }

  /** createTransaction keeps every reconciled account reconciled. */
  lemma CreateKeepsReconciled(s: Store, user: UserId, d: TransactionInput, today: Date, a: Id)
    requires IdsBelow(s) && a in s.accounts && Reconciled(s, a)
    requires CreateTransaction(s, user, d, today).Ok?
    ensures Reconciled(CreateTransaction(s, user, d, today).value.0, a)
  {
    var r := CreateTransaction(s, user, d, today).value.0;
    var n := s.nextId;
    assert n !in s.transactions;
    KindSumChange(s.transactions, r.transactions, a, TransactionType.Income, n + 1, n);
    KindSumChange(s.transactions, r.transactions, a, TransactionType.Expense, n + 1, n);
    ContributionIsNetTerm(r.transactions[n], a);
  }

  /** updateTransaction keeps every reconciled account reconciled. */
  lemma UpdateKeepsReconciled(s: Store, tid: Id, d: TransactionUpdate, a: Id)
    requires IdsBelow(s) && tid in s.transactions && a in s.accounts && Reconciled(s, a)
    requires UpdateTransaction(s, tid, d).Ok?
    ensures Reconciled(UpdateTransaction(s, tid, d).value, a)
  {
    var r := UpdateTransaction(s, tid, d).value;
    assert tid < s.nextId;
    KindSumChange(s.transactions, r.transactions, a, TransactionType.Income, s.nextId, tid);
    KindSumChange(s.transactions, r.transactions, a, TransactionType.Expense, s.nextId, tid);
    ContributionIsNetTerm(s.transactions[tid], a);
    ContributionIsNetTerm(r.transactions[tid], a);
  }

  /** Deleting an income or expense keeps every reconciled account reconciled. */
  lemma DeleteKeepsReconciled(s: Store, tid: Id, a: Id)
    requires IdsBelow(s) && tid in s.transactions && a in s.accounts && Reconciled(s, a)
    requires s.transactions[tid].kind != Transfer && s.transactions[tid].accountId in s.accounts
    ensures Reconciled(DeleteTransaction(s, tid).value, a)
  {
    var r := DeleteTransaction(s, tid).value;
    assert tid < s.nextId;
    DeleteRevertsOne(s, tid);
    KindSumChange(s.transactions, r.transactions, a, TransactionType.Income, s.nextId, tid);
    KindSumChange(s.transactions, r.transactions, a, TransactionType.Expense, s.nextId, tid);
    ContributionIsNetTerm(s.transactions[tid], a);
  }
}
