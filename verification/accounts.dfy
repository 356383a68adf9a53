/** AccountService: creating, renaming and deleting accounts, manual balance
    adjustments, recalculating every balance of a user and the total balance. */
module Accounts {
  import opened Base
  import opened Calendar
  import opened Tables
  import opened Records
  import opened Ledger

  /** createAccount: balance and initial balance both the given balance, else
      0; the currency upper-cased. */
  function CreateAccount(s: Store, user: UserId, name: string, currency: string, balance: Option<Cents>): (r: (Store, Id))
    requires IdsBelow(s)
    ensures r.1 == s.nextId && r.0.nextId == s.nextId + 1 && r.1 !in s.accounts && r.1 in r.0.accounts
    ensures r.0.accounts[r.1].owner == user && r.0.accounts[r.1].name == name
    ensures r.0.accounts[r.1].currency == Upper(currency)
    ensures r.0.accounts[r.1].balance == r.0.accounts[r.1].initialBalance == balance.GetOr(0)
    ensures r.0.accounts - {r.1} == s.accounts
    ensures r.0.transactions == s.transactions && r.0.payments == s.payments && r.0.recurring == s.recurring
  {
    var b := balance.GetOr(0);
    (s.(accounts := s.accounts[s.nextId := Account(user, name, Upper(currency), b, b)], nextId := s.nextId + 1), s.nextId)
  }

  /** A new account starts reconciled: no transaction is booked on it yet. */
  lemma CreateAccountReconciled(s: Store, user: UserId, name: string, currency: string, balance: Option<Cents>)
    requires IdsBelow(s) && RefsBelow(s)
    ensures var r := CreateAccount(s, user, name, currency, balance); Reconciled(r.0, r.1)
  {
    var r := CreateAccount(s, user, name, currency, balance);
    KindSumUnbooked(r.0.transactions, r.1, TransactionType.Income, r.0.nextId);
    KindSumUnbooked(r.0.transactions, r.1, TransactionType.Expense, r.0.nextId);
  }

  /** updateAccount: only the name and the (upper-cased) currency change; the
      balance is untouched. */
  function UpdateAccount(s: Store, aid: Id, name: Option<string>, currency: Option<string>): (r: Result<Store>)
    ensures r.Err? <==> aid !in s.accounts
    ensures r.Ok? ==> r.value.accounts.Keys == s.accounts.Keys
    ensures r.Ok? ==> forall a :: a in s.accounts && a != aid ==> r.value.accounts[a] == s.accounts[a]
    ensures r.Ok? ==> var was := s.accounts[aid]; var now := r.value.accounts[aid];
      && now.balance == was.balance && now.initialBalance == was.initialBalance && now.owner == was.owner
      && now.name == name.GetOr(was.name)
      && now.currency == (if currency.Some? then Upper(currency.value) else was.currency)
    ensures r.Ok? ==> r.value.transactions == s.transactions && r.value.payments == s.payments
  {
    if aid !in s.accounts then Err(NotFound)
    else
      var a := s.accounts[aid];
      var a' := a.(name := name.GetOr(a.name), currency := if currency.Some? then Upper(currency.value) else a.currency);
      Ok(s.(accounts := s.accounts[aid := a']))
  }

  /** deleteAccount: mass deletes without model events, so no balance is
      reverted and no recurring deleting hook runs: the account's transactions,
      payments and recurring payments go, then the account. */
  function DeleteAccount(s: Store, aid: Id): (r: Result<Store>)
    ensures r.Err? <==> aid !in s.accounts
    ensures r.Ok? ==> r.value.accounts == s.accounts - {aid} && r.value.nextId == s.nextId
  {
    if aid !in s.accounts then Err(NotFound)
    else
      Ok(s.(transactions := map k | k in s.transactions && s.transactions[k].accountId != aid :: s.transactions[k],
            payments := map k | k in s.payments && s.payments[k].accountId != aid :: s.payments[k],
            trashed := s.trashed + map k | k in s.payments && s.payments[k].accountId == aid :: s.payments[k],
            recurring := map k | k in s.recurring && s.recurring[k].accountId != aid :: s.recurring[k],
            accounts := s.accounts - {aid}))
  }

  /** After the cascade no transaction, payment or schedule is booked on the
      account, the account's payments are soft-deleted, every other row is kept
      as it was, and every other balance is
      unchanged, even that of an account holding the other leg of a deleted
      transfer. */
  lemma DeleteAccountCascades(s: Store, aid: Id)
    requires aid in s.accounts
    ensures var r := DeleteAccount(s, aid).value;
      && (forall k :: k in r.transactions <==> k in s.transactions && s.transactions[k].accountId != aid)
      && (forall k :: k in r.payments <==> k in s.payments && s.payments[k].accountId != aid)
      && (forall k :: k in r.recurring <==> k in s.recurring && s.recurring[k].accountId != aid)
      && (forall k :: k in r.transactions ==> r.transactions[k] == s.transactions[k])
      && (forall k :: k in r.payments ==> r.payments[k] == s.payments[k])
      && (forall k :: k in s.payments && s.payments[k].accountId == aid ==> k in r.trashed && r.trashed[k] == s.payments[k])
      && (forall k :: k in r.recurring ==> r.recurring[k] == s.recurring[k])
      && (forall a :: a in r.accounts ==> r.accounts[a] == s.accounts[a])
  {
  }

  /** A transfer leg on another account outlives the deleted account's leg and
      still names it as its link. */
  lemma DeleteAccountOrphansTransferLeg(s: Store, aid: Id, keep: Id)
    requires aid in s.accounts && keep in s.transactions
    requires s.transactions[keep].accountId != aid && s.transactions[keep].linkedId.Some?
    requires s.transactions[keep].linkedId.value in s.transactions
    requires s.transactions[s.transactions[keep].linkedId.value].accountId == aid
    ensures var r := DeleteAccount(s, aid).value;
      keep in r.transactions && r.transactions[keep].linkedId.value !in r.transactions
  {
  }

  /** The operations adjustBalance accepts. */
  datatype Operation = Add | Increment | Subtract | Decrement | Other(name: string)

  /** The operation named by a string; anything else is kept as Other. */
  function ParseOperation(op: string): (r: Operation)
    ensures r.Other? <==> op !in {"add", "increment", "subtract", "decrement"}
  {
    if op == "add" then Add
    else if op == "increment" then Increment
    else if op == "subtract" then Subtract
    else if op == "decrement" then Decrement
    else Other(op)
  }

  /** adjustBalance(account, amount, operation): add and increment add the
      amount, subtract and decrement take it away, anything else fails and
      changes nothing. */
  function AdjustAccountBalance(s: Store, aid: Id, amount: Cents, op: string): (r: Result<Store>)
    ensures r.Err? <==> aid !in s.accounts || ParseOperation(op).Other?
    ensures r.Err? && aid in s.accounts ==> r.error == InvalidOperation
    ensures r.Ok? ==> BalancesOnly(s, r.value)
    ensures r.Ok? ==> forall a :: a in s.accounts ==>
      r.value.accounts[a].balance == s.accounts[a].balance
        + (if a != aid then 0 else if op in {"add", "increment"} then amount else -amount)
  {
    if aid !in s.accounts then Err(NotFound)
    else
      match ParseOperation(op)
      case Other(_) => Err(InvalidOperation)
      case parsed =>
        var delta := if parsed.Add? || parsed.Increment? then amount else -amount;
        AdjustBalanceShape(s, aid, delta);
        Ok(AdjustBalance(s, aid, delta))
  }

  /** Moving one balance changes that balance by the delta and nothing else. */
  lemma AdjustBalanceShape(s: Store, aid: Id, delta: Cents)
    requires aid in s.accounts
    ensures BalancesOnly(s, AdjustBalance(s, aid, delta))
    ensures forall a :: a in s.accounts ==>
      AdjustBalance(s, aid, delta).accounts[a].balance == s.accounts[a].balance + (if a == aid then delta else 0)
  {
  }

  /** Subtracting what was added restores the store. */
  lemma AddThenSubtract(s: Store, aid: Id, amount: Cents)
    requires aid in s.accounts
    ensures var r := AdjustAccountBalance(s, aid, amount, "add");
      r.Ok? && AdjustAccountBalance(r.value, aid, amount, "subtract") == Ok(s)
  {
    var r := AdjustAccountBalance(s, aid, amount, "add").value;
    assert AdjustAccountBalance(r, aid, amount, "subtract").value.accounts == s.accounts;
  }

  /** recalculateAllBalances over the accounts below n: each of the user's
      accounts in id order gets Account::recalculateBalance. A recalculation
      reads only the account's opening balance and the transactions, which no
      step of the fold writes, so every step reads them from s. */
  function RecalculateAllBelow(s: Store, user: UserId, n: nat): (r: map<Id, Account>)
    ensures r.Keys == s.accounts.Keys
    decreases n
  {
    if n == 0 then s.accounts
    else
      var r := RecalculateAllBelow(s, user, n - 1);
      if n - 1 in r && r[n - 1].owner == user
      then r[n - 1 := r[n - 1].(balance := RecalculatedBalance(s, n - 1))]
      else r
  }

  /** The row the fold leaves for account a: recalculated once the fold has
      passed a user's account, as it was otherwise. */
  lemma {:induction false} RecalculateAllBelowAt(s: Store, user: UserId, n: nat, a: Id)
    requires a in s.accounts
    ensures RecalculateAllBelow(s, user, n)[a]
            == if a < n && s.accounts[a].owner == user
               then s.accounts[a].(balance := RecalculatedBalance(s, a))
               else s.accounts[a]
    decreases n
  {
    if n > 0 {
      RecalculateAllBelowAt(s, user, n - 1, a);
    }
  }

  function RecalculateAll(s: Store, user: UserId): (r: Store)
    ensures BalancesOnly(s, r)
  {
    var accounts := RecalculateAllBelow(s, user, s.nextId);
    assert forall a :: a in s.accounts ==> accounts[a] == s.accounts[a].(balance := accounts[a].balance) by {
      forall a | a in s.accounts
        ensures accounts[a] == s.accounts[a].(balance := accounts[a].balance)
      {
        RecalculateAllBelowAt(s, user, s.nextId, a);
      }
    }
    s.(accounts := accounts)
  }

  /** After recalculateAllBalances every account of the user is reconciled, and
      every other account is unchanged. */
  lemma RecalculateAllReconciles(s: Store, user: UserId)
    requires IdsBelow(s)
    ensures var r := RecalculateAll(s, user);
      && (forall a :: a in s.accounts && s.accounts[a].owner == user ==> a in r.accounts && Reconciled(r, a))
      && (forall a :: a in s.accounts && s.accounts[a].owner != user ==> r.accounts[a] == s.accounts[a])
  {
    var r := RecalculateAll(s, user);
    forall a | a in s.accounts
      ensures a in r.accounts
      ensures s.accounts[a].owner == user ==> Reconciled(r, a)
      ensures s.accounts[a].owner != user ==> r.accounts[a] == s.accounts[a]
    {
      RecalculateAllBelowAt(s, user, s.nextId, a);
      if s.accounts[a].owner == user {
        BalancesOnlyKeepsRecalculated(s, r, a);
      }
    }
  }

  /** PHP truthiness of a currency string: "" and "0" are false. */
  predicate Truthy(c: string) {
    c != "" && c != "0"
  }

  /** The accounts getTotalBalance sums: the user's, restricted to the
      upper-cased currency when a truthy one is given. */
  function TotalFilter(user: UserId, currency: Option<string>): Account -> bool {
    (a: Account) => a.owner == user && (currency.None? || !Truthy(currency.value) || a.currency == Upper(currency.value))
  }

  function Balance(a: Account): int {
    a.balance
  }

  /** getTotalBalance(user, currency). */
  function TotalBalance(s: Store, user: UserId, currency: Option<string>): Cents {
    SumBelow(s.accounts, Where(TotalFilter(user, currency), Balance), s.nextId)
  }

  /** Totals per currency and over the other currencies add up to the overall
      total; a falsy currency is no filter at all. */
  lemma TotalBalanceSplits(s: Store, user: UserId, c: string)
    ensures Truthy(c) ==>
      TotalBalance(s, user, Some(c))
      + SumBelow(s.accounts, Where((a: Account) => a.owner == user && a.currency != Upper(c), Balance), s.nextId)
      == TotalBalance(s, user, None)
    ensures !Truthy(c) ==> TotalBalance(s, user, Some(c)) == TotalBalance(s, user, None)
  {
    var all := Where(TotalFilter(user, None), Balance);
    var isC := (a: Account) => a.currency == Upper(c);
    if Truthy(c) {
      SumPartition(s.accounts, all, isC, s.nextId);
      SumPointwise(s.accounts, Where(isC, all), Where(TotalFilter(user, Some(c)), Balance), s.nextId);
      SumPointwise(s.accounts, Where(Not(isC), all),
                   Where((a: Account) => a.owner == user && a.currency != Upper(c), Balance), s.nextId);
    } else {
      SumPointwise(s.accounts, Where(TotalFilter(user, Some(c)), Balance), all, s.nextId);
    }
  }
}
