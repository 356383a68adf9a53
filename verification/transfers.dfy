/** TransactionService::createTransfer: a transfer between two of the user's
    accounts is a pair of Transfer transactions that name each other. The
    outgoing leg carries the amount in the source currency, the incoming leg the
    amount times the rate in the destination currency. Transfers are not counted
    by recalculateBalance, so a transfer makes the two balances diverge from
    their recalculated values. */
module Transfers {
  import opened Base
  import opened Calendar
  import opened Records
  import opened Ledger

  /** The validated fields createTransfer reads. */
  datatype TransferInput = TransferInput(
    fromId: Id,
    toId: Id,
    amount: Cents,
    rate: Option<real>,
    date: Option<Date>,
    description: Option<string>)

  /** The rate createTransfer uses: the caller's, else 1.0 between equal
      currency codes, else what the currency service quoted (None: no rate). */
  function TransferRate(given: Option<real>, fromCurrency: string, toCurrency: string, quoted: Option<real>): (r: Option<real>)
    ensures given.Some? ==> r == given
    ensures given.None? && fromCurrency == toCurrency ==> r == Some(1.0)
    ensures given.None? && fromCurrency != toCurrency ==> r == quoted
  {
    if given.None? && fromCurrency != toCurrency then quoted
    else Some(given.GetOr(1.0))
  }

  /** createTransfer. `quoted` is what CurrencyService::getRate returns for the
      two accounts' currencies on the transfer date; it is consulted only when
      no rate is given and the currencies differ. Returns the store and the ids
      of the outgoing and incoming legs. */
  function CreateTransfer(s: Store, user: UserId, d: TransferInput, quoted: Option<real>, today: Date): (r: Result<(Store, Id, Id)>)
    ensures r.Err? <==>
      || !OwnsAccount(s, user, d.fromId) || !OwnsAccount(s, user, d.toId) || d.fromId == d.toId
      || TransferRate(d.rate, s.accounts[d.fromId].currency, s.accounts[d.toId].currency, quoted).None?
    ensures r.Err? && (!OwnsAccount(s, user, d.fromId) || !OwnsAccount(s, user, d.toId)) ==> r.error == NotFound
    ensures r.Err? && OwnsAccount(s, user, d.fromId) && OwnsAccount(s, user, d.toId) && d.fromId == d.toId ==> r.error == SameAccount
    ensures r.Ok? ==> r.value.1 == s.nextId && r.value.2 == s.nextId + 1 && r.value.0.nextId == s.nextId + 2
    ensures r.Ok? ==>
      && r.value.0.payments == s.payments && r.value.0.recurring == s.recurring
      && r.value.0.categories == s.categories && r.value.0.accounts.Keys == s.accounts.Keys
  {
    if !OwnsAccount(s, user, d.fromId) || !OwnsAccount(s, user, d.toId) then Err(NotFound)
    else if d.fromId == d.toId then Err(SameAccount)
    else
      var from := s.accounts[d.fromId];
      var to := s.accounts[d.toId];
      match TransferRate(d.rate, from.currency, to.currency, quoted)
      case None => Err(RateUnavailable)
      case Some(rate) =>
        var destination := ToCents(d.amount as real * rate);
        var date := d.date.GetOr(today);
        var n := s.nextId;
        var outgoing := Transaction(user, d.fromId, None, None, TransactionType.Transfer, d.amount, from.currency,
                                    Some(d.description.GetOr("Transfer to " + to.name)), date, Some(rate),
                                    Some(d.fromId), Some(d.toId), Some(n + 1));
        var incoming := Transaction(user, d.toId, None, None, TransactionType.Transfer, destination, to.currency,
                                    Some(d.description.GetOr("Transfer from " + from.name)), date, Some(rate),
                                    Some(d.fromId), Some(d.toId), Some(n));
        var s1 := s.(transactions := s.transactions[n := outgoing][n + 1 := incoming], nextId := n + 2);
        Ok((AdjustBalance(AdjustBalance(s1, d.fromId, -d.amount), d.toId, destination), n, n + 1))
  }

  /** The two legs: both transfers, each linked to the other, both naming the
      same source, destination and rate, each in its own account's currency,
      the outgoing one for the amount and the incoming one for amount x rate. */
  lemma TransferLegsLinked(s: Store, user: UserId, d: TransferInput, quoted: Option<real>, today: Date)
    requires CreateTransfer(s, user, d, quoted, today).Ok?
    ensures var r := CreateTransfer(s, user, d, quoted, today).value;
      var rate := TransferRate(d.rate, s.accounts[d.fromId].currency, s.accounts[d.toId].currency, quoted).value;
      && r.1 in r.0.transactions && r.2 in r.0.transactions
      && var o := r.0.transactions[r.1]; var i := r.0.transactions[r.2];
      && o.kind == TransactionType.Transfer && i.kind == TransactionType.Transfer
      && o.linkedId == Some(r.2) && i.linkedId == Some(r.1)
      && o.accountId == d.fromId && i.accountId == d.toId
      && o.fromAccountId == i.fromAccountId == Some(d.fromId) && o.toAccountId == i.toAccountId == Some(d.toId)
      && o.exchangeRate == i.exchangeRate == Some(rate)
      && o.currency == s.accounts[d.fromId].currency && i.currency == s.accounts[d.toId].currency
      && o.amount == d.amount && i.amount == ToCents(d.amount as real * rate)
      && o.date == i.date == d.date.GetOr(today)
  {
  }

  /** The source loses the amount, the destination gains amount x rate, and no
      other balance moves. */
  lemma TransferMovesBalances(s: Store, user: UserId, d: TransferInput, quoted: Option<real>, today: Date)
    requires CreateTransfer(s, user, d, quoted, today).Ok?
    ensures var r := CreateTransfer(s, user, d, quoted, today).value.0;
      var rate := TransferRate(d.rate, s.accounts[d.fromId].currency, s.accounts[d.toId].currency, quoted).value;
      && r.accounts[d.fromId] == s.accounts[d.fromId].(balance := s.accounts[d.fromId].balance - d.amount)
      && r.accounts[d.toId] == s.accounts[d.toId].(balance := s.accounts[d.toId].balance + ToCents(d.amount as real * rate))
      && forall a :: a in s.accounts && a != d.fromId && a != d.toId ==> r.accounts[a] == s.accounts[a]
  {
  }

  /** 100.00 at a given rate of 1.10 arrives as 110.00. */
  lemma TransferExample(s: Store, user: UserId, from: Id, to: Id, today: Date)
    requires OwnsAccount(s, user, from) && OwnsAccount(s, user, to) && from != to
    ensures var r := CreateTransfer(s, user, TransferInput(from, to, 10000, Some(1.1), None, None), None, today);
      r.Ok? && r.value.0.accounts[to].balance == s.accounts[to].balance + 11000
            && r.value.0.accounts[from].balance == s.accounts[from].balance - 10000
  {
    assert ToCents(10000 as real * 1.1) == 11000;
  }

  /** A store `c` that holds, on top of `s`, a linked transfer pair at ids n and
      n + 1 moving `amount` out of `from` and `dest` into `to`. */
  ghost predicate HoldsTransferPair(s: Store, c: Store, n: Id, from: Id, to: Id, amount: Cents, dest: Cents) {
    && n in c.transactions && n + 1 in c.transactions
    && c.transactions - {n, n + 1} == s.transactions
    && var o := c.transactions[n]; var i := c.transactions[n + 1];
    && o.kind == TransactionType.Transfer && i.kind == TransactionType.Transfer
    && o.linkedId == Some(n + 1) && i.linkedId == Some(n)
    && o.accountId == from && i.accountId == to
    && o.fromAccountId == i.fromAccountId == Some(from) && o.toAccountId == i.toAccountId == Some(to)
    && o.amount == amount && i.amount == dest
    && from != to && from in s.accounts && to in s.accounts
    && c.accounts.Keys == s.accounts.Keys
    && c.accounts[from] == s.accounts[from].(balance := s.accounts[from].balance - amount)
    && c.accounts[to] == s.accounts[to].(balance := s.accounts[to].balance + dest)
    && forall a :: a in s.accounts && a != from && a != to ==> c.accounts[a] == s.accounts[a]
  }

  /** Deleting either leg of such a pair gives back `s`'s balances and rows. */
  lemma DeletePairRestores(s: Store, c: Store, n: Id, from: Id, to: Id, amount: Cents, dest: Cents, leg: Id)
    requires HoldsTransferPair(s, c, n, from, to, amount, dest)
    requires leg == n || leg == n + 1
    ensures var r := DeleteTransaction(c, leg);
      r.Ok? && r.value.accounts == s.accounts && r.value.transactions == s.transactions
  {
    var t := c.transactions[leg];
    var l := c.transactions[t.linkedId.value];
    assert (if t.accountId == from then t.amount else l.amount) == amount;
    assert (if t.accountId == to then t.amount else l.amount) == dest;
    RevertLinkedTransfer(c, t);
    assert RevertTransfer(c, t).accounts == s.accounts;
    assert Doomed(c, leg) == {n, n + 1};
  }

  /** Deleting either leg of a fresh transfer removes both legs and gives back
      both balances. */
  lemma DeleteEitherLegRestores(s: Store, user: UserId, d: TransferInput, quoted: Option<real>, today: Date, leg: Id)
    requires IdsBelow(s)
    requires CreateTransfer(s, user, d, quoted, today).Ok?
    requires leg == s.nextId || leg == s.nextId + 1
    ensures var c := CreateTransfer(s, user, d, quoted, today).value.0;
      leg in c.transactions && var r := DeleteTransaction(c, leg);
      r.Ok? && r.value.accounts == s.accounts && r.value.transactions == s.transactions
  {
    var c := CreateTransfer(s, user, d, quoted, today).value.0;
    var n := s.nextId;
    var rate := TransferRate(d.rate, s.accounts[d.fromId].currency, s.accounts[d.toId].currency, quoted).value;
    var dest := ToCents(d.amount as real * rate);
    assert HoldsTransferPair(s, c, n, d.fromId, d.toId, d.amount, dest) by {
      TransferLegsLinked(s, user, d, quoted, today);
      TransferMovesBalances(s, user, d, quoted, today);
      assert n !in s.transactions && n + 1 !in s.transactions;
      assert c.transactions - {n, n + 1} == s.transactions;
    }
    DeletePairRestores(s, c, n, d.fromId, d.toId, d.amount, dest, leg);
  }

  /** A transfer of a non-zero amount leaves a reconciled source account
      unreconciled: its balance moves, its recalculated balance does not. */
  lemma TransferDiverges(s: Store, user: UserId, d: TransferInput, quoted: Option<real>, today: Date)
    requires IdsBelow(s)
    requires CreateTransfer(s, user, d, quoted, today).Ok? && d.amount != 0
    requires Reconciled(s, d.fromId)
    ensures !Reconciled(CreateTransfer(s, user, d, quoted, today).value.0, d.fromId)
  {
    var r := CreateTransfer(s, user, d, quoted, today).value.0;
    var n := s.nextId;
    var a := d.fromId;
    assert n !in s.transactions && n + 1 !in s.transactions;
    assert forall k :: k in r.transactions && k !in s.transactions ==> k == n || k == n + 1;
    KindSumIgnoresTransfers(s.transactions, r.transactions, a, TransactionType.Income, n + 2);
    KindSumIgnoresTransfers(s.transactions, r.transactions, a, TransactionType.Expense, n + 2);
    assert KindSum(s.transactions, a, TransactionType.Income, n + 2) == KindSum(s.transactions, a, TransactionType.Income, n);
    assert KindSum(s.transactions, a, TransactionType.Expense, n + 2) == KindSum(s.transactions, a, TransactionType.Expense, n);
    assert RecalculatedBalance(r, a) == RecalculatedBalance(s, a);
  }
}
