# flusso: the recurring-payment, payment and ledger engine in Dafny

flusso is a personal-finance application. It has a PHP (Laravel) back end and a TypeScript front end. This project models its engine as pure functions over one in-memory store, and proves properties of those functions. The engine covers:

- **Schedules.** A recurring payment (a *schedule*) is projected forward into unpaid payments up to a horizon. Generation stops at the end date and at the installment cap, and never creates two payments with the same due date.
- **Settlement.** A payment is settled by a transaction that moves its account's balance. Un-settling or deleting the payment reverts that move.
- **Ledger.** Transactions are created, updated and deleted, always by exact balance deltas. A transfer is a mutually linked pair of transactions. An account's balance can be recomputed from its income and expense rows.
- **Read side.** The same store feeds the period summaries, category spending, schedule statistics and the dashboard.
- **Around the engine:**
  - the financial-period resolver;
  - the exchange-rate cache policy;
  - the request validators and the `BelongsToUser` rule;
  - two front-end string helpers: the category-icon lookup and `getInitials`.

Representation:

- **Store.** `Records.Store` holds one map per record kind: accounts, categories, recurring payments, payments and transactions. It also holds one id counter, `nextId`, which hands out fresh ids. A soft delete removes the row from its map; soft-deleted payments are kept in a map of their own, `trashed`, because the unique (schedule, due date) index of the payments table still covers them.
- **Store invariants.** Operations state their preconditions with these predicates:
  - `Records.IdsBelow`: every key is below `nextId`;
  - `Records.RefsBelow`: references point below `nextId`;
  - `Records.IntervalsPositive`: every schedule has `interval_value >= 1`;
  - `Reports.CategoryRefsBelow`: category references point below `nextId`.
- **Money.** Amounts are integer cents (`Cents`), matching the two-decimal columns. An exchange rate is a `real`.
- **Dates.**
  - `Calendar.Date` is a valid (year, month, day) triple.
  - Carbon's month and year arithmetic and `day(n)` overflow into the next month; they do not clamp. The model does the same (`Calendar.Normalize`).
  - Dates are ordered by an order-preserving integer code (`Calendar.Rank`).
- **Injected inputs.** `today` is a parameter wherever the code reads `now()`. The exchange-rate HTTP responses are a parameter (`Currency.Network`).
- **Errors.** Exceptions and `findOrFail` are `Base.Result` errors. A failed database transaction writes nothing: the whole call returns `Err`.
- **Loops.** Loops over rows visit ids `0 .. nextId-1` (`Tables.SumBelow`, `Tables.Select`). The payment generator is a recursive function. Its termination measure is the distance from the candidate date to the horizon.

## Model

| member | source | states |
|---|---|---|
| Calendar.DaysInMonth | app/Models/RecurringPayment.php:145-148 | months have 28 to 31 days; February has 29 exactly in leap years |
| Calendar.BeforeIsLexicographic | app/Models/Payment.php:94 | the date order used by the model is the order of (year, month, day), i.e. of 'Y-m-d' strings |
| Calendar.RankInjective | app/Models/RecurringPayment.php:131 | two dates with the same order code are the same date, so "latest due date" is well defined |
| Calendar.Normalize | app/Models/RecurringPayment.php:147-148 | Carbon overflow: a day past the month's end rolls into a later month; an existing day is kept as is |
| Calendar.AddDays | app/Models/RecurringPayment.php:145 | adding n >= 1 days gives a strictly later date; adding 0 days changes nothing |
| Calendar.AddMonths | app/Models/RecurringPayment.php:147 | adding n months lands at least n months later, on the same day when that day exists in the target month |
| Calendar.AddYears | app/Models/RecurringPayment.php:148 | adding n years lands at least 12n months later |
| Calendar.SetDay | app/Services/FinancialPeriodService.php:27 | `day(n)` keeps the month when day n exists there and overflows into a later month otherwise |
| Calendar.StartOfMonth | app/Services/FinancialPeriodService.php:17 | the first day of the same month, not after the date |
| Calendar.EndOfMonth | app/Services/FinancialPeriodService.php:18 | the last day of the same month, not before the date |
| Calendar.NextDayIsSuccessor | app/Services/FinancialPeriodService.php:54 | `addDay` gives the immediate successor: no date lies strictly between d and the next day |
| Calendar.PrevDayIsPredecessor | app/Services/FinancialPeriodService.php:28 | `subDay` gives the immediate predecessor |
| Calendar.PrevOfNext | app/Services/FinancialPeriodService.php:28 | `subDay` undoes `addDay` |
| Calendar.NextOfPrev | app/Services/FinancialPeriodService.php:54 | `addDay` undoes `subDay` |
| Records.ToCents | app/Services/TransactionService.php:173 | the cent amount lies within half a cent of the real amount |
| Records.AdjustBalance | app/Services/TransactionService.php:265-266 | a balance increment on an existing account keeps every id below the counter |
| Records.PaymentsExtendedTransitive | app/Services/PaymentService.php:112-122 | "only payments added under fresh ids" composes across successive calls |
| RecurringModel.CalculateNextDate | app/Models/RecurringPayment.php:140-150 | with interval_value >= 1 the next date is strictly later, which is what makes generation terminate; with 0 it stays put |
| RecurringModel.WeeksAreSevenDays | app/Models/RecurringPayment.php:146 | stepping n weeks is stepping 7n days |
| RecurringModel.YearsAreTwelveMonths | app/Models/RecurringPayment.php:148 | stepping n years is stepping 12n months |
| RecurringModel.CountOfAgree | app/Models/RecurringPayment.php:122 | the payment count of a schedule depends only on which rows belong to it |
| RecurringModel.CountOfInsert | app/Services/PaymentService.php:112-122 | inserting one payment of the schedule raises its count by one, any other row by zero |
| RecurringModel.LatestDueBelowSpec | app/Models/RecurringPayment.php:131 | the latest due date is absent iff the schedule has no payment; otherwise it is one of its due dates and no due date is later |
| RecurringModel.GetNextDueDate | app/Models/RecurringPayment.php:129-138 | the start date when the schedule has no payment, else a date strictly after the latest due date |
| RecurringModel.HasEnded | app/Models/RecurringPayment.php:116-127 | predicate with no contract of its own; its relation to the notEnded and notExhausted scopes is RecurringModel.NotEndedIsNotDateEnded and RecurringModel.NotExhaustedIsNotCapReached |
| RecurringModel.NotEndedIsNotDateEnded | app/Models/RecurringPayment.php:95-120 | the notEnded scope is exactly the negation of hasEnded's end-date clause |
| RecurringModel.NotExhaustedIsNotCapReached | app/Models/RecurringPayment.php:103-124 | notExhausted is the negation of hasEnded's cap clause, except that a cap of 0 is "no cap" for hasEnded but "exhausted" for the scope |
| RecurringModel.DeleteUnpaidOf | app/Models/RecurringPayment.php:20-24 | the deleting hook removes exactly the schedule's unpaid payments and leaves every other row as it was |
| RecurringModel.UnpaidOf | app/Models/RecurringPayment.php:20-24 | the rows the deleting hook soft-deletes: only unpaid payments of the schedule, unchanged |
| RecurringModel.DeleteHookSplits | app/Models/RecurringPayment.php:20-24 | the rows the hook keeps and the rows it soft-deletes are disjoint and together make up all payments |
| RecurringModel.DeleteHookKeepsPaid | app/Models/RecurringPayment.php:20-24 | a paid payment survives the deletion of its schedule unchanged |
| Projector.PaymentTypeFromCategory | app/Services/PaymentService.php:252-258 | an income category gives an income payment, an expense category an expense payment |
| Projector.GenLoop | app/Services/PaymentService.php:98-129 | the loop only adds rows, and every id it reports is in the result |
| Projector.GenLoopFrame | app/Services/PaymentService.php:98-129 | the loop hands out consecutive fresh ids from the counter on, keeps every existing row, and changes nothing when it creates nothing |
| Projector.GenLoopCreates | app/Services/PaymentService.php:99-122 | every created payment is an unpaid copy of the schedule's account, category, amount and currency, described by the schedule's name, due in the window between the first candidate, the horizon and the end date |
| Projector.GenLoopCap | app/Services/PaymentService.php:96-125 | with a cap, the loop creates nothing once the count has reached it, and never takes the count past it |
| Projector.GenLoopUnique | app/Services/PaymentService.php:107-111 | no two payments of one schedule share a due date after the loop if none did before |
| Projector.Generate | app/Services/PaymentService.php:76-132 | as written: an inactive or ended schedule yields nothing; otherwise the call fails as not found exactly when the category is gone, and with a duplicate due date exactly when a payment it would create is due on the date of a soft-deleted payment of the schedule; on success it is the corrected generation, and no new payment shares a soft-deleted payment's due date |
| Projector.GenerateFixed | app/Services/PaymentService.php:76-132 | corrected, for an index over live rows only: an inactive or ended schedule yields nothing; the call fails (category not found) exactly when the schedule's category is gone; otherwise only fresh unpaid payments are added, under consecutive fresh ids |
| Projector.GenerateCreates | app/Services/PaymentService.php:87-122 | each new payment copies the schedule, takes its type from the category, and is due between the first candidate and the horizon, not after the end date |
| Projector.GenerateCount | app/Services/PaymentService.php:96-125 | the schedule's payment count grows by exactly the number created, and never passes the installment cap, whatever the horizon |
| Projector.GenerateUnique | app/Services/PaymentService.php:107-122 | a successful generation keeps the unique (schedule, due date) index, over live and soft-deleted payments together |
| Projector.GenerateFixedUnique | app/Services/PaymentService.php:107-111 | the corrected generation keeps live payments unique per (schedule, due date), because the existence check skips every taken date |
| Projector.GenerateWithoutTrashed | app/Services/PaymentService.php:107-122 | when the schedule has no soft-deleted payment, generation as written and corrected agree |
| Projector.GenerateDuplicateWitness | app/Services/PaymentService.php:98-122 | a duplicate-due-date failure is caused by a soft-deleted payment of the schedule due between the first candidate and the horizon |
| Projector.GenerateHitsTrashed | app/Services/PaymentService.php:98-122 | when the first candidate is the due date of a soft-deleted payment and the loop would create it, generation as written fails while the corrected one creates that payment |
| Projector.RentReactivationFails | app/Services/PaymentService.php:107-122 | monthly rent from 1 January 2025, January paid and February soft-deleted: generating on 20 January fails as written, while the corrected generation creates February |
| Projector.FirstCandidateIsFresh | app/Services/PaymentService.php:87-93 | the first candidate lies strictly after every existing due date of the schedule |
| Projector.GenLoopFreshStep | app/Services/PaymentService.php:98-126 | one loop step creates the candidate's payment and moves on one interval, and the existence check never skips a candidate |
| Projector.GenLoopFirst | app/Services/PaymentService.php:98-105 | the loop creates nothing iff the first candidate already meets an exit; otherwise the first payment is due on that candidate |
| Projector.GenLoopConsecutive | app/Services/PaymentService.php:124 | consecutive created payments are exactly one interval apart |
| Projector.GenLoopLast | app/Services/PaymentService.php:98-124 | the candidate after the last created payment meets an exit, and the last created payment is the schedule's latest |
| Projector.GenLoopLatest | app/Models/RecurringPayment.php:131 | after the loop, the schedule's latest due date is that of the last payment created |
| Projector.GenerateLastIsLatest | app/Models/RecurringPayment.php:129-138 | after generation, getNextDueDate starts from the last payment created |
| Projector.GenerateLeavesHalted | app/Services/PaymentService.php:80-105 | after generation, the next candidate meets an exit or the schedule is inactive or ended |
| Projector.GenerateIdempotent | app/Services/PaymentService.php:76-132 | a second call with the same horizon and day creates nothing and changes nothing |
| Projector.GenerateStepsByInterval | app/Services/PaymentService.php:87-124 | the first payment created is due on the first candidate, and each next one is one interval later |
| Projector.GenerateAllFrom | app/Services/PaymentService.php:140-148 | the loop over schedules only adds payments under fresh ids |
| Projector.GenerateAllFromCreates | app/Services/PaymentService.php:140-148 | every new payment belongs to an active, not-ended schedule of the user, is unpaid and is due by the horizon |
| Projector.GenerateAllFromUnique | app/Services/PaymentService.php:140-148 | the loop over schedules keeps the unique (schedule, due date) index over live and soft-deleted payments |
| Projector.GenerateAllFromFails | app/Services/PaymentService.php:140-148 | the loop fails only because some selected schedule's category is gone or it has a soft-deleted payment due by the horizon |
| Projector.GenerateAll | app/Services/PaymentService.php:134-151 | generating for all of a user's schedules only adds payments under fresh ids |
| Projector.GenerateAllSound | app/Services/PaymentService.php:134-151 | new payments belong to the user's active, not-ended schedules, are unpaid and are due by the horizon; the unique index is kept; failure means a selected schedule lost its category or has a soft-deleted payment due by the horizon |
| Ledger.ApplyToBalance | app/Services/TransactionService.php:262-269 | income adds the amount to the account's balance, expense subtracts it, a transfer changes nothing; no other field or account changes |
| Ledger.RevertFromBalance | app/Services/TransactionService.php:271-278 | the opposite move: income subtracts, expense adds, a transfer changes nothing |
| Ledger.RevertUndoesApply | app/Services/TransactionService.php:262-278 | reverting a transaction's effect after applying it gives back the store |
| Ledger.ApplyUndoesRevert | app/Services/TransactionService.php:262-278 | applying after reverting also gives back the store |
| Ledger.CreateTransaction | app/Services/TransactionService.php:44-64 | fails (not found) iff the account is not the user's; otherwise inserts one row under the fresh id, with the account's currency and today as defaults, and moves only that account's balance, by the row's signed amount |
| Ledger.Updated | app/Services/TransactionService.php:75-83 | an update keeps owner, schedule, rate and transfer links; an update that gives no fields keeps the row |
| Ledger.UpdateTransaction | app/Services/TransactionService.php:66-90 | fails iff the old or new account is missing; otherwise replaces the row and moves balances by minus the old effect on the old account plus the new effect on the new account |
| Ledger.UpdateNothingIsIdentity | app/Services/TransactionService.php:66-90 | an update that gives no fields leaves the whole store unchanged |
| Ledger.RevertTransfer | app/Services/TransactionService.php:113-145 | reverting a transfer touches balances only |
| Ledger.RevertLinkedTransfer | app/Services/TransactionService.php:126-137 | with both accounts and the link present: the from-account gets the outgoing leg's amount back, and the to-account loses the incoming leg's amount, whichever leg is deleted |
| Ledger.DeleteTransaction | app/Services/TransactionService.php:92-111 | removes the row, plus the linked leg for a transfer; fails only for a non-transfer whose account is gone; payments, schedules and categories are untouched |
| Ledger.DeleteRevertsOne | app/Services/TransactionService.php:108-109 | deleting a non-transfer reverts exactly its own effect on its own account |
| Ledger.CreateThenDelete | app/Services/TransactionService.php:44-111 | deleting a just-created transaction gives back the balances and rows |
| Ledger.KindSumChange | app/Models/Account.php:74-80 | changing one row changes an account's per-type sum by the difference of that row's terms |
| Ledger.KindSumIgnoresTransfers | app/Models/Account.php:74-80 | rows of type transfer never enter the income or expense sums |
| Ledger.RecalculateBalance | app/Models/Account.php:72-84 | sets the balance to the initial balance plus income minus expenses of the account's rows, and changes nothing else |
| Ledger.RecalculateIdempotent | app/Models/Account.php:72-84 | recalculating twice is recalculating once, and leaves the account reconciled |
| Ledger.ReconciledIsFixedPoint | app/Models/Account.php:72-84 | an account is reconciled exactly when recalculation would not change the store |
| Ledger.ContributionIsNetTerm | app/Models/Account.php:74-82 | a row's incremental effect on a balance equals its income term minus its expense term |
| Ledger.CreateKeepsReconciled | app/Services/TransactionService.php:44-64 | creating an income or expense transaction keeps every reconciled account reconciled |
| Ledger.UpdateKeepsReconciled | app/Services/TransactionService.php:66-90 | updating a transaction keeps every reconciled account reconciled |
| Ledger.DeleteKeepsReconciled | app/Services/TransactionService.php:108-109 | deleting a non-transfer keeps every reconciled account reconciled |
| Transfers.TransferRate | app/Services/TransactionService.php:157-172 | an explicit rate wins; equal currencies give 1.0; otherwise the quoted rate, which may be missing |
| Transfers.CreateTransfer | app/Services/TransactionService.php:147-222 | fails iff an account is not the user's (not found), the accounts are the same, or no rate is available, and a failure writes nothing; otherwise two fresh rows and only balances change |
| Transfers.TransferLegsLinked | app/Services/TransactionService.php:187-212 | both legs are transfers and point at each other; they share the from/to ids, the rate and the date; each carries its own account's currency; the incoming amount is amount x rate |
| Transfers.TransferMovesBalances | app/Services/TransactionService.php:214-215 | the from-account loses the amount, the to-account gains amount x rate, and no other account changes |
| Transfers.TransferExample | app/Services/TransactionService.php:172-215 | 100.00 at rate 1.1 moves 100.00 out and 110.00 in |
| Transfers.DeletePairRestores | app/Services/TransactionService.php:97-145 | deleting either leg of a linked pair removes both rows and restores both balances |
| Transfers.DeleteEitherLegRestores | app/Services/TransactionService.php:97-222 | deleting either leg of a transfer just created gives back every balance and row |
| Transfers.TransferDiverges | app/Models/Account.php:74-80 | after a transfer of a non-zero amount, the from-account's balance no longer equals its recalculated balance |
| Settlement.SettledKind | app/Services/PaymentService.php:160-163 | an income payment is settled by an income transaction, an expense by an expense, never by a transfer |
| Settlement.Settle | app/Services/PaymentService.php:165-185 | settling uses one fresh id and leaves schedules and categories alone |
| Settlement.MarkAsPaid | app/Services/PaymentService.php:153-196 | a missing payment is not found, and a paid one is rejected as already paid; a missing account fails; success returns the fresh transaction id |
| Settlement.SettleKeepsCount | app/Services/PaymentService.php:176-180 | settling a payment does not change any schedule's payment count |
| Settlement.MarkAsPaidFails | app/Services/PaymentService.php:153-196 | markAsPaid fails exactly when the payment is missing or already paid, its account is gone, or the regeneration it triggers fails: the category is gone, or a new due date collides with a soft-deleted payment |
| Settlement.MarkAsPaidRecords | app/Services/PaymentService.php:165-180 | the payment was unpaid; one transaction is added (type from the payment, date = paid date or due date); the payment becomes paid today with that transaction; other payments are kept |
| Settlement.MarkAsPaidAppliesTransaction | app/Services/PaymentService.php:182-185 | the balance move equals applying the created transaction: +amount for income, -amount for an expense |
| Settlement.MarkAsPaidKeepsReconciled | app/Services/PaymentService.php:153-196 | settling a payment keeps every reconciled account reconciled |
| Settlement.MarkAsUnpaid | app/Services/PaymentService.php:198-222 | a missing payment is not found, and an unpaid one is rejected as already unpaid; on success the payment's paid flag, paid date and transaction link are cleared |
| Settlement.MarkAsUnpaidLedger | app/Services/PaymentService.php:205-214 | with deleteTransaction and a link: removes exactly that row and moves the balance back by the payment's signed amount, failing only when the account or row is missing; otherwise the ledger is untouched |
| Settlement.MarkAsUnpaidIsDeleteTransaction | app/Services/PaymentService.php:205-214 | when the linked row matches the payment, unmarking has the same ledger effect as deleting that transaction |
| Settlement.MarkAsUnpaidKeepOnlyClears | app/Services/PaymentService.php:216-220 | with deleteTransaction = false only the payment's three fields change |
| Settlement.MarkAsPaidSettles | app/Services/PaymentService.php:153-196 | markAsPaid is a settlement: row added, payment marked, balance applied, otherwise only fresh payments added |
| Settlement.UnpaidUndoesPaid | app/Services/PaymentService.php:176-220 | unmarking a freshly paid payment gives back the unpaid payment |
| Settlement.UnsettleRestores | app/Services/PaymentService.php:198-222 | unmarking a settlement gives back the store up to payments added under fresh ids |
| Settlement.PaidThenUnpaidRestores | app/Services/PaymentService.php:153-222 | the balance round trip: markAsPaid and then markAsUnpaid restores every balance and transaction |
| Settlement.MarkAsPaidFrame | app/Services/PaymentService.php:153-196 | markAsPaid leaves schedules, categories and the set of accounts alone |
| Settlement.DeletePayment | app/Services/PaymentService.php:224-233 | a missing payment is not found; on success exactly that payment leaves the live rows and is kept among the soft-deleted ones with its schedule and due date |
| Settlement.DeletePaymentLedger | app/Services/PaymentService.php:227-231 | for a paid payment with a transaction, deleting has the ledger effect of unmarking it first; otherwise the ledger is untouched |
| Settlement.PaidThenDeletedRestores | app/Services/PaymentService.php:153-233 | paying and then deleting a payment restores every balance and transaction |
| Settlement.DeterminePaymentType | app/Services/PaymentService.php:260-274 | an explicit type wins; else the category's type when the category exists; else expense |
| Settlement.CreateManualPayment | app/Services/PaymentService.php:60-74 | one unpaid payment without a schedule is added under the fresh id, with the given fields and the category's type; nothing else changes |
| PaymentQueries.OverdueScopeIsOverdue | app/Models/Payment.php:92-110 | the overdue scope (string comparison) and isOverdue (date comparison) agree |
| PaymentQueries.UpcomingScopeIsNotBefore | app/Models/Payment.php:97-100 | upcoming means unpaid and due today or later |
| PaymentQueries.ScopesPartition | app/Models/Payment.php:67-100 | paid and unpaid partition all payments; overdue and upcoming partition the unpaid ones |
| PaymentQueries.IncomeOrExpense | app/Models/Payment.php:112-120 | exactly one of isIncome and isExpense holds |
| PaymentQueries.QuerySpec | app/Services/PaymentService.php:29-58 | a where/orderBy query lists exactly the matching rows, as many as match, ordered by due date |
| PaymentQueries.UpcomingPayments | app/Services/PaymentService.php:29-40 | at most one entry per id; which payments it lists and in what order is PaymentQueries.UpcomingPaymentsSpec |
| PaymentQueries.UpcomingPaymentsSpec | app/Services/PaymentService.php:29-40 | exactly the user's unpaid payments due from today up to the horizon (default 18 months ahead), ordered by due date |
| PaymentQueries.OverduePayments | app/Services/PaymentService.php:42-49 | at most one entry per id; which payments it lists and in what order is PaymentQueries.OverduePaymentsSpec |
| PaymentQueries.OverduePaymentsSpec | app/Services/PaymentService.php:42-49 | exactly the user's overdue payments, ordered by due date |
| PaymentQueries.PaymentsForPeriod | app/Services/PaymentService.php:51-58 | at most one entry per id; which payments it lists and in what order is PaymentQueries.PaymentsForPeriodSpec |
| PaymentQueries.PaymentsForPeriodSpec | app/Services/PaymentService.php:51-58 | exactly the user's payments due in the period, both ends included, ordered by due date |
| PaymentQueries.PaymentSummaryForPeriod | app/Services/PaymentService.php:235-250 | non-negative paid and unpaid counts; how counts and totals add up is PaymentQueries.PaymentSummaryPartitions |
| PaymentQueries.PaymentSummaryPartitions | app/Services/PaymentService.php:235-250 | paid and unpaid counts add up to the period's payments; due, expected income and paid totals add up to the period's total |
| RecurringService.NewRecurring | app/Services/RecurringPaymentService.php:38-50 | the currency is upper-cased; interval_value defaults to 1; the schedule is active unless false is given; other fields are copied |
| RecurringService.CreateRecurring | app/Services/RecurringPaymentService.php:35-58 | inserts the new schedule under the fresh id and touches no account or transaction; fails only when generation fails, which for a new schedule means only a missing category |
| RecurringService.CreateRecurringPayments | app/Services/RecurringPaymentService.php:52-54 | an inactive schedule gets no payments; an active one gets only unpaid payments of its own, due from its start date on |
| RecurringService.UpdatedRecurring | app/Services/RecurringPaymentService.php:66-78 | omitted fields keep their values; end date and installments can be set to null; the currency is upper-cased |
| RecurringService.UpdateNothingKeeps | app/Services/RecurringPaymentService.php:66-78 | an update that gives no fields keeps the schedule |
| RecurringService.UpdateFuturePaymentsSpec | app/Services/RecurringPaymentService.php:127-138 | the schedule's unpaid payments take its account, category, amount, currency and name; due dates, paid flags and other rows are untouched |
| RecurringService.UpdateFuturePayments | app/Services/RecurringPaymentService.php:127-138 | keeps exactly the same payment ids; what each row becomes is RecurringService.UpdateFuturePaymentsSpec |
| RecurringService.DeleteUnpaidPayments | app/Services/RecurringPaymentService.php:120-125 | the schedule's unpaid payments move to the soft-deleted rows unchanged; accounts, transactions, schedules and the other payments are untouched |
| RecurringService.UpdateRecurring | app/Services/RecurringPaymentService.php:60-91 | stores the updated schedule and touches no account or transaction |
| RecurringService.UpdateActivePropagates | app/Services/RecurringPaymentService.php:82-138 | when the result is active, unpaid payments take the new terms, paid ones and all due dates are untouched, and only fresh payments are added |
| RecurringService.DeactivateDropsUnpaid | app/Services/RecurringPaymentService.php:85-125 | active to inactive deletes exactly the schedule's unpaid payments and keeps the rest unchanged |
| RecurringService.InactiveStaysQuiet | app/Services/RecurringPaymentService.php:82-87 | inactive to inactive changes no payment |
| RecurringService.Deactivate | app/Services/RecurringPaymentService.php:101-104 | always succeeds and leaves the schedule inactive |
| RecurringService.Activate | app/Services/RecurringPaymentService.php:106-109 | on success the schedule is the same, now active |
| RecurringService.ReactivateHitsDeleted | app/Services/RecurringPaymentService.php:82-125 | deactivating soft-deletes an unpaid payment; when it was the next one due, activating again fails on the unique index |
| RecurringService.DeleteRecurring | app/Services/RecurringPaymentService.php:93-99 | fails iff the schedule is missing; removes it and touches no account or transaction |
| RecurringService.DeleteRecurringKeepsPaid | app/Models/RecurringPayment.php:20-24 | paid payments and other schedules' payments survive unchanged; the schedule's unpaid payments are gone |
| RecurringService.Regenerate | app/Services/RecurringPaymentService.php:111-118 | an inactive schedule regenerates nothing |
| RecurringService.RegenerateIsGenerate | app/Services/RecurringPaymentService.php:111-118 | regeneration is generation with the default horizon |
| RecurringService.GetStatistics | app/Services/RecurringPaymentService.php:150 | the next due date is getNextDueDate's |
| RecurringService.CountIsPaymentCount | app/Services/RecurringPaymentService.php:145 | the statistics' total is the count hasEnded uses |
| RecurringService.StatisticsPartition | app/Services/RecurringPaymentService.php:144-149 | total = paid + unpaid, and paid plus pending amounts add up to the schedule's total amount |
| RecurringService.PendingIsAmountTimesCount | app/Services/RecurringPaymentService.php:147-149 | n unpaid payments of the same amount give pending = n x amount (5 x 100 = 500) |
| Accounts.CreateAccount | app/Services/AccountService.php:19-29 | one fresh account of the user with the upper-cased currency and balance = initial balance = the given balance, or 0 |
| Accounts.CreateAccountReconciled | app/Services/AccountService.php:19-29 | a new account is reconciled |
| Accounts.UpdateAccount | app/Services/AccountService.php:31-39 | fails iff the account is missing; only name and currency change, the balance is kept |
| Accounts.DeleteAccount | app/Services/AccountService.php:41-49 | fails iff the account is missing; removes exactly that account |
| Accounts.DeleteAccountCascades | app/Services/AccountService.php:43-48 | the account's transactions, payments and schedules go, its payments to the soft-deleted rows unchanged; every other row is kept unchanged |
| Accounts.DeleteAccountOrphansTransferLeg | app/Services/AccountService.php:44 | a transfer leg on another account survives with a dangling link |
| Accounts.ParseOperation | app/Services/AccountService.php:53-56 | only add, increment, subtract and decrement are operations |
| Accounts.AdjustAccountBalance | app/Services/AccountService.php:51-58 | add/increment adds, subtract/decrement subtracts, anything else is an invalid operation with no write |
| Accounts.AddThenSubtract | app/Services/AccountService.php:51-58 | adding and then subtracting the same amount gives back the store |
| Accounts.RecalculateAllBelowAt | app/Services/AccountService.php:65-68 | each of the user's accounts gets its recalculated balance; other accounts are untouched |
| Accounts.RecalculateAll | app/Services/AccountService.php:65-68 | recalculating all accounts changes balances only |
| Accounts.RecalculateAllReconciles | app/Services/AccountService.php:65-68 | afterwards every account of the user is reconciled and other users' accounts are unchanged |
| Accounts.TotalBalanceSplits | app/Services/AccountService.php:70-79 | the total for one currency plus the total over the other currencies is the overall total; a falsy currency filters nothing |
| Accounts.TotalBalance | app/Services/AccountService.php:70-79 | function with no contract of its own; its split by currency is Accounts.TotalBalanceSplits |
| Reports.TransactionSummaryForPeriod | app/Services/TransactionService.php:224-242 | a non-negative row count; its net and its treatment of transfers are Reports.SummaryNetIsNetEffect and Reports.SummaryIgnoresTransfers |
| Reports.SummaryNetIsNetEffect | app/Services/TransactionService.php:224-242 | the period's net equals the sum of the rows' balance effects |
| Reports.SummaryIgnoresTransfers | app/Services/TransactionService.php:228-240 | a transfer row changes neither income, expenses nor net; it only adds to the count |
| Reports.GroupsBelowSpec | app/Services/TransactionService.php:248-256 | one group per category that has a categorised expense in the period, holding that category's total and count, in category order |
| Reports.Take | app/Services/TransactionService.php:258 | `take(n)` keeps the first n items, or for negative n the last -n |
| Reports.SortedGroups | app/Services/TransactionService.php:257 | sorting by total keeps exactly the groups, without duplicates, in descending order |
| Reports.CategorySpendingGroups | app/Services/TransactionService.php:244-260 | every result is a real category group, totals descend, and no category repeats |
| Reports.CategorySpendingTop | app/Services/TransactionService.php:257-258 | a category left out by the limit spent no more than any category kept |
| Reports.CategorySpendingComplete | app/Services/TransactionService.php:244-260 | with a limit as large as the number of groups, every category with spending is listed |
| Reports.CategorySpending | app/Services/TransactionService.php:258 | at most `limit` groups |
| Sorting.SortBySorts | app/Services/TransactionService.php:257 | insertion sort orders by key and keeps exactly the input's elements |
| Periods.CurrentPeriod | app/Services/FinancialPeriodService.php:12-39 | with no reset day: the calendar month around today; with today on or after the reset day: the period starts on this month's reset day |
| Periods.NextPeriod | app/Services/FinancialPeriodService.php:44-61 | with no reset day: a later calendar month; with one: it starts after the current period ends |
| Periods.NextPeriodFollows | app/Services/FinancialPeriodService.php:53-54 | the next period starts the day after the current period ends |
| Periods.CurrentPeriodWithoutOverflow | app/Services/FinancialPeriodService.php:25-32 | for reset days and today up to the 28th, the code as written agrees with the corrected resolver |
| Periods.CurrentPeriodMissesToday | app/Services/FinancialPeriodService.php:29-32 | on 1 March 2025 with reset day 30, the current period as written is 2 to 29 March, which excludes today |
| Periods.CurrentPeriodSpansTwoMonths | app/Services/FinancialPeriodService.php:25-28 | on 31 January 2025 with reset day 15, the period as written runs to 14 March |
| Periods.NextPeriodSkipsMonth | app/Services/FinancialPeriodService.php:46-50 | on 31 January 2025 with no reset day, the next period as written is March |
| Periods.CurrentPeriodFixed | app/Services/FinancialPeriodService.php:12-39 | the corrected resolver's current period always contains today |
| Periods.CurrentPeriodFixedSpansResetDays | app/Services/FinancialPeriodService.php:25-32 | the corrected period runs from a (clamped) reset day to the day before the next month's reset day, starting this month or the previous one |
| Periods.AfterEndOfMonth | app/Services/FinancialPeriodService.php:48 | the day after a month's end is the first of the next month |
| Periods.NextPeriodFixed | app/Services/FinancialPeriodService.php:44-61 | the corrected next period starts after the corrected current period ends |
| Periods.NextPeriodFixedIsCurrentThen | app/Services/FinancialPeriodService.php:44-61 | the corrected next period starts the day after the current one ends, and is the current period as of its own start |
| Periods.IsInCurrentPeriodFixedInclusive | app/Services/FinancialPeriodService.php:66-71 | membership includes both ends and today |
| Currency.Extract | app/Services/CurrencyService.php:101-112 | a quote is found iff the response holds response[from][to], and it is that value |
| Currency.FetchRate | app/Services/CurrencyService.php:79-113 | the fallback endpoint is asked only when the primary gives no response; a missing quote is a failure |
| Currency.Round6 | app/Models/CurrencyExchangeRate.php:16-22 | the decimal:6 cast: within half a millionth of the rate, with at most six decimals |
| Currency.Round6Idempotent | app/Models/CurrencyExchangeRate.php:16-22 | a rounded rate is read back unchanged |
| Currency.Round6Example | app/Models/CurrencyExchangeRate.php:16-22 | 1.23456789 is read back as 1.234568 |
| Currency.Upsert | app/Services/CurrencyService.php:62-73 | updateOrCreate: the key's row holds the rounded rate; it is stamped today when new or changed and keeps its stamp when the rounded rate is unchanged; other rows are kept |
| Currency.GetRate | app/Services/CurrencyService.php:25-74 | at most two fetches; the cache gains at most the (from, to, date) row |
| Currency.GetRateSameCurrency | app/Services/CurrencyService.php:28-34 | codes equal up to case give 1.0 with no cache read, fetch or write |
| Currency.GetRateFetchesOnlyOnMiss | app/Services/CurrencyService.php:40-87 | a fetch happens iff the codes differ and there is no row updated today; a second fetch iff the primary failed; a hit writes nothing |
| Currency.GetRateFreshHit | app/Services/CurrencyService.php:45-47 | a row updated today is returned as is |
| Currency.GetRateStaleFallback | app/Services/CurrencyService.php:52-59 | when the fetch fails: the stale row's rate if there is one, else null, with no write |
| Currency.MissingQuoteSkipsFallback | app/Services/CurrencyService.php:84-110 | a primary response without the quote is a failure that does not try the fallback |
| Currency.GetRateUpserts | app/Services/CurrencyService.php:62-73 | a fetched rate is returned unrounded and stored rounded to six decimals under (from, to, date); the row is stamped today unless it already held that rounded rate, when it is left as it was and is not a fresh hit; other rows are kept |
| Currency.SecondCallHitsCache | app/Services/CurrencyService.php:40-73 | an immediate second call fetches nothing iff the first needed no fetch or saved a new or changed rounded rate; it then returns the first call's rate, rounded if it was fetched |
| Currency.GetRateIgnoresCase | app/Services/CurrencyService.php:28-29 | upper- and lower-case codes give the same result |
| Currency.Convert | app/Services/CurrencyService.php:141-150 | null iff getRate gives null; otherwise amount x rate |
| Dashboard.UpcomingPaymentsForPeriod | app/Services/DashboardService.php:50-58 | at most one entry per id; which payments it lists and in what order is Dashboard.UpcomingPaymentsForPeriodSpec |
| Dashboard.UpcomingPaymentsForPeriodSpec | app/Services/DashboardService.php:50-58 | exactly the user's unpaid payments due in [start, end], ordered by due date |
| Dashboard.GetDashboardData | app/Services/DashboardService.php:17-48 | fails iff generation fails; generation only adds fresh payments; balance after planned + total due = total balance |
| Dashboard.DashboardSpec | app/Services/DashboardService.php:23-34 | the upcoming list is read after generation and holds the generated payments; the balance after planned payments is the total less the unpaid expenses due in the period |
| Dashboard.FinancialOverview | app/Services/DashboardService.php:71-106 | a non-negative overdue count; the projection and the count are Dashboard.FinancialOverviewSpec |
| Dashboard.FinancialOverviewSpec | app/Services/DashboardService.php:71-106 | projected net = income - expenses over unpaid payments from today to the period's end; the overdue count is the overdue list's length |
| Dashboard.MonthBackZero | app/Services/DashboardService.php:116-118 | going back 0 months is today |
| Dashboard.MonthlyTrend | app/Services/DashboardService.php:112-132 | as written: `months` entries, oldest first, each the summary of the month `subMonths(i)` falls in, the last in the current month |
| Dashboard.MonthlyTrendRepeatsMonth | app/Services/DashboardService.php:116-118 | on 31 March 2025, one month back overflows into March, so March appears twice |
| Dashboard.MonthlyTrendFixed | app/Services/DashboardService.php:112-132 | corrected: `months` entries for consecutive calendar months ending with the current one, each its own month's summary |
| Dashboard.GroupByDueSpec | app/Services/DashboardService.php:146 | grouping by due date puts each listed payment in exactly its due date's group, with no empty group |
| Dashboard.CalendarGroups | app/Services/DashboardService.php:140-146 | the calendar's groups hold exactly the user's unpaid payments due in the window, under their due dates |
| Dashboard.UpcomingCalendar | app/Services/DashboardService.php:134-147 | fails iff generation up to today + daysAhead fails; generation only adds fresh payments |
| Dashboard.UpcomingCalendarSpec | app/Services/DashboardService.php:136-146 | after generation, the calendar groups exactly the unpaid payments due in [today, today + daysAhead] by due date |
| Requests.ActingUser | app/Rules/BelongsToUser.php:22 | an explicit user id takes precedence over the authenticated one |
| Requests.BelongsToUser | app/Rules/BelongsToUser.php:16-43 | null passes; no user (or user 0) fails; otherwise passes iff the referenced row exists and its owner is the acting user |
| Requests.ExplicitUserWins | app/Rules/BelongsToUser.php:22 | with an explicit user the authenticated one is irrelevant |
| Requests.BelongsToUserIsOwnsAccount | app/Rules/BelongsToUser.php:31-41 | on accounts the rule passes iff the account is the user's, the ownership the services check |
| Requests.AmountCents | app/Http/Requests/TransferRequest.php:32 | an amount of at least 0.01 is at least one cent |
| Requests.UpperField | app/Http/Requests/TransactionStoreRequest.php:44-48 | upper-casing a present field keeps its length and leaves no lower-case letter; an absent field stays absent |
| Requests.UpperFieldIdempotent | app/Http/Requests/TransactionStoreRequest.php:44-48 | upper-casing twice is upper-casing once |
| Requests.ParseInterval | app/Enums/IntervalType.php:7-10 | a parsed interval type is the one the string names; that every name parses is Requests.ParseIntervalInverse |
| Requests.ParseIntervalInverse | app/Enums/IntervalType.php:7-10 | a string is an interval type iff it is one of the four enum values, and it parses to that value |
| Requests.ParseTransactionType | database/migrations/2025_12_05_172718_create_transactions_table.php:20 | a parsed type is the one the string names; that every name parses is Requests.ParseTransactionTypeInverse |
| Requests.ParseTransactionTypeInverse | database/migrations/2025_12_05_172718_create_transactions_table.php:20 | a string is a transaction type iff it is income, expense or transfer, and it parses to that value |
| Requests.ValidateTransfer | app/Http/Requests/TransferRequest.php:16-37 | never forbidden; accepted iff the transfer rules hold |
| Requests.ValidTransferNeedsOnlyARate | app/Http/Requests/TransferRequest.php:19-33 | an accepted transfer names two distinct accounts of the user, at least a cent and a positive rate if any; the service can then fail only for a missing rate, and cannot fail when a rate was given |
| Requests.PrepareRecurring | app/Http/Requests/RecurringPaymentStoreRequest.php:46-57 | only the currency is upper-cased and is_active defaulted to true |
| Requests.PrepareRecurringIdempotent | app/Http/Requests/RecurringPaymentStoreRequest.php:46-57 | preparing twice is preparing once |
| Requests.ValidateRecurring | app/Http/Requests/RecurringPaymentStoreRequest.php:19-57 | accepted iff the rules hold on the prepared request |
| Requests.ValidRecurringIsWellFormed | app/Http/Requests/RecurringPaymentStoreRequest.php:22-56 | an accepted schedule: interval_value >= 1; amount at least a cent; end date not before the start date; installments >= 1; currency of three upper-case characters; account and category the user's; active by default |
| Requests.PrepareTransaction | app/Http/Requests/TransactionStoreRequest.php:42-49 | only the currency is upper-cased |
| Requests.ValidateTransactionStore | app/Http/Requests/TransactionStoreRequest.php:19-49 | accepted iff the rules hold on the prepared request |
| Requests.ValidTransactionIsCreated | app/Http/Requests/TransactionStoreRequest.php:22-38 | an accepted transaction is created without error; its category is the user's, its amount at least a cent, its currency three upper-case characters |
| Requests.TransactionStoreIgnoresCurrencyCase | app/Http/Requests/TransactionStoreRequest.php:36-48 | a currency differing only in case gets the same verdict |
| Requests.ValidateTransactionUpdate | app/Http/Requests/TransactionUpdateRequest.php:14-49 | forbidden iff the policy denies; accepted iff it allows and the rules hold; what an accepted request writes is Requests.ValidUpdateRewrites |
| Requests.ValidUpdateRewrites | app/Services/TransactionService.php:66-89 | an accepted update writes the sent account, type, amount, upper-cased currency and date; a sent category or description replaces the old one, and a null one keeps it |
| Requests.ValidUpdateTargetsOwnAccount | app/Http/Requests/TransactionUpdateRequest.php:22-27 | an accepted update targets one of the user's accounts; the service fails only if the old account is gone, and the row keeps its owner |
| Requests.ValidatePayment | app/Http/Requests/PaymentStoreRequest.php:17-46 | accepted iff the rules hold on the upper-cased request |
| Requests.ValidPaymentTypedByCategory | app/Http/Requests/PaymentStoreRequest.php:19-36 | an accepted manual payment's type is its category's, its amount at least a cent, its currency three characters |
| CategoryIcons.DropLeadingDash | resources/js/lib/categoryIcons.ts:8 | at most one leading '-' is removed |
| CategoryIcons.KebabPiece | resources/js/lib/categoryIcons.ts:6-7 | a capital becomes '-' and its lower case; a digit gets a '-' in front |
| CategoryIcons.Dashed | resources/js/lib/categoryIcons.ts:6-7 | the dashed name has no capital letter |
| CategoryIcons.TwoPassesAreOne | resources/js/lib/categoryIcons.ts:6-7 | the two regular-expression passes act as one character-by-character pass |
| CategoryIcons.UndashDashed | resources/js/lib/categoryIcons.ts:6-7 | on a name without '-', dashing loses nothing: reading it back gives the name |
| CategoryIcons.KebabRoundTrip | resources/js/lib/categoryIcons.ts:4-9 | a PascalCase name comes back from its kebab-case form, which is not empty |
| CategoryIcons.KebabInjective | resources/js/lib/categoryIcons.ts:4-24 | two PascalCase names never share a kebab-case key |
| CategoryIcons.KebabIsLowerCase | resources/js/lib/categoryIcons.ts:4-9 | kebab-case keys have no capital letter |
| CategoryIcons.ZapKebab | resources/js/lib/categoryIcons.ts:4-27 | "Zap" becomes "zap", the default key |
| CategoryIcons.ClockKebab | resources/js/lib/categoryIcons.ts:4-9 | "Clock3" becomes "clock-3" |
| CategoryIcons.IconMap | resources/js/lib/categoryIcons.ts:22-24 | every icon's kebab name is a key |
| CategoryIcons.IconMapAt | resources/js/lib/categoryIcons.ts:11-24 | with distinct PascalCase names, each icon is stored under its own kebab name |
| CategoryIcons.DefaultIcon | resources/js/lib/categoryIcons.ts:18-27 | there is a default icon iff the library has any icon; without "zap" it is the icon whose kebab name comes first (CategoryIcons.DefaultIconIsFirstSorted) |
| CategoryIcons.NameLessTotal | resources/js/lib/categoryIcons.ts:18-20 | the name order used for sorting is total |
| CategoryIcons.NameLessTransitive | resources/js/lib/categoryIcons.ts:18-20 | the name order used for sorting is transitive |
| CategoryIcons.LeastName | resources/js/lib/categoryIcons.ts:18-20 | the first name after sorting is the kebab name of some icon |
| CategoryIcons.LeastNameIsLeast | resources/js/lib/categoryIcons.ts:18-20 | no kebab name sorts before it |
| CategoryIcons.DefaultIconIsFirstSorted | resources/js/lib/categoryIcons.ts:18-27 | without a "zap" icon, the default is the icon that sorts first by kebab name, since the list is sorted in place before the map is built |
| CategoryIcons.GetCategoryIcon | resources/js/lib/categoryIcons.ts:29-34 | null for a null or empty name; the default for an unknown name; null only then or when there are no icons |
| CategoryIcons.EveryIconReachable | resources/js/lib/categoryIcons.ts:22-33 | every icon is found by its kebab-case name |
| CategoryIcons.UnknownNameIsZap | resources/js/lib/categoryIcons.ts:26-33 | an unknown name gives the Zap icon when the library has one |
| Initials.Split | resources/js/lib/utils.ts:51 | splitting gives at least one piece |
| Initials.JoinSplit | resources/js/lib/utils.ts:51 | splitting on ' ' loses nothing: joining the pieces back gives the name |
| Initials.SplitPiecesHaveNoSpace | resources/js/lib/utils.ts:51 | no piece contains a space |
| Initials.FirstChars | resources/js/lib/utils.ts:52-53 | at most one character per piece |
| Initials.GetInitials | resources/js/lib/utils.ts:49-56 | at most two characters, none lower-case |
| Initials.FirstCharsAreWordStarts | resources/js/lib/utils.ts:51-53 | the first characters of the pieces are exactly the characters that start a word; empty pieces add nothing |
| Initials.InitialsAreWordStarts | resources/js/lib/utils.ts:49-56 | the initials are the first two word starts, upper-cased, in order |
| Initials.InitialsOfThreeWords | resources/js/lib/utils.ts:49-56 | "Jo Ann Li" gives "JA" |
| Initials.InitialsSkipSpaces | resources/js/lib/utils.ts:49-56 | " x  y" gives "XY": leading and repeated spaces add nothing |

## Left out

- Transfers.CreateTransfer: the incoming leg is amount x rate rounded half up to the cent (`Records.ToCents`). The column and balance are two-decimal, so the rounding the database applies is modelled. Float error and the six-decimal rounding of the stored rate are not.
- Projector.GenerateAll: the source aborts on the first schedule that throws, and no database transaction wraps the loop, so the payments created for the schedules before it stay written. The model returns the error for the whole call and does not keep those payments.
- RecurringService.Regenerate: likewise, a throw part-way through regeneration keeps the payments already created in the source; the model returns the error alone.
- Projector.Generate: the payments created before a duplicate due date is hit are not kept either, as above; inside updateRecurringPayment and markAsPaid the surrounding database transaction rolls them back, as the model does.
- Projector.Generate, Settlement.MarkAsPaid, Dashboard.GetDashboardData and the others that take `IdsBelow`, `IntervalsPositive`, `RefsBelow` or `CategoryRefsBelow` as a precondition: these are store invariants that the database's auto-increment keys and the request validators maintain. `interval_value >= 1` is enforced by validation (app/Http/Requests/RecurringPaymentStoreRequest.php:38), not by the service.
- Settlement.MarkAsUnpaid: the balance is reverted by the payment's own amount and type, as the source does. It is not reverted by the linked transaction's amount; the two agree unless the transaction was edited after settling.
- Requests.ValidateTransactionUpdate: TransactionPolicy is not part of this model. The policy is taken to allow the transaction's owner only (`Requests.MayUpdate`), like the recurring-payment policy.
- Dashboard.GetDashboardData, Dashboard.FinancialOverview: `User::getFinancialPeriod` is not part of this model, so the period is a parameter. The accounts list and `getAccountsByCurrency` (the by-currency breakdown) are not modelled.
- Dashboard.UpcomingCalendar: `daysAhead` is a natural number. A negative value would give an empty window.
- Currency.FetchRate: the HTTP requests, the 5-second timeout and logging are an input (`Currency.Network`). The request URL does not contain the date, although the cache is keyed by it. The model reflects this: the same responses serve every date.
- PHP falsiness: a user id of 0 counts as "no user" in `BelongsToUser`, and an installment cap of 0 as "no cap" in `hasEnded`. Both are modelled. Other loose PHP comparisons and float casts are not.
- Soft deletes: a soft-deleted row is removed from its live map. Soft-deleted payments are kept in `trashed`, because the unique index sees them; other soft-deleted rows are dropped, and the `exists`-style validation in the source, which still sees them, does not in the model. Restoring a soft-deleted row is not modelled.
- Ordering ties: rows with equal due dates, or categories with equal spending totals, are ordered by id in the model. The source orders them by `created_at` or leaves the order to the database.
- Requests: validation error messages, the `name` and `description` length limits beyond their predicates, and an `is_active` field that is present but null are not modelled. Dates arrive already parsed.
- CategoryService (plain CRUD), `getPaymentsForUser`, `getAccountsForUser`, controllers, routes, middleware and policies other than the assumed transaction policy: framework wiring.
- CategoryIcons: the icon library's exports are a parameter. JavaScript object keys such as `constructor` that an object literal inherits are not modelled. `localeCompare` is taken as code-point order, which agrees with the root collation on the letters, digits and '-' of kebab names.
- CategoryIcons.IconMap: built from the icons in library order, while the source builds it from the list after sorting. With distinct kebab names (`CategoryIcons.KebabInjective`) the two maps hold the same entries; only `Object.values` order differs, and `CategoryIcons.DefaultIcon` takes the sorted order into account.
- Currency.Round6: rounds half up, which is what the decimal cast does for the non-negative rates the endpoints return; negative rates are not considered.
- Initials.GetInitials: upper-casing is ASCII only. Unicode case mapping and UTF-16 surrogate pairs are not modelled.
- Front-end formatting (`cn`, `formatCurrency`, `formatDate`, `formatDateRelative`, `debounce`): these rely on Intl, time zones, floats and timers.

## Findings

| source | as written | input that shows it | evidently intended | confidence | as-written member | corrected member |
|---|---|---|---|---|---|---|
| app/Services/FinancialPeriodService.php:29-32 | before the reset day, the start is `subMonth()->day(reset)`, which overflows when the previous month is short | reset day 30 on 1 March 2025: the period is 2 to 29 March and excludes today | a period from the previous month's reset day (clamped to its length) that contains today | not executed | Periods.CurrentPeriodMissesToday | Periods.CurrentPeriodFixed |
| app/Services/FinancialPeriodService.php:27-28 | the end is `addMonth()->day(reset)->subDay()`, and `addMonth` overflows from a long month | reset day 15 on 31 January 2025: the period runs from 15 January to 14 March | the period ends the day before next month's reset day | not executed | Periods.CurrentPeriodSpansTwoMonths | Periods.CurrentPeriodFixedSpansResetDays |
| app/Services/FinancialPeriodService.php:46-50 | with no reset day, the next period is `addMonth()->startOfMonth()`, which overflows from a long month | 31 January 2025: the next period is March | the calendar month after the current one | not executed | Periods.NextPeriodSkipsMonth | Periods.NextPeriodFixedIsCurrentThen |
| app/Services/PaymentService.php:107-122 | the existence check sees live payments only, but the unique (schedule, due date) index also covers soft-deleted ones, so `create` throws on a date a soft-deleted payment holds | monthly rent from 1 January 2025, January paid; deactivated and activated again on 20 January: 1 February is held by the soft-deleted payment | re-activation regenerates the deleted dates, as with an index over live rows only | not executed | Projector.RentReactivationFails | Projector.GenerateFixedUnique |
| app/Services/DashboardService.php:116-118 | each trend month is `subMonths(i)->startOfMonth()`, which overflows near a month's end | 31 March 2025: one month back is 3 March, so March is listed twice and February is missing | the `months` consecutive calendar months ending with the current one | not executed | Dashboard.MonthlyTrendRepeatsMonth | Dashboard.MonthlyTrendFixed |
