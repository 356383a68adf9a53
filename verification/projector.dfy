/** The schedule projector: PaymentService::generatePaymentsForRecurringPayment and
    generateAllPaymentsForUser. Starting at the schedule's next due date it walks
    forward one interval at a time and materialises an unpaid Payment for every
    candidate date up to the horizon, stopping at the end date and at the
    installment cap, and skipping dates that already have a payment. */
module Projector {
  import opened Base
  import opened Calendar
  import opened Tables
  import opened Records
  import opened RecurringModel

  /** DEFAULT_MONTHS_AHEAD: the horizon when the caller gives none. */
  const MonthsAhead: int := 12

  /** getPaymentTypeFromCategory. */
  function PaymentTypeFromCategory(c: Category): (r: PaymentType)
    ensures r == PaymentType.Income <==> c.kind == CategoryType.Income
    ensures r == PaymentType.Expense <==> c.kind == CategoryType.Expense
  {
    match c.kind
    case Income => PaymentType.Income
    case Expense => PaymentType.Expense
  }

  /** The exists() check: does the schedule already have a payment due on d? */
  predicate HasDueDate(payments: map<Id, Payment>, rid: Id, d: Date) {
    exists k :: k in payments && payments[k].recurringId == Some(rid) && payments[k].dueDate == d
  }

  /** Every payment of the schedule is due strictly before d. */
  ghost predicate AllBefore(payments: map<Id, Payment>, rid: Id, d: Date) {
    forall k :: k in payments && payments[k].recurringId == Some(rid) ==> Before(payments[k].dueDate, d)
  }

  /** The unique (recurring_payment_id, due_date) constraint of the payments table. */
  ghost predicate DueDatesUnique(payments: map<Id, Payment>) {
    forall j, k :: j in payments && k in payments && j != k
                   && payments[j].recurringId.Some? && payments[j].recurringId == payments[k].recurringId
                   ==> payments[j].dueDate != payments[k].dueDate
  }

  /** The row the loop body creates for candidate date d. */
  function ScheduledPayment(rp: RecurringPayment, rid: Id, kind: PaymentType, d: Date): Payment {
    Payment(rp.owner, rp.accountId, rp.categoryId, Some(rid), kind, rp.amount, rp.currency,
            Some(rp.name), d, false, None, None)
  }

  /** A generated payment: an unpaid copy of the schedule's terms, with the
      schedule's name as description and the given type. */
  ghost predicate IsGenerated(p: Payment, rp: RecurringPayment, rid: Id, kind: PaymentType) {
    && p.owner == rp.owner && p.accountId == rp.accountId && p.categoryId == rp.categoryId
    && p.recurringId == Some(rid) && p.kind == kind && p.amount == rp.amount
    && p.currency == rp.currency && p.description == Some(rp.name)
    && !p.isPaid && p.paidAt.None? && p.transactionId.None?
  }

  /** A generated payment's due date lies in the window the loop admits. */
  ghost predicate InWindow(d: Date, rp: RecurringPayment, from: Date, until: Date) {
    NotAfter(from, d) && NotAfter(d, until) && (rp.endDate.Some? ==> NotAfter(d, rp.endDate.value))
  }

  /** The loop's exits: past the horizon, past the end date, or the cap reached. */
  predicate Halts(rp: RecurringPayment, d: Date, count: int, until: Date) {
    || !NotAfter(d, until)
    || (rp.endDate.Some? && Before(rp.endDate.value, d))
    || (Capped(rp) && count >= rp.installments.value)
  }

  /** The ids a call hands out: n, n + 1, ... */
  ghost predicate FreshRun(ids: seq<Id>, n: nat) {
    forall i :: 0 <= i < |ids| ==> ids[i] == n + i
  }

  /** m2 keeps every row of m1 unchanged and adds rows only at ids from n on. */
  ghost predicate Grows(m1: map<Id, Payment>, m2: map<Id, Payment>, n: nat) {
    && (forall k :: k in m1 ==> k in m2 && m2[k] == m1[k])
    && (forall k :: k in m2 && k !in m1 ==> n <= k)
  }

  /** The while loop over the payments table (ids below n in use), from candidate
      `cand` with `count` payments of the schedule so far. */
  function GenLoop(payments: map<Id, Payment>, n: nat, rp: RecurringPayment, rid: Id, kind: PaymentType,
                   until: Date, cand: Date, count: int): (r: (map<Id, Payment>, seq<Id>))
    requires rp.intervalValue >= 1
    ensures payments.Keys <= r.0.Keys
    ensures forall i :: 0 <= i < |r.1| ==> r.1[i] in r.0
    decreases Rank(until) - Rank(cand)
  {
    if Halts(rp, cand, count, until) then (payments, [])
    else
      var next := CalculateNextDate(rp, cand);
      if HasDueDate(payments, rid, cand) then GenLoop(payments, n, rp, rid, kind, until, next, count)
      else
        var rest := GenLoop(payments[n := ScheduledPayment(rp, rid, kind, cand)], n + 1, rp, rid, kind, until, next, count + 1);
        var ids := [n] + rest.1;
        assert forall i :: 1 <= i < |ids| ==> ids[i] == rest.1[i - 1];
        (rest.0, ids)
  }

  /** The loop only adds rows, under the fresh ids n, n + 1, ... it returns, and
      returns no id when it adds nothing. */
  lemma {:induction false} GenLoopFrame(payments: map<Id, Payment>, n: nat, rp: RecurringPayment, rid: Id,
                                        kind: PaymentType, until: Date, cand: Date, count: int)
    requires KeysBelow(payments, n) && rp.intervalValue >= 1
    ensures var r := GenLoop(payments, n, rp, rid, kind, until, cand, count);
      && KeysBelow(r.0, n + |r.1|) && Grows(payments, r.0, n)
      && FreshRun(r.1, n)
      && (|r.1| == 0 ==> r.0 == payments)
    decreases Rank(until) - Rank(cand)
  {
    if !Halts(rp, cand, count, until) {
      var next := CalculateNextDate(rp, cand);
      if HasDueDate(payments, rid, cand) {
        GenLoopFrame(payments, n, rp, rid, kind, until, next, count);
      } else {
        var m := payments[n := ScheduledPayment(rp, rid, kind, cand)];
        GenLoopFrame(m, n + 1, rp, rid, kind, until, next, count + 1);
        var rest := GenLoop(m, n + 1, rp, rid, kind, until, next, count + 1);
        var ids := [n] + rest.1;
        assert forall i :: 1 <= i < |ids| ==> ids[i] == rest.1[i - 1];
      }
    }
  }

  /** Every payment the loop creates is a generated copy of the schedule, due
      no earlier than the first candidate, no later than the horizon and, when the
      schedule has one, no later than the end date. */
  lemma {:induction false} GenLoopCreates(payments: map<Id, Payment>, n: nat, rp: RecurringPayment, rid: Id,
                                          kind: PaymentType, until: Date, cand: Date, count: int)
    requires KeysBelow(payments, n) && rp.intervalValue >= 1
    ensures var r := GenLoop(payments, n, rp, rid, kind, until, cand, count);
      forall k :: k in r.0 && k !in payments ==>
        IsGenerated(r.0[k], rp, rid, kind) && InWindow(r.0[k].dueDate, rp, cand, until)
    decreases Rank(until) - Rank(cand)
  {
    if !Halts(rp, cand, count, until) {
      var next := CalculateNextDate(rp, cand);
      if HasDueDate(payments, rid, cand) {
        GenLoopCreates(payments, n, rp, rid, kind, until, next, count);
      } else {
        var m := payments[n := ScheduledPayment(rp, rid, kind, cand)];
        GenLoopFrame(m, n + 1, rp, rid, kind, until, next, count + 1);
        GenLoopCreates(m, n + 1, rp, rid, kind, until, next, count + 1);
      }
    }
  }

  /** The loop keeps the running count equal to the schedule's payment count. */
  lemma GenLoopCount(payments: map<Id, Payment>, n: nat, rp: RecurringPayment, rid: Id,
                     kind: PaymentType, until: Date, cand: Date, count: int)
    requires KeysBelow(payments, n) && rp.intervalValue >= 1
    requires count == CountOfBelow(payments, rid, n)
    ensures var r := GenLoop(payments, n, rp, rid, kind, until, cand, count);
      CountOfBelow(r.0, rid, n + |r.1|) == count + |r.1|
  {
    var r := GenLoop(payments, n, rp, rid, kind, until, cand, count);
    GenLoopFrame(payments, n, rp, rid, kind, until, cand, count);
    GenLoopCreates(payments, n, rp, rid, kind, until, cand, count);
    forall k | n <= k < n + |r.1|
      ensures k in r.0 && r.0[k].recurringId == Some(rid)
    {
      assert r.1[k - n] == k;
    }
    CountOfExtend(payments, r.0, rid, n, |r.1|);
  }

  /** The loop never pushes the running count past the installment cap. */
  lemma {:induction false} GenLoopCap(payments: map<Id, Payment>, n: nat, rp: RecurringPayment, rid: Id,
                                      kind: PaymentType, until: Date, cand: Date, count: int)
    requires KeysBelow(payments, n) && rp.intervalValue >= 1
    requires Capped(rp)
    ensures var r := GenLoop(payments, n, rp, rid, kind, until, cand, count);
      && (count >= rp.installments.value ==> |r.1| == 0)
      && (count <= rp.installments.value ==> count + |r.1| <= rp.installments.value)
    decreases Rank(until) - Rank(cand)
  {
    if !Halts(rp, cand, count, until) {
      var next := CalculateNextDate(rp, cand);
      if HasDueDate(payments, rid, cand) {
        GenLoopCap(payments, n, rp, rid, kind, until, next, count);
      } else {
        GenLoopCap(payments[n := ScheduledPayment(rp, rid, kind, cand)], n + 1, rp, rid, kind, until, next, count + 1);
      }
    }
  }

  /** The loop never gives a schedule two payments due on the same date. */
  lemma {:induction false} GenLoopUnique(payments: map<Id, Payment>, n: nat, rp: RecurringPayment, rid: Id,
                                         kind: PaymentType, until: Date, cand: Date, count: int)
    requires KeysBelow(payments, n) && rp.intervalValue >= 1
    ensures DueDatesUnique(payments) ==> DueDatesUnique(GenLoop(payments, n, rp, rid, kind, until, cand, count).0)
    decreases Rank(until) - Rank(cand)
  {
    if !Halts(rp, cand, count, until) {
      var next := CalculateNextDate(rp, cand);
      if HasDueDate(payments, rid, cand) {
        GenLoopUnique(payments, n, rp, rid, kind, until, next, count);
      } else {
        var m := payments[n := ScheduledPayment(rp, rid, kind, cand)];
        assert DueDatesUnique(payments) ==> DueDatesUnique(m);
        GenLoopUnique(m, n + 1, rp, rid, kind, until, next, count + 1);
      }
    }
  }

  /** The generator's first candidate (getNextDueDate). */
  function FirstCandidate(s: Store, rid: Id): Date
    requires rid in s.recurring
  {
    GetNextDueDate(s.recurring[rid], LatestDueDate(s, rid))
  }

  /** The horizon: the caller's `until`, else MonthsAhead months after today. */
  function Horizon(until: Option<Date>, today: Date): Date {
    until.GetOr(AddMonths(today, MonthsAhead))
  }

  /** Some row `after` adds to `before` is due on a date that a soft-deleted
      payment of the schedule holds in the unique index. */
  predicate Collides(trashed: map<Id, Payment>, rid: Id, before: map<Id, Payment>, after: map<Id, Payment>) {
    exists k :: k in after && k !in before && HasDueDate(trashed, rid, after[k].dueDate)
  }

  /** The unique (recurring_payment_id, due_date) index over every payment row,
      live or soft-deleted. */
  ghost predicate IndexUnique(s: Store) {
    && DueDatesUnique(s.payments)
    && DueDatesUnique(s.trashed)
    && forall k :: k in s.payments && s.payments[k].recurringId.Some? ==>
         !HasDueDate(s.trashed, s.payments[k].recurringId.value, s.payments[k].dueDate)
  }

  /** generatePaymentsForRecurringPayment(rp, until) with an index that covers
      live rows only: the new store and the ids of the payments created. The
      `exists()` check and the index then agree, so no insert is rejected. */
  function GenerateFixed(s: Store, rid: Id, until: Option<Date>, today: Date): (r: Result<(Store, seq<Id>)>)
    requires IdsBelow(s)
    requires rid in s.recurring && s.recurring[rid].intervalValue >= 1
    ensures !s.recurring[rid].isActive || HasEnded(s.recurring[rid], PaymentCount(s, rid), today) ==> r == Ok((s, []))
    ensures r.Err? <==> s.recurring[rid].isActive && !HasEnded(s.recurring[rid], PaymentCount(s, rid), today)
                        && s.recurring[rid].categoryId !in s.categories
    ensures r.Err? ==> r.error == NotFound
    ensures r.Ok? ==> IdsBelow(r.value.0) && PaymentsExtended(s, r.value.0)
    ensures r.Ok? ==> FreshRun(r.value.1, s.nextId) && r.value.0.nextId == s.nextId + |r.value.1|
    ensures r.Ok? ==> forall i :: 0 <= i < |r.value.1| ==> r.value.1[i] in r.value.0.payments
  {
    var rp := s.recurring[rid];
    var count := PaymentCount(s, rid);
    if !rp.isActive || HasEnded(rp, count, today) then Ok((s, []))
    else if rp.categoryId !in s.categories then Err(NotFound)
    else
      var kind := PaymentTypeFromCategory(s.categories[rp.categoryId]);
      GenLoopFrame(s.payments, s.nextId, rp, rid, kind, Horizon(until, today), FirstCandidate(s, rid), count);
      var g := GenLoop(s.payments, s.nextId, rp, rid, kind, Horizon(until, today), FirstCandidate(s, rid), count);
      Ok((s.(payments := g.0, nextId := s.nextId + |g.1|), g.1))
  }

  /** generatePaymentsForRecurringPayment(rp, until), as written: the `exists()`
      check sees live payments only, but the unique index also holds the
      soft-deleted ones, so inserting a date a soft-deleted payment of the
      schedule holds throws. The caller's transaction then rolls back. */
  function Generate(s: Store, rid: Id, until: Option<Date>, today: Date): (r: Result<(Store, seq<Id>)>)
    requires IdsBelow(s)
    requires rid in s.recurring && s.recurring[rid].intervalValue >= 1
    ensures !s.recurring[rid].isActive || HasEnded(s.recurring[rid], PaymentCount(s, rid), today) ==> r == Ok((s, []))
    ensures r == Err(NotFound) <==>
              s.recurring[rid].isActive && !HasEnded(s.recurring[rid], PaymentCount(s, rid), today)
              && s.recurring[rid].categoryId !in s.categories
    ensures r == Err(DuplicateDueDate) <==>
              GenerateFixed(s, rid, until, today).Ok?
              && Collides(s.trashed, rid, s.payments, GenerateFixed(s, rid, until, today).value.0.payments)
    ensures r.Err? ==> r.error == NotFound || r.error == DuplicateDueDate
    ensures r.Ok? ==> r == GenerateFixed(s, rid, until, today)
    ensures r.Ok? ==> forall k :: k in r.value.0.payments && k !in s.payments ==>
                        !HasDueDate(s.trashed, rid, r.value.0.payments[k].dueDate)
    ensures r.Ok? ==> IdsBelow(r.value.0) && PaymentsExtended(s, r.value.0)
    ensures r.Ok? ==> FreshRun(r.value.1, s.nextId) && r.value.0.nextId == s.nextId + |r.value.1|
    ensures r.Ok? ==> forall i :: 0 <= i < |r.value.1| ==> r.value.1[i] in r.value.0.payments
  {
    match GenerateFixed(s, rid, until, today)
    case Err(e) => Err(e)
    case Ok(g) => if Collides(s.trashed, rid, s.payments, g.0.payments) then Err(DuplicateDueDate) else Ok(g)
  }

  /** Every payment a call creates is an unpaid copy of the schedule's terms,
      typed by its category, due between the first candidate and the horizon and
      not after the end date. */
  lemma GenerateCreates(s: Store, rid: Id, until: Option<Date>, today: Date)
    requires IdsBelow(s)
    requires rid in s.recurring && s.recurring[rid].intervalValue >= 1
    requires Generate(s, rid, until, today).Ok?
    ensures var r := Generate(s, rid, until, today).value;
      forall k :: k in r.0.payments && k !in s.payments ==>
        && s.recurring[rid].categoryId in s.categories
        && IsGenerated(r.0.payments[k], s.recurring[rid], rid,
                       PaymentTypeFromCategory(s.categories[s.recurring[rid].categoryId]))
        && InWindow(r.0.payments[k].dueDate, s.recurring[rid], FirstCandidate(s, rid), Horizon(until, today))
  {
    var rp := s.recurring[rid];
    var count := PaymentCount(s, rid);
    if rp.isActive && !HasEnded(rp, count, today) {
      var kind := PaymentTypeFromCategory(s.categories[rp.categoryId]);
      GenLoopCreates(s.payments, s.nextId, rp, rid, kind, Horizon(until, today), FirstCandidate(s, rid), count);
    }
  }

  /** A call adds exactly as many payments to the schedule's count as it returns,
      and never takes the count past the installment cap. */
  lemma GenerateCount(s: Store, rid: Id, until: Option<Date>, today: Date)
    requires IdsBelow(s)
    requires rid in s.recurring && s.recurring[rid].intervalValue >= 1
    requires Generate(s, rid, until, today).Ok?
    ensures var r := Generate(s, rid, until, today).value;
      && PaymentCount(r.0, rid) == PaymentCount(s, rid) + |r.1|
      && (Capped(s.recurring[rid]) && PaymentCount(s, rid) <= s.recurring[rid].installments.value ==>
            PaymentCount(r.0, rid) <= s.recurring[rid].installments.value)
  {
    var rp := s.recurring[rid];
    var count := PaymentCount(s, rid);
    if rp.isActive && !HasEnded(rp, count, today) {
      var kind := PaymentTypeFromCategory(s.categories[rp.categoryId]);
      GenLoopCount(s.payments, s.nextId, rp, rid, kind, Horizon(until, today), FirstCandidate(s, rid), count);
      if Capped(rp) {
        GenLoopCap(s.payments, s.nextId, rp, rid, kind, Horizon(until, today), FirstCandidate(s, rid), count);
      }
    }
  }

  /** With the index over live rows only, a call keeps the (recurring payment,
      due date) pairs of the live payments unique. */
  lemma GenerateFixedUnique(s: Store, rid: Id, until: Option<Date>, today: Date)
    requires IdsBelow(s)
    requires rid in s.recurring && s.recurring[rid].intervalValue >= 1
    requires GenerateFixed(s, rid, until, today).Ok?
    requires DueDatesUnique(s.payments)
    ensures DueDatesUnique(GenerateFixed(s, rid, until, today).value.0.payments)
  {
    var rp := s.recurring[rid];
    var count := PaymentCount(s, rid);
    if rp.isActive && !HasEnded(rp, count, today) {
      var kind := PaymentTypeFromCategory(s.categories[rp.categoryId]);
      GenLoopUnique(s.payments, s.nextId, rp, rid, kind, Horizon(until, today), FirstCandidate(s, rid), count);
    }
  }

  /** A successful call keeps the unique (recurring payment, due date) index
      intact over live and soft-deleted payments alike. */
  lemma GenerateUnique(s: Store, rid: Id, until: Option<Date>, today: Date)
    requires IdsBelow(s)
    requires rid in s.recurring && s.recurring[rid].intervalValue >= 1
    requires Generate(s, rid, until, today).Ok?
    requires IndexUnique(s)
    ensures IndexUnique(Generate(s, rid, until, today).value.0)
  {
    var r := Generate(s, rid, until, today).value.0;
    GenerateFixedUnique(s, rid, until, today);
    GenerateCreates(s, rid, until, today);
    forall k | k in r.payments && r.payments[k].recurringId.Some?
      ensures !HasDueDate(r.trashed, r.payments[k].recurringId.value, r.payments[k].dueDate)
    {
      if k !in s.payments {
        assert r.payments[k].recurringId == Some(rid);
      }
    }
  }

  /** A schedule without soft-deleted payments is never rejected by the index:
      the call as written is the corrected one. */
  lemma GenerateWithoutTrashed(s: Store, rid: Id, until: Option<Date>, today: Date)
    requires IdsBelow(s)
    requires rid in s.recurring && s.recurring[rid].intervalValue >= 1
    requires forall k :: k in s.trashed ==> s.trashed[k].recurringId != Some(rid)
    ensures Generate(s, rid, until, today) == GenerateFixed(s, rid, until, today)
  {
  }

  /** A call rejected by the index names a soft-deleted payment of the schedule
      due between the first candidate and the horizon. */
  lemma GenerateDuplicateWitness(s: Store, rid: Id, until: Option<Date>, today: Date)
    requires IdsBelow(s)
    requires rid in s.recurring && s.recurring[rid].intervalValue >= 1
    requires Generate(s, rid, until, today) == Err(DuplicateDueDate)
    ensures exists k :: k in s.trashed && s.trashed[k].recurringId == Some(rid)
                        && NotAfter(FirstCandidate(s, rid), s.trashed[k].dueDate)
                        && NotAfter(s.trashed[k].dueDate, Horizon(until, today))
  {
    var rp := s.recurring[rid];
    var count := PaymentCount(s, rid);
    var kind := PaymentTypeFromCategory(s.categories[rp.categoryId]);
    var h := Horizon(until, today);
    GenLoopCreates(s.payments, s.nextId, rp, rid, kind, h, FirstCandidate(s, rid), count);
    var g := GenerateFixed(s, rid, until, today).value.0.payments;
    var k :| k in g && k !in s.payments && HasDueDate(s.trashed, rid, g[k].dueDate);
    assert InWindow(g[k].dueDate, rp, FirstCandidate(s, rid), h);
    var j :| j in s.trashed && s.trashed[j].recurringId == Some(rid) && s.trashed[j].dueDate == g[k].dueDate;
  }

  /** The rejection in practice: when the schedule's next due date is held by a
      soft-deleted payment (a deactivated schedule's deleted unpaid payment, or
      one deleted by hand) and the loop would create it, the call as written
      fails, while the corrected one creates a payment due on that date. */
  lemma GenerateHitsTrashed(s: Store, rid: Id, until: Option<Date>, today: Date)
    requires IdsBelow(s)
    requires rid in s.recurring && s.recurring[rid].intervalValue >= 1
    requires s.recurring[rid].isActive && !HasEnded(s.recurring[rid], PaymentCount(s, rid), today)
    requires s.recurring[rid].categoryId in s.categories
    requires !Halts(s.recurring[rid], FirstCandidate(s, rid), PaymentCount(s, rid), Horizon(until, today))
    requires HasDueDate(s.trashed, rid, FirstCandidate(s, rid))
    ensures Generate(s, rid, until, today) == Err(DuplicateDueDate)
    ensures var f := GenerateFixed(s, rid, until, today);
      f.Ok? && |f.value.1| > 0 && f.value.0.payments[f.value.1[0]].dueDate == FirstCandidate(s, rid)
  {
    var rp := s.recurring[rid];
    var count := PaymentCount(s, rid);
    var kind := PaymentTypeFromCategory(s.categories[rp.categoryId]);
    var h := Horizon(until, today);
    FirstCandidateIsFresh(s, rid);
    GenLoopFirst(s.payments, s.nextId, rp, rid, kind, h, FirstCandidate(s, rid), count);
    var f := GenerateFixed(s, rid, until, today).value;
    assert f.1[0] == s.nextId && s.nextId !in s.payments;
    assert Collides(s.trashed, rid, s.payments, f.0.payments);
  }

  /** Before the loop every existing payment of the schedule is due before the
      first candidate, so the loop never meets an existing due date. */
  lemma FirstCandidateIsFresh(s: Store, rid: Id)
    requires IdsBelow(s)
    requires rid in s.recurring && s.recurring[rid].intervalValue >= 1
    ensures AllBefore(s.payments, rid, FirstCandidate(s, rid))
  {
    var latest := LatestDueDate(s, rid);
    LatestDueBelowSpec(s.payments, rid, s.nextId);
    forall k | k in s.payments && s.payments[k].recurringId == Some(rid)
      ensures Before(s.payments[k].dueDate, FirstCandidate(s, rid))
    {
      assert k < s.nextId;
      assert latest.Some?;
    }
  }

  /** The latest due date is the one every other due date is not after. */
  lemma LatestIs(payments: map<Id, Payment>, rid: Id, n: nat, k: Id)
    requires k < n && k in payments && payments[k].recurringId == Some(rid)
    requires forall j :: j < n && j in payments && payments[j].recurringId == Some(rid) ==>
               NotAfter(payments[j].dueDate, payments[k].dueDate)
    ensures LatestDueBelow(payments, rid, n) == Some(payments[k].dueDate)
  {
    var r := LatestDueBelow(payments, rid, n);
    LatestDueBelowSpec(payments, rid, n);
    var j :| j < n && j in payments && payments[j].recurringId == Some(rid) && payments[j].dueDate == r.value;
    RankInjective(r.value, payments[k].dueDate);
  }

  /** With every existing due date before `cand`, the loop's first step creates a
      payment due on `cand` at id n and carries on from the next candidate, again
      with every due date before it. */
  lemma GenLoopFreshStep(payments: map<Id, Payment>, n: nat, rp: RecurringPayment, rid: Id,
                         kind: PaymentType, until: Date, cand: Date, count: int)
    requires KeysBelow(payments, n) && rp.intervalValue >= 1
    requires AllBefore(payments, rid, cand) && !Halts(rp, cand, count, until)
    ensures var m := payments[n := ScheduledPayment(rp, rid, kind, cand)];
      var rest := GenLoop(m, n + 1, rp, rid, kind, until, CalculateNextDate(rp, cand), count + 1);
      && AllBefore(m, rid, CalculateNextDate(rp, cand))
      && GenLoop(payments, n, rp, rid, kind, until, cand, count) == (rest.0, [n] + rest.1)
  {
    assert !HasDueDate(payments, rid, cand) by {
      forall k | k in payments && payments[k].recurringId == Some(rid)
        ensures payments[k].dueDate != cand
      {
        assert Before(payments[k].dueDate, cand);
      }
    }
  }

  /** Without an existing due date in the way, the loop creates nothing exactly
      when the first candidate already meets an exit, and otherwise its first
      payment is due on that candidate. */
  lemma GenLoopFirst(payments: map<Id, Payment>, n: nat, rp: RecurringPayment, rid: Id,
                     kind: PaymentType, until: Date, cand: Date, count: int)
    requires KeysBelow(payments, n) && rp.intervalValue >= 1
    requires AllBefore(payments, rid, cand)
    ensures var r := GenLoop(payments, n, rp, rid, kind, until, cand, count);
      && (|r.1| == 0 <==> Halts(rp, cand, count, until))
      && (|r.1| > 0 ==> r.0[r.1[0]].dueDate == cand)
  {
    if !Halts(rp, cand, count, until) {
      GenLoopFreshStep(payments, n, rp, rid, kind, until, cand, count);
      var m := payments[n := ScheduledPayment(rp, rid, kind, cand)];
      GenLoopFrame(m, n + 1, rp, rid, kind, until, CalculateNextDate(rp, cand), count + 1);
      var rest := GenLoop(m, n + 1, rp, rid, kind, until, CalculateNextDate(rp, cand), count + 1);
      assert rest.0[n] == m[n];
    }
  }

  /** Without an existing due date in the way, the payments the loop creates are
      due one interval apart. */
  lemma {:induction false} GenLoopConsecutive(payments: map<Id, Payment>, n: nat, rp: RecurringPayment, rid: Id,
                                              kind: PaymentType, until: Date, cand: Date, count: int)
    requires KeysBelow(payments, n) && rp.intervalValue >= 1
    requires AllBefore(payments, rid, cand)
    ensures var r := GenLoop(payments, n, rp, rid, kind, until, cand, count);
      forall i :: 0 <= i < |r.1| - 1 ==> r.0[r.1[i + 1]].dueDate == CalculateNextDate(rp, r.0[r.1[i]].dueDate)
    decreases Rank(until) - Rank(cand)
  {
    if !Halts(rp, cand, count, until) {
      var next := CalculateNextDate(rp, cand);
      var m := payments[n := ScheduledPayment(rp, rid, kind, cand)];
      var rest := GenLoop(m, n + 1, rp, rid, kind, until, next, count + 1);
      var r := GenLoop(payments, n, rp, rid, kind, until, cand, count);
      assert r == (rest.0, [n] + rest.1) && AllBefore(m, rid, next) by {
        GenLoopFreshStep(payments, n, rp, rid, kind, until, cand, count);
      }
      GenLoopConsecutive(m, n + 1, rp, rid, kind, until, next, count + 1);
      assert |rest.1| > 0 ==> rest.0[rest.1[0]].dueDate == next by {
        GenLoopFirst(m, n + 1, rp, rid, kind, until, next, count + 1);
      }
      assert r.0[n] == m[n] by {
        GenLoopFrame(m, n + 1, rp, rid, kind, until, next, count + 1);
      }
      assert forall i :: 1 <= i < |r.1| ==> r.1[i] == rest.1[i - 1];
    }
  }

  /** Without an existing due date in the way, the last payment created is the
      schedule's latest, and the candidate after it meets an exit. */
  lemma {:induction false} GenLoopLast(payments: map<Id, Payment>, n: nat, rp: RecurringPayment, rid: Id,
                                       kind: PaymentType, until: Date, cand: Date, count: int)
    requires KeysBelow(payments, n) && rp.intervalValue >= 1
    requires AllBefore(payments, rid, cand)
    ensures var r := GenLoop(payments, n, rp, rid, kind, until, cand, count);
      |r.1| > 0 ==>
        && Halts(rp, CalculateNextDate(rp, r.0[r.1[|r.1| - 1]].dueDate), count + |r.1|, until)
        && forall k :: k in r.0 && r.0[k].recurringId == Some(rid) ==> NotAfter(r.0[k].dueDate, r.0[r.1[|r.1| - 1]].dueDate)
    decreases Rank(until) - Rank(cand)
  {
    if !Halts(rp, cand, count, until) {
      var next := CalculateNextDate(rp, cand);
      GenLoopFreshStep(payments, n, rp, rid, kind, until, cand, count);
      var m := payments[n := ScheduledPayment(rp, rid, kind, cand)];
      var rest := GenLoop(m, n + 1, rp, rid, kind, until, next, count + 1);
      GenLoopLast(m, n + 1, rp, rid, kind, until, next, count + 1);
      GenLoopFirst(m, n + 1, rp, rid, kind, until, next, count + 1);
      if |rest.1| == 0 {
        assert rest.0 == m;
        assert forall k :: k in m && m[k].recurringId == Some(rid) ==> NotAfter(m[k].dueDate, cand);
      } else {
        assert rest.1[|rest.1| - 1] == ([n] + rest.1)[|rest.1|];
      }
    }
  }

  /** Without an existing due date in the way, the latest due date after the loop
      is that of the last payment it created. */
  lemma GenLoopLatest(payments: map<Id, Payment>, n: nat, rp: RecurringPayment, rid: Id,
                      kind: PaymentType, until: Date, cand: Date, count: int)
    requires KeysBelow(payments, n) && rp.intervalValue >= 1
    requires AllBefore(payments, rid, cand)
    ensures var r := GenLoop(payments, n, rp, rid, kind, until, cand, count);
      |r.1| > 0 ==> LatestDueBelow(r.0, rid, n + |r.1|) == Some(r.0[r.1[|r.1| - 1]].dueDate)
  {
    var r := GenLoop(payments, n, rp, rid, kind, until, cand, count);
    if |r.1| > 0 {
      var m, ids := r.0, r.1;
      var lastId := ids[|ids| - 1];
      assert lastId == n + |ids| - 1 && lastId in m by {
        GenLoopFrame(payments, n, rp, rid, kind, until, cand, count);
      }
      assert m[lastId].recurringId == Some(rid) by {
        GenLoopCreates(payments, n, rp, rid, kind, until, cand, count);
      }
      assert forall j :: j in m && m[j].recurringId == Some(rid) ==> NotAfter(m[j].dueDate, m[lastId].dueDate) by {
        GenLoopLast(payments, n, rp, rid, kind, until, cand, count);
      }
      LatestIs(m, rid, n + |ids|, lastId);
    }
  }

  /** After a call that created payments, the last one created carries the
      schedule's latest due date. */
  lemma GenerateLastIsLatest(s: Store, rid: Id, until: Option<Date>, today: Date)
    requires IdsBelow(s)
    requires rid in s.recurring && s.recurring[rid].intervalValue >= 1
    requires Generate(s, rid, until, today).Ok? && |Generate(s, rid, until, today).value.1| > 0
    ensures var r := Generate(s, rid, until, today).value;
      LatestDueDate(r.0, rid) == Some(r.0.payments[r.1[|r.1| - 1]].dueDate)
  {
    var rp := s.recurring[rid];
    var kind := PaymentTypeFromCategory(s.categories[rp.categoryId]);
    FirstCandidateIsFresh(s, rid);
    GenLoopLatest(s.payments, s.nextId, rp, rid, kind, Horizon(until, today), FirstCandidate(s, rid), PaymentCount(s, rid));
  }

  /** After a call the schedule is finished for this horizon: inactive, ended, or
      its next candidate already meets one of the loop's exits. */
  lemma GenerateLeavesHalted(s: Store, rid: Id, until: Option<Date>, today: Date)
    requires IdsBelow(s)
    requires rid in s.recurring && s.recurring[rid].intervalValue >= 1
    requires Generate(s, rid, until, today).Ok?
    ensures var s1 := Generate(s, rid, until, today).value.0;
      var rp := s.recurring[rid];
      !rp.isActive || HasEnded(rp, PaymentCount(s1, rid), today)
      || Halts(rp, FirstCandidate(s1, rid), PaymentCount(s1, rid), Horizon(until, today))
  {
    var rp := s.recurring[rid];
    var count := PaymentCount(s, rid);
    if rp.isActive && !HasEnded(rp, count, today) {
      var r := Generate(s, rid, until, today).value;
      var kind := PaymentTypeFromCategory(s.categories[rp.categoryId]);
      var h := Horizon(until, today);
      var g := GenLoop(s.payments, s.nextId, rp, rid, kind, h, FirstCandidate(s, rid), count);
      assert r == (s.(payments := g.0, nextId := s.nextId + |g.1|), g.1);
      FirstCandidateIsFresh(s, rid);
      GenLoopFirst(s.payments, s.nextId, rp, rid, kind, h, FirstCandidate(s, rid), count);
      GenLoopLast(s.payments, s.nextId, rp, rid, kind, h, FirstCandidate(s, rid), count);
      if |g.1| == 0 {
        assert r.0 == s;
        assert Halts(rp, FirstCandidate(s, rid), count, h);
      } else {
        GenerateCount(s, rid, until, today);
        GenerateLastIsLatest(s, rid, until, today);
        var last := g.0[g.1[|g.1| - 1]].dueDate;
        assert LatestDueDate(r.0, rid) == Some(last);
        assert FirstCandidate(r.0, rid) == CalculateNextDate(rp, last);
        assert PaymentCount(r.0, rid) == count + |g.1|;
        assert Halts(rp, CalculateNextDate(rp, last), count + |g.1|, h);
      }
    }
  }

  /** Generation is idempotent: a second call with the same horizon and the same
      day creates nothing and changes nothing. */
  lemma GenerateIdempotent(s: Store, rid: Id, until: Option<Date>, today: Date)
    requires IdsBelow(s)
    requires rid in s.recurring && s.recurring[rid].intervalValue >= 1
    requires Generate(s, rid, until, today).Ok?
    ensures var s1 := Generate(s, rid, until, today).value.0;
      Generate(s1, rid, until, today) == Ok((s1, []))
  {
    var s1 := Generate(s, rid, until, today).value.0;
    GenerateLeavesHalted(s, rid, until, today);
    assert s1.recurring == s.recurring && s1.categories == s.categories && IdsBelow(s1);
  }

  /** The first payment created is due on getNextDueDate, and each further one
      exactly one interval after the one before. */
  lemma GenerateStepsByInterval(s: Store, rid: Id, until: Option<Date>, today: Date)
    requires IdsBelow(s)
    requires rid in s.recurring && s.recurring[rid].intervalValue >= 1
    requires Generate(s, rid, until, today).Ok?
    ensures var r := Generate(s, rid, until, today).value;
      && (|r.1| > 0 ==> r.0.payments[r.1[0]].dueDate == FirstCandidate(s, rid))
      && (forall i :: 0 <= i < |r.1| - 1 ==>
            r.0.payments[r.1[i + 1]].dueDate == CalculateNextDate(s.recurring[rid], r.0.payments[r.1[i]].dueDate))
  {
    var rp := s.recurring[rid];
    var count := PaymentCount(s, rid);
    if rp.isActive && !HasEnded(rp, count, today) {
      var kind := PaymentTypeFromCategory(s.categories[rp.categoryId]);
      FirstCandidateIsFresh(s, rid);
      GenLoopFirst(s.payments, s.nextId, rp, rid, kind, Horizon(until, today), FirstCandidate(s, rid), count);
      GenLoopConsecutive(s.payments, s.nextId, rp, rid, kind, Horizon(until, today), FirstCandidate(s, rid), count);
    }
  }

  /** The example: a monthly rent from 1 January 2025, deactivated and then
      activated again on 20 January. Its paid January payment is live; the
      deactivation soft-deleted its unpaid February payment. */
  function RentSchedule(): RecurringPayment {
    RecurringPayment(7, 0, 1, "Rent", 50000, "EUR", Months, 1, YMD(2025, 1, 1), None, None, true)
  }

  function RentStore(): Store {
    var rp := RentSchedule();
    var jan := ScheduledPayment(rp, 2, PaymentType.Expense, YMD(2025, 1, 1)).(isPaid := true, paidAt := Some(YMD(2025, 1, 1)));
    var feb := ScheduledPayment(rp, 2, PaymentType.Expense, YMD(2025, 2, 1));
    Store(map[0 := Account(7, "Bank", "EUR", -50000, 0)], map[1 := Category(7, "Rent", CategoryType.Expense)],
          map[2 := rp], map[3 := jan], map[4 := feb], map[], 5)
  }

  /** On activation the rent's generator run as written fails on 1 February,
      which the soft-deleted payment holds; the corrected run creates the
      February payment again. */
  lemma RentReactivationFails()
    ensures Generate(RentStore(), 2, None, YMD(2025, 1, 20)) == Err(DuplicateDueDate)
    ensures var f := GenerateFixed(RentStore(), 2, None, YMD(2025, 1, 20));
      f.Ok? && |f.value.1| > 0 && f.value.0.payments[f.value.1[0]].dueDate == YMD(2025, 2, 1)
  {
    var s := RentStore();
    var today := YMD(2025, 1, 20);
    assert PaymentCount(s, 2) == 1;
    assert FirstCandidate(s, 2) == YMD(2025, 2, 1) by {
      assert LatestDueDate(s, 2) == Some(YMD(2025, 1, 1));
      assert AddMonths(YMD(2025, 1, 1), 1) == YMD(2025, 2, 1);
    }
    assert !Halts(s.recurring[2], YMD(2025, 2, 1), 1, Horizon(None, today)) by {
      assert AddMonths(today, 12) == YMD(2026, 1, 20);
    }
    assert HasDueDate(s.trashed, 2, YMD(2025, 2, 1)) by {
      assert s.trashed[4].dueDate == YMD(2025, 2, 1);
    }
    GenerateHitsTrashed(s, 2, None, today);
  }

  /** The schedules generateAllPaymentsForUser visits: the user's, active, not ended. */
  predicate Selected(s: Store, user: UserId, rid: Id, today: Date) {
    rid in s.recurring && s.recurring[rid].owner == user && s.recurring[rid].isActive
    && ScopeNotEnded(s.recurring[rid], today)
  }

  /** The foreach over the selected schedules with ids from i up to n. */
  function GenerateAllFrom(s: Store, user: UserId, until: Date, today: Date, i: nat, n: nat): (r: Result<(Store, seq<Id>)>)
    requires IdsBelow(s) && IntervalsPositive(s)
    ensures r.Ok? ==> IdsBelow(r.value.0) && PaymentsExtended(s, r.value.0)
    ensures r.Ok? ==> FreshRun(r.value.1, s.nextId) && r.value.0.nextId == s.nextId + |r.value.1|
    decreases n - i
  {
    if i >= n then Ok((s, []))
    else if !Selected(s, user, i, today) then GenerateAllFrom(s, user, until, today, i + 1, n)
    else
      match Generate(s, i, Some(until), today)
      case Err(e) => Err(e)
      case Ok(g) =>
        match GenerateAllFrom(g.0, user, until, today, i + 1, n)
        case Err(e) => Err(e)
        case Ok(h) =>
          assert forall j :: |g.1| <= j < |g.1 + h.1| ==> (g.1 + h.1)[j] == h.1[j - |g.1|];
          Ok((h.0, g.1 + h.1))
  }

  /** Every payment the foreach creates is an unpaid payment of a selected
      schedule with id in [i, n), due no later than the horizon. */
  lemma {:induction false} GenerateAllFromCreates(s: Store, user: UserId, until: Date, today: Date, i: nat, n: nat)
    requires IdsBelow(s) && IntervalsPositive(s)
    requires GenerateAllFrom(s, user, until, today, i, n).Ok?
    ensures var r := GenerateAllFrom(s, user, until, today, i, n).value;
      forall k :: k in r.0.payments && k !in s.payments ==>
        && r.0.payments[k].recurringId.Some? && i <= r.0.payments[k].recurringId.value < n
        && Selected(s, user, r.0.payments[k].recurringId.value, today)
        && !r.0.payments[k].isPaid && NotAfter(r.0.payments[k].dueDate, until)
    decreases n - i
  {
    if i < n {
      if !Selected(s, user, i, today) {
        GenerateAllFromCreates(s, user, until, today, i + 1, n);
      } else {
        var g := Generate(s, i, Some(until), today).value;
        GenerateCreates(s, i, Some(until), today);
        GenerateAllFromCreates(g.0, user, until, today, i + 1, n);
      }
    }
  }

  /** A successful foreach keeps the unique (recurring payment, due date) index
      intact over live and soft-deleted payments. */
  lemma {:induction false} GenerateAllFromUnique(s: Store, user: UserId, until: Date, today: Date, i: nat, n: nat)
    requires IdsBelow(s) && IntervalsPositive(s) && IndexUnique(s)
    requires GenerateAllFrom(s, user, until, today, i, n).Ok?
    ensures IndexUnique(GenerateAllFrom(s, user, until, today, i, n).value.0)
    decreases n - i
  {
    if i < n {
      if !Selected(s, user, i, today) {
        GenerateAllFromUnique(s, user, until, today, i + 1, n);
      } else {
        var g := Generate(s, i, Some(until), today).value;
        GenerateUnique(s, i, Some(until), today);
        GenerateAllFromUnique(g.0, user, until, today, i + 1, n);
      }
    }
  }

  /** The schedule has a soft-deleted payment due no later than `until`. */
  ghost predicate TrashedDueBy(trashed: map<Id, Payment>, rid: Id, until: Date) {
    exists k :: k in trashed && trashed[k].recurringId == Some(rid) && NotAfter(trashed[k].dueDate, until)
  }

  /** The foreach fails only on a selected schedule whose category is gone or
      that has a soft-deleted payment due within the horizon. */
  lemma {:induction false} GenerateAllFromFails(s: Store, user: UserId, until: Date, today: Date, i: nat, n: nat)
    requires IdsBelow(s) && IntervalsPositive(s)
    requires GenerateAllFrom(s, user, until, today, i, n).Err?
    ensures exists rid :: i <= rid < n && Selected(s, user, rid, today)
                          && (s.recurring[rid].categoryId !in s.categories || TrashedDueBy(s.trashed, rid, until))
    decreases n - i
  {
    if !Selected(s, user, i, today) {
      GenerateAllFromFails(s, user, until, today, i + 1, n);
    } else if Generate(s, i, Some(until), today).Ok? {
      var g := Generate(s, i, Some(until), today).value;
      GenerateAllFromFails(g.0, user, until, today, i + 1, n);
    } else if Generate(s, i, Some(until), today) == Err(DuplicateDueDate) {
      GenerateDuplicateWitness(s, i, Some(until), today);
    }
  }

  /** generateAllPaymentsForUser(user, until). An exception part-way fails the
      whole call here; the payments created before it are not kept. */
  function GenerateAll(s: Store, user: UserId, until: Option<Date>, today: Date): (r: Result<(Store, seq<Id>)>)
    requires IdsBelow(s) && IntervalsPositive(s)
    ensures r.Ok? ==> IdsBelow(r.value.0) && PaymentsExtended(s, r.value.0)
    ensures r.Ok? ==> FreshRun(r.value.1, s.nextId) && r.value.0.nextId == s.nextId + |r.value.1|
  {
    GenerateAllFrom(s, user, Horizon(until, today), today, 0, s.nextId)
  }

  /** What generateAllPaymentsForUser creates: unpaid payments of the user's
      active, not-ended schedules, due no later than the horizon; the unique
      (schedule, due date) index survives; a failure names a selected schedule
      whose category is missing or that has a soft-deleted payment due within
      the horizon. */
  lemma GenerateAllSound(s: Store, user: UserId, until: Option<Date>, today: Date)
    requires IdsBelow(s) && IntervalsPositive(s)
    ensures var r := GenerateAll(s, user, until, today);
      && (r.Ok? ==> forall k :: k in r.value.0.payments && k !in s.payments ==>
            && r.value.0.payments[k].recurringId.Some?
            && Selected(s, user, r.value.0.payments[k].recurringId.value, today)
            && !r.value.0.payments[k].isPaid && NotAfter(r.value.0.payments[k].dueDate, Horizon(until, today)))
      && (r.Ok? && IndexUnique(s) ==> IndexUnique(r.value.0))
      && (r.Err? ==> exists rid :: Selected(s, user, rid, today)
                       && (s.recurring[rid].categoryId !in s.categories || TrashedDueBy(s.trashed, rid, Horizon(until, today))))
  {
    var h := Horizon(until, today);
    if GenerateAll(s, user, until, today).Ok? {
      GenerateAllFromCreates(s, user, h, today, 0, s.nextId);
      if IndexUnique(s) {
        GenerateAllFromUnique(s, user, h, today, 0, s.nextId);
      }
    } else {
      GenerateAllFromFails(s, user, h, today, 0, s.nextId);
    }
  }
}
