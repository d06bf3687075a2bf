/**
 * The budget server actions: reading the caller's budget with the sum of this month's
 * expenses, and setting the budget amount.  The clock is an input (`today`), and dates are
 * whole calendar days, so a transaction dated on the last day of the month is inside the
 * window.
 */
module BudgetActions {
  import opened Wrappers
  import opened Calendar
  import opened Store
  import opened Ledger
  import TransactionActions

  /** What `getCurrentBudget` returns: the budget or null, and this month's expense total. */
  datatype CurrentBudget = CurrentBudget(budget: Option<Budget>, currentExpenses: int)

  /** `new Date(y, m, 1)` and `new Date(y, m + 1, 0)`: the first and the last day of the
      month of `today`. */
  function MonthWindow(today: ValidDate): (w: (ValidDate, ValidDate))
    ensures w.0 == Date(today.year, today.month, 1)
    ensures w.1 == Date(today.year, today.month, DaysInMonth(today.year, today.month))
  {
    MakeDateDayZero(today.year, today.month);
    (MakeDate(today.year, today.month, 1), MakeDate(today.year, today.month + 1, 0))
  }

  /** A day lies in the window exactly when it is in the same month as `today`. */
  lemma InMonthWindow(today: ValidDate, x: ValidDate)
    ensures OnOrBefore(MonthWindow(today).0, x) && OnOrBefore(x, MonthWindow(today).1)
        <==> x.year == today.year && x.month == today.month
  {
  }

  /** The aggregate `getCurrentBudget` asks for: the user's expense amounts in the window. */
  function MonthlyExpenses(user: UserId, today: ValidDate): Tally {
    ExpensesOf(user, MonthWindow(today).0, MonthWindow(today).1)
  }

  predicate IsExpenseThisMonth(t: Transaction, user: UserId, today: ValidDate) {
    t.userId == user && t.kind == Expense && t.date.year == today.year && t.date.month == today.month
  }

  /** A transaction counts towards the month's expenses, with its amount, exactly when it is
      the user's expense dated in the month of `today`. */
  lemma MonthlyExpensesWeight(user: UserId, today: ValidDate, t: Transaction)
    ensures Weight(MonthlyExpenses(user, today), t) == if IsExpenseThisMonth(t, user, today) then t.amount else 0
  {
    InMonthWindow(today, t.date);
  }

  /** With no expense of the user in this month the total is 0. */
  lemma NoExpensesThisMonthIsZero(txs: map<TransactionId, Transaction>, n: nat, user: UserId, today: ValidDate)
    requires forall id :: id in txs && id < n ==> !IsExpenseThisMonth(txs[id], user, today)
    ensures Total(txs, MonthlyExpenses(user, today), n) == 0
  {
    forall id | id in txs && id < n
      ensures Weight(MonthlyExpenses(user, today), txs[id]) == 0
    {
      MonthlyExpensesWeight(user, today, txs[id]);
    }
    TotalOfNoMatches(txs, MonthlyExpenses(user, today), n);
  }

  /** A newly inserted transaction raises the month's expenses by its amount when it is the
      user's expense this month, and leaves them as they were otherwise. */
  lemma InsertedExpenseRaisesTotal(txs: map<TransactionId, Transaction>, n: nat, t: Transaction,
                                   user: UserId, today: ValidDate)
    requires n !in txs
    ensures Total(txs[n := t], MonthlyExpenses(user, today), n + 1)
         == Total(txs, MonthlyExpenses(user, today), n) + (if IsExpenseThisMonth(t, user, today) then t.amount else 0)
  {
    TotalAfterInsert(txs, MonthlyExpenses(user, today), n, t);
    MonthlyExpensesWeight(user, today, t);
  }

  /** A transaction created through `createTransaction` shows in the caller's next
      `getCurrentBudget`: the month's expense total rises by its amount exactly when it is an
      expense dated this month, and the budget itself is as it was. */
  method CreateThenReadBudget(db: Database, caller: Option<ClerkUserId>, decision: TransactionActions.Decision,
                              data: TransactionData, today: ValidDate)
    returns (created: Result<(TransactionId, Transaction), Error>)
    requires db.Valid()
    modifies db
    ensures db.Valid()
    ensures created.Success? ==> old(GetCurrentBudget(db, caller, today)).Success?
    ensures created.Success? ==>
              && GetCurrentBudget(db, caller, today).Success?
              && GetCurrentBudget(db, caller, today).value.budget == old(GetCurrentBudget(db, caller, today)).value.budget
              && GetCurrentBudget(db, caller, today).value.currentExpenses
                 == old(GetCurrentBudget(db, caller, today)).value.currentExpenses
                    + (if data.kind == Expense && data.date.year == today.year && data.date.month == today.month
                       then data.amount else 0)
  {
    ghost var txs0, n0 := db.transactions, db.nextTransactionId;
    created := TransactionActions.CreateTransaction(db, caller, decision, data);
    if created.Success? {
      InsertedExpenseRaisesTotal(txs0, n0, created.value.1, db.users[caller.value], today);
    }
  }

  /** `getCurrentBudget`: every failure is passed on to the caller. */
  function GetCurrentBudget(db: Database, caller: Option<ClerkUserId>, today: ValidDate): (r: Result<CurrentBudget, Error>)
    reads db
    requires db.Valid()
    ensures caller.None? ==> r == Failure(Unauthorized)
    ensures caller.Some? && caller.value !in db.users ==> r == Failure(UserNotFound)
    ensures r.Success? <==> caller.Some? && caller.value in db.users
    ensures r.Success? ==>
              && (r.value.budget.Some? <==> db.users[caller.value] in db.budgets)
              && (r.value.budget.Some? ==>
                    r.value.budget.value == Budget(db.users[caller.value], db.budgets[db.users[caller.value]]))
              && r.value.currentExpenses
                 == Total(db.transactions, MonthlyExpenses(db.users[caller.value], today), db.nextTransactionId)
  {
    if caller.None? then Failure(Unauthorized)
    else if caller.value !in db.users then Failure(UserNotFound)
    else
      var user := db.users[caller.value];
      var budget := if user in db.budgets then Some(Budget(user, db.budgets[user])) else None;
      Success(CurrentBudget(budget, Total(db.transactions, MonthlyExpenses(user, today), db.nextTransactionId)))
  }

  /** `updateBudget`: an upsert keyed by the user.  It reports failures as a value instead of
      throwing. */
  method UpdateBudget(db: Database, caller: Option<ClerkUserId>, amount: int) returns (r: Result<Budget, Error>)
    requires db.Valid()
    modifies db
    ensures db.Valid()
    ensures caller.None? ==> r == Failure(Unauthorized)
    ensures caller.Some? && caller.value !in old(db.users) ==> r == Failure(UserNotFound)
    ensures r.Success? <==> caller.Some? && caller.value in old(db.users)
    ensures r.Failure? ==> unchanged(db)
    ensures r.Success? ==>
              && r.value == Budget(old(db.users)[caller.value], amount)
              && db.budgets.Keys == old(db.budgets).Keys + {r.value.userId}
              && db.budgets[r.value.userId] == amount
              && (forall u :: u in old(db.budgets) && u != r.value.userId ==> db.budgets[u] == old(db.budgets)[u])
    ensures db.users == old(db.users) && db.accounts == old(db.accounts)
    ensures db.transactions == old(db.transactions) && db.nextTransactionId == old(db.nextTransactionId)
    // what getCurrentBudget reports afterwards, whatever the day
    ensures r.Success? ==> forall today: ValidDate ::
              GetCurrentBudget(db, caller, today).Success?
              && GetCurrentBudget(db, caller, today).value.budget == Some(r.value)
  {
    if caller.None? {
      return Failure(Unauthorized);
    }
    if caller.value !in db.users {
      return Failure(UserNotFound);
    }
    var user := db.users[caller.value];
    db.UpsertBudget(user, amount);
    r := Success(Budget(user, db.budgets[user]));
  }
}
