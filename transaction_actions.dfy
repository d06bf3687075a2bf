/**
 * The transaction server actions: creating and editing a transaction, which books its
 * signed delta on an account in the same atomic unit as the row write, reading one back,
 * and the next-occurrence date of a recurring transaction.  The authenticated caller and
 * the rate limiter's decision are inputs; the store is a `Database` object.  Every action
 * checks all its failure conditions before its first write, so it either fails with the
 * store unchanged or performs all of its writes.
 */
module TransactionActions {
  import opened Wrappers
  import opened Calendar
  import opened Store
  import opened Ledger

  /** The rate limiter's verdict on a request. */
  datatype Decision = Allowed | RateLimited | Blocked

  /** The account exists and belongs to `user`. */
  predicate OwnsAccount(accounts: map<AccountId, Account>, user: UserId, a: AccountId) {
    a in accounts && accounts[a].userId == user
  }

  /** The next occurrence after `start`, by calendar meaning: one day, seven days, the same
      day number in the next month or next year (an overflowing day rolls into the month
      after), or `start` itself for a tag the calculator does not know. */
  function NextRecurringDate(start: ValidDate, interval: RecurringInterval): ValidDate {
    match interval
    case Daily => AddDays(start, 1)
    case Weekly => AddDays(start, 7)
    case Monthly =>
      var (ny, nm) := NextMonth(start.year, start.month);
      RollOver(ny, nm, start.day)
    case Yearly => RollOver(start.year + 1, start.month, start.day)
    case Unrecognised(_) => start
  }

  /** The stored next occurrence: only a recurring transaction with a non-empty interval tag
      has one. */
  function ScheduledNext(date: ValidDate, isRecurring: bool, interval: Option<RecurringInterval>): (r: Option<ValidDate>)
    ensures r.Some? <==> isRecurring && HasInterval(interval)
    ensures r.Some? ==> r.value == NextRecurringDate(date, interval.value)
  {
    if isRecurring && HasInterval(interval) then Some(NextRecurringDate(date, interval.value)) else None
  }

  /** An empty interval tag is falsy, so even a recurring transaction then gets no next
      occurrence; a non-empty unknown tag keeps the start date. */
  lemma EmptyIntervalTagSchedulesNothing(date: ValidDate, tag: string)
    ensures ScheduledNext(date, true, Some(Unrecognised(tag))) == if tag == "" then None else Some(date)
  {
  }

  /** Copies `startDate` into a fresh date object and moves it with the `Date` setters. */
  method CalculateNextRecurringDate(startDate: ValidDate, interval: RecurringInterval) returns (next: ValidDate)
    ensures next == NextRecurringDate(startDate, interval)
  {
    var date := new JsDate(startDate);
    match interval {
      case Daily =>
        date.SetDate(date.day + 1);
        MakeDateAddsDays(startDate, 1);
      case Weekly =>
        date.SetDate(date.day + 7);
        MakeDateAddsDays(startDate, 7);
      case Monthly =>
        date.SetMonth(date.month + 1);
        MakeDateNextMonth(startDate.year, startDate.month, startDate.day);
      case Yearly =>
        date.SetFullYear(date.year + 1);
        MakeDateRollsOver(startDate.year + 1, startDate.month, startDate.day);
      case Unrecognised(_) =>
    }
    next := date.Value();
  }

  /** `data.isRecurring && data.recurringInterval ? calculateNextRecurringDate(...) : null`. */
  method NextOccurrence(data: TransactionData) returns (next: Option<ValidDate>)
    ensures next == ScheduledNext(data.date, data.isRecurring, data.recurringInterval)
  {
    next := None;
    if data.isRecurring && HasInterval(data.recurringInterval) {
      var d := CalculateNextRecurringDate(data.date, data.recurringInterval.value);
      next := Some(d);
    }
  }

  /** Each known interval moves the date strictly forward; an unknown one leaves it. */
  lemma NextRecurringDateIsLater(start: ValidDate, interval: RecurringInterval)
    ensures interval.Unrecognised? <==> NextRecurringDate(start, interval) == start
    ensures OnOrBefore(start, NextRecurringDate(start, interval))
  {
    match interval {
      case Daily => AddDaysIsLater(start, 1);
      case Weekly => AddDaysIsLater(start, 7);
      case Monthly =>
      case Yearly =>
      case Unrecognised(_) => OnOrBeforeIsTotalOrder(start, start, start);
    }
  }

  /** Monthly from January 31 lands in March: on the 2nd in a leap year, the 3rd otherwise. */
  lemma MonthlyFromJanuary31()
    ensures NextRecurringDate(Date(2024, 0, 31), Monthly) == Date(2024, 2, 2)
    ensures NextRecurringDate(Date(2023, 0, 31), Monthly) == Date(2023, 2, 3)
  {
  }

  /** Yearly from February 29 lands on March 1 of the following year. */
  lemma YearlyFromLeapDay(y: int)
    requires IsLeapYear(y)
    ensures NextRecurringDate(Date(y, 1, 29), Yearly) == Date(y + 1, 2, 1)
  {
  }

  /** The row `createTransaction` inserts for `user`. */
  function NewRow(user: UserId, data: TransactionData): Transaction {
    Transaction(user, data.accountId, data.kind, data.amount, data.date, data.isRecurring,
                data.recurringInterval, ScheduledNext(data.date, data.isRecurring, data.recurringInterval))
  }

  method CreateTransaction(db: Database, caller: Option<ClerkUserId>, decision: Decision, data: TransactionData)
    returns (r: Result<(TransactionId, Transaction), Error>)
    requires db.Valid()
    modifies db
    ensures db.Valid()
    // the failures, in the order they are checked
    ensures caller.None? ==> r == Failure(Unauthorized)
    ensures caller.Some? && decision == RateLimited ==> r == Failure(TooManyRequests)
    ensures caller.Some? && decision == Blocked ==> r == Failure(RequestBlocked)
    ensures caller.Some? && decision == Allowed && caller.value !in old(db.users) ==> r == Failure(UserNotFound)
    ensures caller.Some? && decision == Allowed && caller.value in old(db.users)
            && !OwnsAccount(old(db.accounts), old(db.users)[caller.value], data.accountId)
            ==> r == Failure(AccountNotFound)
    ensures r.Failure? ==> unchanged(db)
    // on success: one new row owned by the caller, and only the chosen account moves
    ensures r.Success? <==> caller.Some? && decision == Allowed && caller.value in old(db.users)
                            && OwnsAccount(old(db.accounts), old(db.users)[caller.value], data.accountId)
    ensures r.Success? ==>
              && r.value.0 == old(db.nextTransactionId) && r.value.0 !in old(db.transactions)
              && r.value.1 == NewRow(old(db.users)[caller.value], data)
              && db.transactions == old(db.transactions)[r.value.0 := r.value.1]
              && db.nextTransactionId == old(db.nextTransactionId) + 1
              && db.accounts == Increment(old(db.accounts), data.accountId, SignedDelta(data.kind, data.amount))
    ensures db.users == old(db.users) && db.budgets == old(db.budgets)
    ensures old(Reconciled(db.accounts, db.transactions, db.nextTransactionId))
            ==> Reconciled(db.accounts, db.transactions, db.nextTransactionId)
    ensures old(OwnedByAccountHolder(db.accounts, db.transactions))
            ==> OwnedByAccountHolder(db.accounts, db.transactions)
  {
    if caller.None? {
      return Failure(Unauthorized);
    }
    if decision == RateLimited {
      return Failure(TooManyRequests);
    }
    if decision == Blocked {
      return Failure(RequestBlocked);
    }
    if caller.value !in db.users {
      return Failure(UserNotFound);
    }
    var user := db.users[caller.value];
    if !OwnsAccount(db.accounts, user, data.accountId) {
      return Failure(AccountNotFound);
    }

    var balanceChange := SignedDelta(data.kind, data.amount);
    var newBalance := db.accounts[data.accountId].balance + balanceChange;
    var next := NextOccurrence(data);
    var row := Transaction(user, data.accountId, data.kind, data.amount, data.date,
                           data.isRecurring, data.recurringInterval, next);

    ghost var accounts0, txs0, n0 := db.accounts, db.transactions, db.nextTransactionId;
    // the atomic unit: insert the row, then write the new balance
    var id := db.CreateTransactionRow(row);
    db.SetBalance(data.accountId, newBalance);

    if Reconciled(accounts0, txs0, n0) {
      InsertKeepsReconciled(accounts0, txs0, n0, row);
    }
    if OwnedByAccountHolder(accounts0, txs0) {
      InsertKeepsOwnership(accounts0, txs0, n0, row);
    }
    r := Success((id, row));
  }

  /** `getTransaction`: the caller's own transaction with this id. */
  function GetTransaction(db: Database, caller: Option<ClerkUserId>, id: TransactionId): (r: Result<Transaction, Error>)
    reads db
    ensures r.Success? <==> caller.Some? && caller.value in db.users
                            && id in db.transactions && db.transactions[id].userId == db.users[caller.value]
    ensures r.Success? ==> r.value == db.transactions[id]
    ensures caller.None? ==> r == Failure(Unauthorized)
    ensures caller.Some? && caller.value !in db.users ==> r == Failure(UserNotFound)
    ensures caller.Some? && caller.value in db.users && r.Failure? ==> r == Failure(TransactionNotFound)
  {
    if caller.None? then Failure(Unauthorized)
    else if caller.value !in db.users then Failure(UserNotFound)
    else
      var user := db.users[caller.value];
      if id in db.transactions && db.transactions[id].userId == user then Success(db.transactions[id])
      else Failure(TransactionNotFound)
  }

  /** The row `updateTransaction` writes over `original`: the form's fields, the same owner,
      and the next occurrence recomputed from the new date and interval. */
  function EditedRow(original: Transaction, data: TransactionData): Transaction {
    Transaction(original.userId, data.accountId, data.kind, data.amount, data.date, data.isRecurring,
                data.recurringInterval, ScheduledNext(data.date, data.isRecurring, data.recurringInterval))
  }

  /** `updateTransaction` as written: it does not check that the new account belongs to the
      caller.  A write naming a missing account is rejected by the store, which rolls the
      whole unit back. */
  method UpdateTransaction(db: Database, caller: Option<ClerkUserId>, id: TransactionId, data: TransactionData)
    returns (r: Result<(TransactionId, Transaction), Error>)
    requires db.Valid()
    modifies db
    ensures db.Valid()
    // the lookups fail exactly as getTransaction does
    ensures old(GetTransaction(db, caller, id)).Failure?
            ==> r.Failure? && r.error == old(GetTransaction(db, caller, id)).error
    ensures old(GetTransaction(db, caller, id)).Success?
            && (data.accountId !in old(db.accounts) || old(db.transactions)[id].accountId !in old(db.accounts))
            ==> r == Failure(StoreFailure)
    ensures r.Failure? ==> unchanged(db)
    ensures r.Success? <==>
              && old(GetTransaction(db, caller, id)).Success?
              && data.accountId in old(db.accounts) && old(db.transactions)[id].accountId in old(db.accounts)
    ensures r.Success? ==>
              && r.value == (id, EditedRow(old(db.transactions)[id], data))
              && db.transactions == old(db.transactions)[id := r.value.1]
              && db.accounts == Rebook(old(db.accounts), old(db.transactions)[id], r.value.1)
              && db.nextTransactionId == old(db.nextTransactionId)
    ensures db.users == old(db.users) && db.budgets == old(db.budgets)
    ensures old(Reconciled(db.accounts, db.transactions, db.nextTransactionId))
            ==> Reconciled(db.accounts, db.transactions, db.nextTransactionId)
    // ownership survives exactly when the new account is the caller's
    ensures r.Success? && old(OwnedByAccountHolder(db.accounts, db.transactions))
            ==> (OwnedByAccountHolder(db.accounts, db.transactions)
                 <==> old(db.accounts)[data.accountId].userId == r.value.1.userId)
  {
    if caller.None? {
      return Failure(Unauthorized);
    }
    if caller.value !in db.users {
      return Failure(UserNotFound);
    }
    var user := db.users[caller.value];
    if !(id in db.transactions && db.transactions[id].userId == user) {
      return Failure(TransactionNotFound);
    }
    var original := db.transactions[id];
    // a row or balance write naming a missing account is refused by the store, and the
    // atomic unit is rolled back before anything is visible
    if data.accountId !in db.accounts || original.accountId !in db.accounts {
      return Failure(StoreFailure);
    }
    var next := NextOccurrence(data);
    var row := Transaction(user, data.accountId, data.kind, data.amount, data.date,
                           data.isRecurring, data.recurringInterval, next);

    assert row == EditedRow(original, data);
    CommitEdit(db, id, row);
    r := Success((id, row));
  }

  /** The atomic unit of `updateTransaction`: rewrite the row, then move the balances, on the
      same account by the net change, otherwise off the old account and onto the new one. */
  method CommitEdit(db: Database, id: TransactionId, row: Transaction)
    requires db.Valid() && id in db.transactions
    requires db.transactions[id].accountId in db.accounts && row.accountId in db.accounts
    modifies db
    ensures db.Valid()
    ensures db.transactions == old(db.transactions)[id := row]
    ensures db.accounts == Rebook(old(db.accounts), old(db.transactions)[id], row)
    ensures db.users == old(db.users) && db.budgets == old(db.budgets)
    ensures db.nextTransactionId == old(db.nextTransactionId)
    ensures old(Reconciled(db.accounts, db.transactions, db.nextTransactionId))
            ==> Reconciled(db.accounts, db.transactions, db.nextTransactionId)
    ensures old(OwnedByAccountHolder(db.accounts, db.transactions)) && row.userId == old(db.transactions)[id].userId
            ==> (OwnedByAccountHolder(db.accounts, db.transactions)
                 <==> old(db.accounts)[row.accountId].userId == row.userId)
  {
    var original := db.transactions[id];
    var oldBalanceChange := SignedDelta(original.kind, original.amount);
    var newBalanceChange := SignedDelta(row.kind, row.amount);
    var netBalanceChange := newBalanceChange - oldBalanceChange;
    ghost var accounts0, txs0, n0 := db.accounts, db.transactions, db.nextTransactionId;

    db.UpdateTransactionRow(id, row);
    if row.accountId != original.accountId {
      db.IncrementBalance(original.accountId, -oldBalanceChange);
      db.IncrementBalance(row.accountId, newBalanceChange);
    } else {
      db.IncrementBalance(row.accountId, netBalanceChange);
    }
    assert db.accounts == Rebook(accounts0, original, row);

    if Reconciled(accounts0, txs0, n0) {
      ReplaceKeepsReconciled(accounts0, txs0, n0, id, row);
    }
    if OwnedByAccountHolder(accounts0, txs0) && row.userId == original.userId {
      ReplaceOwnership(accounts0, txs0, id, row);
    }
  }

  /** `updateTransaction` with the missing check added: the new account must belong to the
      caller, as `createTransaction` demands.  It then keeps every transaction on an account
      of its owner. */
  method UpdateTransactionChecked(db: Database, caller: Option<ClerkUserId>, id: TransactionId, data: TransactionData)
    returns (r: Result<(TransactionId, Transaction), Error>)
    requires db.Valid()
    modifies db
    ensures db.Valid()
    ensures old(GetTransaction(db, caller, id)).Failure?
            ==> r.Failure? && r.error == old(GetTransaction(db, caller, id)).error
    ensures old(GetTransaction(db, caller, id)).Success?
            && !OwnsAccount(old(db.accounts), old(db.transactions)[id].userId, data.accountId)
            ==> r == Failure(AccountNotFound)
    ensures old(GetTransaction(db, caller, id)).Success?
            && old(db.transactions)[id].accountId !in old(db.accounts)
            && OwnsAccount(old(db.accounts), old(db.transactions)[id].userId, data.accountId)
            ==> r == Failure(StoreFailure)
    ensures r.Failure? ==> unchanged(db)
    ensures r.Success? <==>
              && old(GetTransaction(db, caller, id)).Success?
              && OwnsAccount(old(db.accounts), old(db.transactions)[id].userId, data.accountId)
              && old(db.transactions)[id].accountId in old(db.accounts)
    ensures r.Success? ==>
              && r.value == (id, EditedRow(old(db.transactions)[id], data))
              && db.transactions == old(db.transactions)[id := r.value.1]
              && db.accounts == Rebook(old(db.accounts), old(db.transactions)[id], r.value.1)
              && db.nextTransactionId == old(db.nextTransactionId)
    ensures db.users == old(db.users) && db.budgets == old(db.budgets)
    ensures old(Reconciled(db.accounts, db.transactions, db.nextTransactionId))
            ==> Reconciled(db.accounts, db.transactions, db.nextTransactionId)
    ensures old(OwnedByAccountHolder(db.accounts, db.transactions))
            ==> OwnedByAccountHolder(db.accounts, db.transactions)
  {
    var found := GetTransaction(db, caller, id);
    if found.Failure? {
      return Failure(found.error);
    }
    if !OwnsAccount(db.accounts, found.value.userId, data.accountId) {
      return Failure(AccountNotFound);
    }
    r := UpdateTransaction(db, caller, id, data);
  }

  /** A user moves their own transaction onto another user's account: the edit as written
      succeeds, and afterwards a transaction sits on an account its owner does not hold. */
  method ForeignAccountEditWitness() returns (breached: bool)
    ensures breached
  {
    var db := new Database(map["alice" := 0, "bob" := 1], map[10 := Account(0, 0), 20 := Account(1, 0)]);
    var data := TransactionData(10, Expense, 500, Date(2024, 0, 31), false, None);
    var created := CreateTransaction(db, Some("alice"), Allowed, data);
    var moved := UpdateTransaction(db, Some("alice"), created.value.0, data.(accountId := 20));
    breached := moved.Success? && !OwnedByAccountHolder(db.accounts, db.transactions);
  }
}
