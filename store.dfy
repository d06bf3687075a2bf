/**
 * The backing relational store as the server actions see it: users looked up by their
 * identity-provider id, accounts, transactions and per-user budgets.  Each table is a map;
 * transaction ids are issued by a counter so that every stored id is below it.
 */
module Store {
  import opened Wrappers
  import opened Calendar

  /** The identity provider's user id; the actions treat an empty id as no caller. */
  type ClerkUserId = s: string | s != "" witness "user"
  type UserId = nat
  type AccountId = nat
  type TransactionId = nat

  datatype TransactionType = Income | Expense

  datatype RecurringInterval = Daily | Weekly | Monthly | Yearly | Unrecognised(tag: string)

  /** The interval field is truthy: present and not the empty tag. */
  predicate HasInterval(interval: Option<RecurringInterval>) {
    interval.Some? && interval.value != Unrecognised("")
  }

  datatype Account = Account(userId: UserId, balance: int)

  /** A row of the transaction table; `amount` is in cents. */
  datatype Transaction = Transaction(
    userId: UserId,
    accountId: AccountId,
    kind: TransactionType,
    amount: int,
    date: ValidDate,
    isRecurring: bool,
    recurringInterval: Option<RecurringInterval>,
    nextRecurringDate: Option<ValidDate>)

  /** The fields of a transaction form, the `data` argument of the actions. */
  datatype TransactionData = TransactionData(
    accountId: AccountId,
    kind: TransactionType,
    amount: int,
    date: ValidDate,
    isRecurring: bool,
    recurringInterval: Option<RecurringInterval>)

  datatype Budget = Budget(userId: UserId, amount: int)

  /** What the actions report when they throw; `Message` gives the text they throw with. */
  datatype Error =
    | Unauthorized
    | TooManyRequests
    | RequestBlocked
    | UserNotFound
    | AccountNotFound
    | TransactionNotFound
    | StoreFailure

  /** The text an action throws with.  A store failure is rethrown with the store's own
      message, which is not part of this model, so it has none here. */
  function Message(e: Error): (s: Option<string>)
    ensures s.None? <==> e == StoreFailure
    ensures s.Some? ==> |s.value| > 0
  {
    match e
    case Unauthorized => Some("Unauthorized")
    case TooManyRequests => Some("Too many requests. Please try again later.")
    case RequestBlocked => Some("Request Blocked.")
    case UserNotFound => Some("User not found")
    case AccountNotFound => Some("Account not found")
    case TransactionNotFound => Some("Transaction not found")
    case StoreFailure => None
  }

  /** `{ increment: change }` on an account's balance; every other account is untouched. */
  function Increment(accounts: map<AccountId, Account>, a: AccountId, change: int): (r: map<AccountId, Account>)
    requires a in accounts
    ensures r.Keys == accounts.Keys
    ensures r[a] == accounts[a].(balance := accounts[a].balance + change)
    ensures forall b :: b in accounts && b != a ==> r[b] == accounts[b]
  {
    accounts[a := accounts[a].(balance := accounts[a].balance + change)]
  }

  class Database {
    var users: map<ClerkUserId, UserId>
    var accounts: map<AccountId, Account>
    var transactions: map<TransactionId, Transaction>
    var budgets: map<UserId, int>
    var nextTransactionId: TransactionId

    /** Every stored transaction id was issued by the counter. */
    ghost predicate Valid()
      reads this
    {
      forall id :: id in transactions ==> id < nextTransactionId
    }

    /** A store holding the given users and accounts and no transactions or budgets. */
    constructor (users: map<ClerkUserId, UserId>, accounts: map<AccountId, Account>)
      ensures Valid()
      ensures this.users == users && this.accounts == accounts
      ensures transactions == map[] && budgets == map[] && nextTransactionId == 0
    {
      this.users := users;
      this.accounts := accounts;
      transactions := map[];
      budgets := map[];
      nextTransactionId := 0;
    }

    /** `tx.transaction.create`: stores `t` under a fresh id. */
    method CreateTransactionRow(t: Transaction) returns (id: TransactionId)
      requires Valid()
      modifies this
      ensures Valid()
      ensures id == old(nextTransactionId) && id !in old(transactions)
      ensures transactions == old(transactions)[id := t] && nextTransactionId == id + 1
      ensures users == old(users) && accounts == old(accounts) && budgets == old(budgets)
    {
      id := nextTransactionId;
      transactions := transactions[id := t];
      nextTransactionId := nextTransactionId + 1;
    }

    /** `tx.transaction.update`: replaces the row stored under `id`. */
    method UpdateTransactionRow(id: TransactionId, t: Transaction)
      requires Valid() && id in transactions
      modifies this`transactions
      ensures Valid()
      ensures transactions == old(transactions)[id := t]
    {
      transactions := transactions[id := t];
    }

    /** `tx.account.update` with `{ balance: b }`. */
    method SetBalance(a: AccountId, b: int)
      requires a in accounts
      modifies this`accounts
      ensures accounts == Increment(old(accounts), a, b - old(accounts)[a].balance)
    {
      accounts := accounts[a := accounts[a].(balance := b)];
    }

    /** `tx.account.update` with `{ balance: { increment: change } }`; a decrement is a negative `change`. */
    method IncrementBalance(a: AccountId, change: int)
      requires a in accounts
      modifies this`accounts
      ensures accounts == Increment(old(accounts), a, change)
    {
      accounts := Increment(accounts, a, change);
    }

    /** `budget.upsert` keyed by user: creates the budget or overwrites its amount. */
    method UpsertBudget(u: UserId, amount: int)
      modifies this`budgets
      ensures budgets == old(budgets)[u := amount]
    {
      budgets := budgets[u := amount];
    }
  }
}
