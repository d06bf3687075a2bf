# Wealth app: account-balance bookkeeping, recurrence dates and budgets

A Dafny model of the server actions of a personal-finance web application. Users hold
accounts, record INCOME and EXPENSE transactions on them, and set one monthly budget each.
The model covers three things:

- **Balance reconciliation** (`actions/transaction.js`).
  - Creating a transaction books its signed delta on the chosen account. An expense subtracts its amount; any other type adds it.
  - Editing a transaction reverses the old delta and applies the new one. On the same account this is one net increment. When the transaction moves, the old account is decremented and the new one incremented.
  - The row write and the balance writes form one atomic unit.
  - The invariant: every account's balance is the sum of the deltas of the transactions booked on it. Both actions keep it.
- **The recurrence date calculator** (`calculateNextRecurringDate`).
  - It copies the start date into a JavaScript `Date` and moves it with `setDate`, `setMonth` or `setFullYear`.
  - Those setters normalise overflow: January 31 plus one month is March 2 in a leap year, and February 29 plus one year is March 1.
- **Budgets** (`actions/budget.js`).
  - Reading a budget returns it together with the sum of the caller's expenses in the current month. The month runs from the 1st to "day 0 of the next month".
  - Setting a budget is an upsert keyed by the user.

Modules follow the program:

- `Wrappers`: `Option` and `Result`.
- `Calendar`: calendar days with the `Date` object's normalisation (`MakeDate`). It also has a mutable `JsDate` class whose setters change it in place.
- `Store`: the backing tables as a `Database` class holding maps, and the store writes the actions make.
- `Ledger`: sums over the transaction table, the reconciliation invariant and the edit's balance writes (`Rebook`).
- `TransactionActions` and `BudgetActions`: the server actions.

Inputs that the source reads from outside:

- The authenticated caller is an `Option<ClerkUserId>`.
- The rate limiter's verdict is a `Decision` (allowed, rate-limited, blocked).
- The current day is a `ValidDate` parameter.
- Money is integer cents.
- Dates are whole calendar days, with months numbered 0..11 as `getMonth()` returns them.

In the model each action checks all of its failure conditions before its first write, so it either fails with the store unchanged (`unchanged(db)`) or performs all of its writes. In the source, an edit naming a missing account fails inside the atomic unit and is rolled back, which leaves the store just as unchanged.

Two gaps in the code's checks carry over into the model:

- The code has no check that the amount is positive. The model accepts any integer amount and has no invalid-input error.
- The code does not check that an edit's new account belongs to the caller; see Findings.

## Model

| member | source | states |
|---|---|---|
| Ledger.SignedDelta | actions/transaction.js:146-147 | the delta is −amount for an EXPENSE and +amount otherwise; its magnitude is the amount (create uses the same rule at line 58) |
| Ledger.TotalAfterWrite | actions/transaction.js:152-158 | writing one row changes any sum over the table by the new row's weight minus the old row's, and not at all for an id beyond the range |
| Ledger.TotalAfterInsert | actions/transaction.js:62-68 | inserting a row under the next id adds exactly its weight to a sum over the table |
| Ledger.TotalOfNoMatches | actions/budget.js:53-55 | a sum over rows none of which match is 0 |
| Ledger.Rebook | actions/transaction.js:160-174 | same account: balance + newDelta − oldDelta; moved: old account − oldDelta, new account + newDelta; no third account changes, no owner changes |
| Ledger.NetIncrementIsReverseThenApply | actions/transaction.js:169-173 | on one account the single net increment equals reversing the old delta then applying the new one |
| Ledger.InsertKeepsReconciled | actions/transaction.js:58-76 | if every balance equals the sum of its transactions' deltas, it still does after a create books the delta and inserts the row |
| Ledger.ReplaceKeepsReconciled | actions/transaction.js:146-174 | the same invariant survives an edit's row rewrite and rebooking, whether or not the account changes |
| Ledger.InsertKeepsOwnership | actions/transaction.js:51-68 | a create on an account of the caller keeps every transaction on an account of its owner |
| Ledger.ReplaceOwnership | actions/transaction.js:160-168 | after an edit, every transaction is on an account of its owner if and only if the new account belongs to the transaction's owner |
| Store.Increment | actions/transaction.js:161-173 | an increment changes one account's balance by the given amount and leaves every other account and all keys as they were |
| Store.Database.CreateTransactionRow | actions/transaction.js:62-68 | inserts the row under a fresh id; nothing but the transaction table and the id counter changes |
| Store.Database.UpdateTransactionRow | actions/transaction.js:152-158 | replaces the row under an existing id |
| Store.Database.SetBalance | actions/transaction.js:70-73 | writes an absolute balance on one account |
| Store.Database.IncrementBalance | actions/transaction.js:161-173 | increments (or, with a negative change, decrements) one account's balance |
| Store.Database.UpsertBudget | actions/budget.js:76-87 | the user's budget amount is set, created if absent |
| Calendar.JsDate.constructor | actions/transaction.js:89 | the date object is a fresh copy of the start date |
| Calendar.JsDate.SetDate | actions/transaction.js:93 | `setDate(d)` gives `MakeDate(year, month, d)` |
| Calendar.JsDate.SetMonth | actions/transaction.js:99 | `setMonth(m)` gives `MakeDate(year, m, day)` |
| Calendar.JsDate.SetFullYear | actions/transaction.js:102 | `setFullYear(y)` gives `MakeDate(y, month, day)` |
| Calendar.MakeDate | actions/transaction.js:93-102 | `new Date(y, m, d)` and the setters' date arithmetic: the month index is folded into the year by floor division; a day that fits that month is kept as it is, and any other day spills forward or back into neighbouring months (the spill is stated by `NormalizeSucc`, `MakeDateRollsOver` and `MakeDateDayZero`) |
| Calendar.NormalizeValid | actions/transaction.js:89 | a real calendar day is its own normal form |
| Calendar.NormalizeSucc | actions/transaction.js:93 | one more day number through the overflow normalisation is exactly one step of `Tomorrow` |
| Calendar.MakeDateAddsDays | actions/transaction.js:92-97 | `setDate(getDate() + n)` lands n calendar days later, by the reference definition `AddDays` |
| Calendar.AddDaysIsLater | actions/transaction.js:92-97 | a positive number of days later is strictly later |
| Calendar.MakeDateRollsOver | actions/transaction.js:101-103 | same month index with day ≤ 31: the day itself when it fits, otherwise the excess counted into the following month |
| Calendar.MakeDateNextMonth | actions/transaction.js:98-100 | month index + 1 is the next month (December carries into January of the next year), with the overflowing day rolled into the month after |
| Calendar.MakeDateDayZero | actions/budget.js:31-35 | day 0 of the next month is the last day of this month |
| TransactionActions.CalculateNextRecurringDate | actions/transaction.js:88-106 | the setter-based calculation equals the calendar meaning: next day, seven days on, same day next month or next year with overflow rolled forward, or the start date itself for an unknown tag; the argument is a value copied, never changed |
| TransactionActions.NextRecurringDateIsLater | actions/transaction.js:88-106 | the next occurrence is never before the start, and equals it exactly for an unrecognised tag |
| TransactionActions.MonthlyFromJanuary31 | actions/transaction.js:98-100 | monthly from January 31 is March 2 in 2024 and March 3 in 2023 |
| TransactionActions.YearlyFromLeapDay | actions/transaction.js:101-103 | yearly from February 29 is March 1 of the next year |
| TransactionActions.ScheduledNext | actions/transaction.js:66 | the stored next occurrence is null unless the transaction is recurring and its interval tag is present and non-empty (truthy), and otherwise is the next occurrence after its date |
| TransactionActions.EmptyIntervalTagSchedulesNothing | actions/transaction.js:66 | a recurring transaction with the empty tag gets no next occurrence; a non-empty unknown tag keeps the start date |
| Store.Message | actions/transaction.js:17-144 | each error carries the non-empty text the actions throw ("Unauthorized", "Too many requests. Please try again later.", "Request Blocked.", "User not found", "Account not found", "Transaction not found"); a store failure has no text of its own, since the actions rethrow the store's message (line 83) |
| TransactionActions.NextOccurrence | actions/transaction.js:156 | the next occurrence is recomputed from the form's date and interval by the same rule |
| TransactionActions.CreateTransaction | actions/transaction.js:14-85 | fails, with the store unchanged, on no caller, rate limiting, other denial, missing user, or an account missing or not the caller's, in that order; otherwise inserts exactly one row owned by the caller under the next id, advances the id counter by one, and moves only the chosen account by the signed delta; keeps the balances reconciled and the ownership invariant |
| TransactionActions.GetTransaction | actions/transaction.js:109-126 | succeeds exactly for the caller's own transaction and returns that row; otherwise Unauthorized, User not found or Transaction not found |
| TransactionActions.UpdateTransaction | actions/transaction.js:128-186 | fails exactly as the lookup does; fails on a missing account with the store unchanged; otherwise rewrites the row (same owner, next occurrence recomputed) and rebooks old and new deltas; keeps balances reconciled; keeps ownership only when the new account is the caller's |
| TransactionActions.CommitEdit | actions/transaction.js:151-177 | the atomic unit of an edit: the row rewrite together with `Rebook`'s balance writes, nothing else |
| TransactionActions.UpdateTransactionChecked | actions/transaction.js:160-173 | the edit with the ownership check added: fails with Account not found on an account not the caller's; on success rewrites the row, rebooks as `Rebook` does and leaves the id counter unchanged; keeps balances reconciled and every transaction on an account of its owner |
| TransactionActions.ForeignAccountEditWitness | actions/transaction.js:160-168 | a user moving their own transaction onto another user's account succeeds and breaks the ownership invariant |
| BudgetActions.MonthWindow | actions/budget.js:25-35 | the window runs from the 1st to the last day of the current month |
| BudgetActions.InMonthWindow | actions/budget.js:41-44 | a day lies in the window if and only if it is in the current month and year |
| BudgetActions.MonthlyExpensesWeight | actions/budget.js:37-49 | a transaction contributes its amount exactly when it is the caller's EXPENSE dated this month, else 0 |
| BudgetActions.NoExpensesThisMonthIsZero | actions/budget.js:53-55 | with no matching transaction the expense total is 0 |
| BudgetActions.InsertedExpenseRaisesTotal | actions/budget.js:37-56 | a created transaction raises the month's expenses by its amount if it is the caller's expense this month, and leaves them unchanged otherwise |
| BudgetActions.CreateThenReadBudget | actions/budget.js:37-56 | after a successful create, the caller's next budget read returns the same budget, and its month expense total is higher by the new amount exactly when the new transaction is an expense dated this month |
| BudgetActions.GetCurrentBudget | actions/budget.js:7-61 | fails on no caller or no user; otherwise the budget is null exactly when the user has none, else that budget with its amount; the expense total is the windowed EXPENSE sum |
| BudgetActions.UpdateBudget | actions/budget.js:63-98 | reports failure as a value with the store unchanged; on success the caller's budget is created or its amount replaced, other users' budgets and all other tables are untouched, and a later read returns that budget |

## Findings

| source | as written | input that shows it | evidently intended | confidence | as-written member | corrected member |
|---|---|---|---|---|---|---|
| actions/transaction.js:160-168 | an edit moves the transaction to `data.accountId` and books its delta there without checking who owns that account | a user edits their own transaction and sets `accountId` to another user's account: the edit succeeds, the other user's balance moves, and the transaction sits on an account its owner does not hold | reject with "Account not found", as the create path does at actions/transaction.js:51-56 | not executed; high | TransactionActions.UpdateTransaction, shown by TransactionActions.ForeignAccountEditWitness | TransactionActions.UpdateTransactionChecked |

## Left out

- The identity provider's `auth()` and the route protection are not modelled. The caller is an optional id. `ClerkUserId` excludes the empty string, so `None` stands for both a missing and an empty id, which the source refuses alike.
- The rate limiter is a `Decision` input. Its `remaining`/`reset` details are only logged and are left out.
- Store I/O, locking and concurrency are not modelled. The read of the balance at actions/transaction.js:59 followed by an absolute write at line 72 allows a lost update under concurrent requests. The model is sequential and does not capture that race.
- Store failures other than a write naming a missing account (connection loss, timeouts) are not modelled; the all-or-nothing shape of every action covers them the same way.
- `Decimal.toNumber()` and JavaScript number arithmetic are not modelled: money is integer cents. Under that choice `serializeAmount` is the identity, so the actions return the stored row and it has no member of its own.
- Time of day, time zones and daylight saving are not modelled. Dates are whole calendar days. In the source, `lte endOfMonth` is midnight at the start of the last day, so a transaction later on that day is excluded. The model includes the whole last day.
- The code has no check that the amount is positive; the model accepts any integer amount and has no invalid-input error.
- Form fields that `...data` copies and that neither the balances nor the sums read (description, category and the like) are left out of `TransactionData`.
- TransactionActions.UpdateTransaction: the model's `data` carries only the form's fields. The source spreads `...data` into the row write at actions/transaction.js:155 without overriding `userId` (create overrides it at line 65), so a client-supplied `userId` or `id` would be written too and could re-own the row. The model does not capture that; its rows keep their owner.
- An empty interval tag counts as no interval, as the falsy test at actions/transaction.js:66 and 156 treats it. The store's schema is not part of this model: the type is taken as its two values, while the interval tag is stored as given, so an unknown non-empty tag reaches the calculator's default branch. By convention `Unrecognised(tag)` carries only tags other than "DAILY", "WEEKLY", "MONTHLY" and "YEARLY"; those four are the constructors `Daily`, `Weekly`, `Monthly` and `Yearly`. An `Unrecognised` value holding one of them would be a second encoding that the model treats as unknown, and no member checks for it.
- The transaction type has the two values INCOME and EXPENSE, so "any other type" than EXPENSE is INCOME.
- Transaction ids come from the store's counter. The users table is read-only here.
- `revalidatePath` cache invalidation and console logging are not modelled; they hold no state the model needs.
- The Inngest client configuration (lib/inngest/client.js), the UI components, proxy.js and debug-prisma.js are not part of this model.
