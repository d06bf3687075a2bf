/**
 * Account-balance bookkeeping.  A transaction moves its account's balance by a signed
 * delta; the stored balances are reconciled when every account's balance is the sum of
 * the deltas of the transactions booked on it.  Sums over the transaction table run over
 * the ids below the store's id counter, in id order.
 */
module Ledger {
  import opened Calendar
  import opened Store

  /** The balance change of a transaction: an expense takes its amount off, any other type
      adds it. */
  function SignedDelta(kind: TransactionType, amount: int): (delta: int)
    ensures delta == amount || delta == -amount
    ensures kind == Expense ==> delta == -amount
    ensures kind == Income ==> delta == amount
  {
    if kind == Expense then -amount else amount
  }

  /** A quantity summed over the transaction table. */
  datatype Tally =
    | AccountDeltas(accountId: AccountId)              // the deltas booked on one account
    | ExpensesOf(userId: UserId, from: Date, to: Date) // one user's expense amounts in a date range

  function Weight(q: Tally, t: Transaction): int {
    match q
    case AccountDeltas(a) =>
      if t.accountId == a then SignedDelta(t.kind, t.amount) else 0
    case ExpensesOf(u, from, to) =>
      if t.userId == u && t.kind == Expense && OnOrBefore(from, t.date) && OnOrBefore(t.date, to)
      then t.amount else 0
  }

  /** The sum of `Weight(q, _)` over the rows whose id is below `n`. */
  function Total(txs: map<TransactionId, Transaction>, q: Tally, n: nat): int {
    if n == 0 then 0
    else Total(txs, q, n - 1) + (if n - 1 in txs then Weight(q, txs[n - 1]) else 0)
  }

  /** Writing one row changes a total by the difference of that row's weights, and not at
      all when the row lies at or beyond `n`. */
  lemma {:induction false} TotalAfterWrite(txs: map<TransactionId, Transaction>, q: Tally, n: nat,
                                           id: TransactionId, t: Transaction)
    ensures Total(txs[id := t], q, n)
         == Total(txs, q, n)
            + (if id < n then Weight(q, t) - (if id in txs then Weight(q, txs[id]) else 0) else 0)
  {
    if n > 0 {
      TotalAfterWrite(txs, q, n - 1, id, t);
    }
  }

  /** A row inserted under the next id adds its weight to the total. */
  lemma TotalAfterInsert(txs: map<TransactionId, Transaction>, q: Tally, n: nat, t: Transaction)
    requires n !in txs
    ensures Total(txs[n := t], q, n + 1) == Total(txs, q, n) + Weight(q, t)
  {
    TotalAfterWrite(txs, q, n + 1, n, t);
  }

  /** When no row below `n` has weight, the total is 0. */
  lemma {:induction false} TotalOfNoMatches(txs: map<TransactionId, Transaction>, q: Tally, n: nat)
    requires forall id :: id in txs && id < n ==> Weight(q, txs[id]) == 0
    ensures Total(txs, q, n) == 0
  {
    if n > 0 {
      TotalOfNoMatches(txs, q, n - 1);
    }
  }

  /** Every account's balance is the sum of the deltas of the transactions booked on it. */
  ghost predicate Reconciled(accounts: map<AccountId, Account>, txs: map<TransactionId, Transaction>, n: nat) {
    forall a :: a in accounts ==> accounts[a].balance == Total(txs, AccountDeltas(a), n)
  }

  /** Every transaction sits on an existing account that belongs to the transaction's owner. */
  predicate OwnedByAccountHolder(accounts: map<AccountId, Account>, txs: map<TransactionId, Transaction>) {
    forall id :: id in txs ==>
      txs[id].accountId in accounts && accounts[txs[id].accountId].userId == txs[id].userId
  }

  /** The balance writes of an edit that turns `before` into `after`: on the same account one
      net increment, otherwise the old delta is taken off the old account and the new delta
      is added to the new one. */
  function Rebook(accounts: map<AccountId, Account>, before: Transaction, after: Transaction): (r: map<AccountId, Account>)
    requires before.accountId in accounts && after.accountId in accounts
    ensures r.Keys == accounts.Keys
    ensures forall b :: b in accounts ==> r[b].userId == accounts[b].userId
    ensures forall b :: b in accounts && b != before.accountId && b != after.accountId ==> r[b] == accounts[b]
    ensures before.accountId == after.accountId ==>
              r[after.accountId].balance == accounts[after.accountId].balance
                + SignedDelta(after.kind, after.amount) - SignedDelta(before.kind, before.amount)
    ensures before.accountId != after.accountId ==>
              && r[before.accountId].balance
                 == accounts[before.accountId].balance - SignedDelta(before.kind, before.amount)
              && r[after.accountId].balance
                 == accounts[after.accountId].balance + SignedDelta(after.kind, after.amount)
  {
    var oldDelta := SignedDelta(before.kind, before.amount);
    var newDelta := SignedDelta(after.kind, after.amount);
    if after.accountId != before.accountId then
      Increment(Increment(accounts, before.accountId, -oldDelta), after.accountId, newDelta)
    else
      Increment(accounts, after.accountId, newDelta - oldDelta)
  }

  /** On one account the net increment is the same as reversing the old delta and then
      applying the new one, so both branches of `Rebook` book the same change. */
  lemma NetIncrementIsReverseThenApply(accounts: map<AccountId, Account>, before: Transaction, after: Transaction)
    requires before.accountId == after.accountId && after.accountId in accounts
    ensures Rebook(accounts, before, after)
         == Increment(Increment(accounts, before.accountId, -SignedDelta(before.kind, before.amount)),
                      after.accountId, SignedDelta(after.kind, after.amount))
  {
  }

  /** Booking a new transaction's delta on its account while inserting it keeps the
      balances reconciled. */
  lemma InsertKeepsReconciled(accounts: map<AccountId, Account>, txs: map<TransactionId, Transaction>,
                              n: nat, t: Transaction)
    requires Reconciled(accounts, txs, n) && n !in txs && t.accountId in accounts
    ensures Reconciled(Increment(accounts, t.accountId, SignedDelta(t.kind, t.amount)), txs[n := t], n + 1)
  {
    var accounts' := Increment(accounts, t.accountId, SignedDelta(t.kind, t.amount));
    forall a | a in accounts'
      ensures accounts'[a].balance == Total(txs[n := t], AccountDeltas(a), n + 1)
    {
      TotalAfterInsert(txs, AccountDeltas(a), n, t);
    }
  }

  /** Rebooking an edited transaction while replacing its row keeps the balances reconciled. */
  lemma ReplaceKeepsReconciled(accounts: map<AccountId, Account>, txs: map<TransactionId, Transaction>,
                               n: nat, id: TransactionId, t: Transaction)
    requires Reconciled(accounts, txs, n) && id in txs && id < n
    requires txs[id].accountId in accounts && t.accountId in accounts
    ensures Reconciled(Rebook(accounts, txs[id], t), txs[id := t], n)
  {
    var accounts' := Rebook(accounts, txs[id], t);
    forall a | a in accounts'
      ensures accounts'[a].balance == Total(txs[id := t], AccountDeltas(a), n)
    {
      TotalAfterWrite(txs, AccountDeltas(a), n, id, t);
    }
  }

  /** Inserting a transaction on an account of its owner keeps every transaction on an
      account of its owner. */
  lemma InsertKeepsOwnership(accounts: map<AccountId, Account>, txs: map<TransactionId, Transaction>,
                             n: nat, t: Transaction)
    requires OwnedByAccountHolder(accounts, txs)
    requires t.accountId in accounts && accounts[t.accountId].userId == t.userId
    ensures OwnedByAccountHolder(Increment(accounts, t.accountId, SignedDelta(t.kind, t.amount)), txs[n := t])
  {
  }

  /** After an edit that keeps the owner, every transaction is still on an account of its
      owner exactly when the edited one's new account belongs to that owner. */
  lemma ReplaceOwnership(accounts: map<AccountId, Account>, txs: map<TransactionId, Transaction>,
                         id: TransactionId, t: Transaction)
    requires OwnedByAccountHolder(accounts, txs) && id in txs && t.userId == txs[id].userId
    requires t.accountId in accounts
    ensures OwnedByAccountHolder(Rebook(accounts, txs[id], t), txs[id := t])
        <==> accounts[t.accountId].userId == t.userId
  {
    var accounts' := Rebook(accounts, txs[id], t);
    if accounts[t.accountId].userId != t.userId {
      assert txs[id := t][id] == t;
    }
  }
}
