/**
 * Properties of the transaction service proved against the reference
 * definitions: the order in which errors are reported, conservation of
 * money, the daily total, the store invariant, and the read operations.
 */
module TransactionProperties {
  import opened Wrappers
  import opened Domain
  import opened Repository
  import opened LedgerSpec
  import opened PolicyRules
  import opened Invariants
  import opened TransactionService
  import opened AccountService

  /** Appending one record moves the service's daily total by that record's amount when it counts, else not at all. */
  lemma WithdrawnTodayAppend(log: seq<Transaction>, t: Transaction, accountId: AccountId, clock: Clock)
    ensures WithdrawnToday(log + [t], accountId, clock)
            == WithdrawnToday(log, accountId, clock) + (if CountsTowardDailyLimit(t, accountId, clock) then t.amount else 0.0)
  {
    var inWindow := FromAccountBetween(accountId, clock.dayStart, clock.dayEnd);
    var isWithdrawal := IsType(WithdrawalTx);
    var before := Filter(log, inWindow);
    var after := Filter(log + [t], inWindow);
    assert WithdrawnToday(log, accountId, clock) == SumAmounts(Filter(before, isWithdrawal));
    assert WithdrawnToday(log + [t], accountId, clock) == SumAmounts(Filter(after, isWithdrawal));
    FilterAppendOne(log, t, inWindow);
    if inWindow(t) {
      assert after == before + [t];
      FilterAppendOne(before, t, isWithdrawal);
      if isWithdrawal(t) {
        assert Filter(after, isWithdrawal) == Filter(before, isWithdrawal) + [t];
        SumAmountsAppendOne(Filter(before, isWithdrawal), t);
      } else {
        assert Filter(after, isWithdrawal) == Filter(before, isWithdrawal);
      }
    } else {
      assert after == before;
    }
  }

  /**
   * The service's query-filter-sum pipeline computes exactly the reference
   * daily total: RETIRO records from the account stamped within the day.
   */
  lemma {:induction false} WithdrawnTodayMatchesReference(log: seq<Transaction>, accountId: AccountId, clock: Clock)
    ensures WithdrawnToday(log, accountId, clock) == DailyWithdrawals(log, accountId, clock)
    decreases |log|
  {
    if log != [] {
      var init, t := log[..|log| - 1], log[|log| - 1];
      assert log == init + [t];
      WithdrawnTodayAppend(init, t, accountId, clock);
      WithdrawnTodayMatchesReference(init, accountId, clock);
    }
  }

  lemma FirstViolationCons(r: Rule, rest: seq<Rule>)
    ensures FirstViolation([r] + rest) == if r.violated then Some(r.error) else FirstViolation(rest)
  {
    assert ([r] + rest)[1..] == rest;
  }

  /** Rule tables of four and six rows, unrolled. */
  lemma FirstViolationOfFour(r0: Rule, r1: Rule, r2: Rule, r3: Rule)
    ensures FirstViolation([r0, r1, r2, r3])
            == if r0.violated then Some(r0.error)
               else if r1.violated then Some(r1.error)
               else if r2.violated then Some(r2.error)
               else if r3.violated then Some(r3.error)
               else None
  {
    FirstViolationCons(r3, []);
    assert [r3] + [] == [r3];
    FirstViolationCons(r2, [r3]);
    FirstViolationCons(r1, [r2, r3]);
    FirstViolationCons(r0, [r1, r2, r3]);
    assert [r0] + [r1, r2, r3] == [r0, r1, r2, r3];
    assert [r1] + [r2, r3] == [r1, r2, r3];
    assert [r2] + [r3] == [r2, r3];
  }

  lemma FirstViolationOfSix(r0: Rule, r1: Rule, r2: Rule, r3: Rule, r4: Rule, r5: Rule)
    ensures FirstViolation([r0, r1, r2, r3, r4, r5])
            == if r0.violated then Some(r0.error)
               else if r1.violated then Some(r1.error)
               else FirstViolation([r2, r3, r4, r5])
  {
    var rules := [r0, r1, r2, r3, r4, r5];
    assert rules[1..] == [r1, r2, r3, r4, r5];
    assert rules[1..][1..] == [r2, r3, r4, r5];
  }

  /** Deposit errors: unknown account first, then the one-row table (not ACTIVA). */
  lemma DepositReportsFirstViolation(b: Bank, accountId: AccountId, amount: Money, clock: Clock)
    ensures accountId !in b.accounts ==> Deposit(b, accountId, amount, clock).result == Failure(AccountNotFound(accountId))
    ensures accountId in b.accounts ==>
              var first := FirstViolation(DepositRules(b.accounts[accountId]));
              && (Deposit(b, accountId, amount, clock).result.Success? <==> first.None?)
              && (first.Some? ==> Deposit(b, accountId, amount, clock).result == Failure(first.value))
  {
    if accountId in b.accounts {
      FirstViolationCons(DepositRules(b.accounts[accountId])[0], []);
      assert DepositRules(b.accounts[accountId]) == [DepositRules(b.accounts[accountId])[0]] + [];
    }
  }

  /**
   * Withdrawal errors come in a fixed order: unknown account, then the rule
   * table (not ACTIVA, insufficient funds, below floor, daily limit); the
   * withdrawal succeeds exactly when no rule is violated.
   */
  lemma WithdrawReportsFirstViolation(b: Bank, accountId: AccountId, amount: Money, clock: Clock)
    ensures accountId !in b.accounts ==> Withdraw(b, accountId, amount, clock).result == Failure(AccountNotFound(accountId))
    ensures accountId in b.accounts ==>
              var first := FirstViolation(WithdrawalRules(b.accounts[accountId], amount, DailyWithdrawals(b.log, accountId, clock)));
              && (Withdraw(b, accountId, amount, clock).result.Success? <==> first.None?)
              && (first.Some? ==> Withdraw(b, accountId, amount, clock).result == Failure(first.value))
  {
    if accountId in b.accounts {
      var a := b.accounts[accountId];
      var today := DailyWithdrawals(b.log, accountId, clock);
      WithdrawnTodayMatchesReference(b.log, accountId, clock);
      var rules := WithdrawalRules(a, amount, today);
      assert rules == [rules[0], rules[1], rules[2], rules[3]];
      FirstViolationOfFour(rules[0], rules[1], rules[2], rules[3]);
    }
  }

  /**
   * Transfer errors come in a fixed order: unknown destination, unknown
   * origin, then the rule table (transfer limit, same account, either side
   * not ACTIVA, insufficient funds, below floor, daily limit).
   */
  lemma TransferReportsFirstViolation(b: Bank, originId: AccountId, destinationId: AccountId, amount: Money, clock: Clock)
    ensures destinationId !in b.accounts ==>
              Transfer(b, originId, destinationId, amount, clock).result == Failure(AccountNotFound(destinationId))
    ensures destinationId in b.accounts && originId !in b.accounts ==>
              Transfer(b, originId, destinationId, amount, clock).result == Failure(AccountNotFound(originId))
    ensures originId in b.accounts && destinationId in b.accounts ==>
              var first := FirstViolation(TransferRules(b.accounts[originId], b.accounts[destinationId],
                                                        originId == destinationId, amount,
                                                        DailyWithdrawals(b.log, originId, clock)));
              && (Transfer(b, originId, destinationId, amount, clock).result.Success? <==> first.None?)
              && (first.Some? ==> Transfer(b, originId, destinationId, amount, clock).result == Failure(first.value))
  {
    if originId in b.accounts && destinationId in b.accounts {
      var o, d := b.accounts[originId], b.accounts[destinationId];
      var today := DailyWithdrawals(b.log, originId, clock);
      WithdrawnTodayMatchesReference(b.log, originId, clock);
      var rules := TransferRules(o, d, originId == destinationId, amount, today);
      assert rules == [rules[0], rules[1], rules[2], rules[3], rules[4], rules[5]];
      FirstViolationOfSix(rules[0], rules[1], rules[2], rules[3], rules[4], rules[5]);
      FirstViolationOfFour(rules[2], rules[3], rules[4], rules[5]);
    }
  }

  /** A transfer from an account to itself within its transfer limit always fails as a self-transfer. */
  lemma SelfTransferIsRejected(b: Bank, accountId: AccountId, amount: Money, clock: Clock)
    requires accountId in b.accounts && amount <= b.accounts[accountId].transferLimit
    ensures Transfer(b, accountId, accountId, amount, clock).result == Failure(SelfTransfer)
    ensures Transfer(b, accountId, accountId, amount, clock).bank == b
  {
    TransferReportsFirstViolation(b, accountId, accountId, amount, clock);
  }

  /** BLOQUEADA and CERRADA accounts take part in no money movement, on either side of a transfer. */
  lemma NonActiveAccountRejectsMoneyMovement(b: Bank, accountId: AccountId, otherId: AccountId, amount: Money, clock: Clock)
    requires accountId in b.accounts && b.accounts[accountId].status != Active
    requires otherId in b.accounts && otherId != accountId
    ensures Deposit(b, accountId, amount, clock).result == Failure(InactiveAccount)
    ensures Withdraw(b, accountId, amount, clock).result == Failure(InactiveAccount)
    ensures amount <= b.accounts[accountId].transferLimit ==>
              Transfer(b, accountId, otherId, amount, clock).result == Failure(InactiveAccounts)
    ensures amount <= b.accounts[otherId].transferLimit ==>
              Transfer(b, otherId, accountId, amount, clock).result == Failure(InactiveAccounts)
  {
  }

  /** A successful transfer leaves the total of all balances unchanged. */
  lemma TransferConservesMoney(b: Bank, originId: AccountId, destinationId: AccountId, amount: Money, clock: Clock)
    requires Transfer(b, originId, destinationId, amount, clock).result.Success?
    ensures Total(Transfer(b, originId, destinationId, amount, clock).bank.accounts) == Total(b.accounts)
  {
    var o := Transfer(b, originId, destinationId, amount, clock);
    TotalAfterReplay(b.accounts, o.result.value);
  }

  /** A successful deposit raises the total of all balances by the amount. */
  lemma DepositAddsAmountToTotal(b: Bank, accountId: AccountId, amount: Money, clock: Clock)
    requires Deposit(b, accountId, amount, clock).result.Success?
    ensures Total(Deposit(b, accountId, amount, clock).bank.accounts) == Total(b.accounts) + amount
  {
    var o := Deposit(b, accountId, amount, clock);
    TotalAfterReplay(b.accounts, o.result.value);
  }

  /** A successful withdrawal lowers the total of all balances by the amount. */
  lemma WithdrawRemovesAmountFromTotal(b: Bank, accountId: AccountId, amount: Money, clock: Clock)
    requires Withdraw(b, accountId, amount, clock).result.Success?
    ensures Total(Withdraw(b, accountId, amount, clock).bank.accounts) == Total(b.accounts) - amount
  {
    var o := Withdraw(b, accountId, amount, clock);
    TotalAfterReplay(b.accounts, o.result.value);
  }

  /**
   * After a successful withdrawal stamped within today's window, the
   * account's withdrawals of the day, the new one included, stay within
   * its daily limit.
   */
  lemma WithdrawKeepsDailyTotalWithinLimit(b: Bank, accountId: AccountId, amount: Money, clock: Clock)
    requires Withdraw(b, accountId, amount, clock).result.Success?
    requires clock.dayStart <= clock.now <= clock.dayEnd
    ensures DailyWithdrawals(Withdraw(b, accountId, amount, clock).bank.log, accountId, clock)
            == DailyWithdrawals(b.log, accountId, clock) + amount
    ensures DailyWithdrawals(Withdraw(b, accountId, amount, clock).bank.log, accountId, clock)
            <= b.accounts[accountId].dailyWithdrawalLimit
  {
    var o := Withdraw(b, accountId, amount, clock);
    WithdrawnTodayMatchesReference(b.log, accountId, clock);
    DailyWithdrawalsAppend(b.log, o.result.value, accountId, clock);
  }

  /**
   * A transfer checks its amount against the origin's daily limit but is not
   * itself counted: no account's withdrawals of the day change.
   */
  lemma TransferLeavesDailyTotals(b: Bank, originId: AccountId, destinationId: AccountId, amount: Money, clock: Clock, k: AccountId)
    requires Transfer(b, originId, destinationId, amount, clock).result.Success?
    ensures DailyWithdrawals(Transfer(b, originId, destinationId, amount, clock).bank.log, k, clock)
            == DailyWithdrawals(b.log, k, clock)
  {
    var o := Transfer(b, originId, destinationId, amount, clock);
    DailyWithdrawalsAppend(b.log, o.result.value, k, clock);
  }

  /** Appending a well-formed record with the next identity, replayed on the table, keeps the store valid. */
  lemma RecordingPreservesValid(b: Bank, after: Bank, t: Transaction)
    requires Valid(b)
    requires Records(b, after, t)
    requires t.id == |b.log| + 1 && WellFormedRecord(t, b.accounts)
    ensures Valid(after)
  {
    assert after.accounts.Keys == b.accounts.Keys;
    forall i | 0 <= i < |after.log|
      ensures after.log[i].id == i + 1 && WellFormedRecord(after.log[i], after.accounts)
    {
      if i < |b.log| {
        assert after.log[i] == b.log[i];
      }
    }
  }

  lemma DepositPreservesValid(b: Bank, accountId: AccountId, amount: Money, clock: Clock)
    requires Valid(b)
    ensures Valid(Deposit(b, accountId, amount, clock).bank)
  {
    var o := Deposit(b, accountId, amount, clock);
    if o.result.Success? {
      RecordingPreservesValid(b, o.bank, o.result.value);
    }
  }

  lemma WithdrawPreservesValid(b: Bank, accountId: AccountId, amount: Money, clock: Clock)
    requires Valid(b)
    ensures Valid(Withdraw(b, accountId, amount, clock).bank)
  {
    var o := Withdraw(b, accountId, amount, clock);
    if o.result.Success? {
      RecordingPreservesValid(b, o.bank, o.result.value);
    }
  }

  lemma TransferPreservesValid(b: Bank, originId: AccountId, destinationId: AccountId, amount: Money, clock: Clock)
    requires Valid(b)
    ensures Valid(Transfer(b, originId, destinationId, amount, clock).bank)
  {
    var o := Transfer(b, originId, destinationId, amount, clock);
    if o.result.Success? {
      RecordingPreservesValid(b, o.bank, o.result.value);
    }
  }

  lemma ChangeStatusPreservesValid(b: Bank, accountId: AccountId, requested: AccountStatus)
    requires Valid(b)
    ensures Valid(ChangeStatus(b, accountId, requested).bank)
  {
    var o := ChangeStatus(b, accountId, requested);
    if o.result.Success? {
      assert o.bank.accounts.Keys == b.accounts.Keys;
      forall i | 0 <= i < |o.bank.log|
        ensures WellFormedRecord(o.bank.log[i], o.bank.accounts)
      {
        assert WellFormedRecord(b.log[i], b.accounts);
      }
    }
  }

  lemma OpenAccountPreservesValid(b: Bank, clients: set<ClientId>, owner: ClientId, accountType: AccountType, terms: AccountTerms)
    requires Valid(b)
    ensures Valid(OpenAccount(b, clients, owner, accountType, terms).bank)
  {
    var o := OpenAccount(b, clients, owner, accountType, terms);
    if o.result.Success? {
      forall i | 0 <= i < |o.bank.log|
        ensures WellFormedRecord(o.bank.log[i], o.bank.accounts)
      {
        assert WellFormedRecord(b.log[i], b.accounts);
      }
    }
  }

  /** In a valid store, record identities are positions: `buscarPorId` finds record `id` exactly when it was the id-th stored. */
  lemma FindTransactionByPosition(b: Bank, id: TransactionId)
    requires Valid(b)
    ensures 1 <= id <= |b.log| ==> FindTransaction(b, id) == Success(b.log[id - 1])
    ensures !(1 <= id <= |b.log|) ==> FindTransaction(b, id) == Failure(TransactionNotFound(id))
  {
    var r := FindTransaction(b, id);
    if 1 <= id <= |b.log| {
      assert b.log[id - 1] in b.log;
      var i :| 0 <= i < |b.log| && b.log[i] == r.value;
    } else {
      forall t | t in b.log
        ensures t.id != id
      {
        var i :| 0 <= i < |b.log| && b.log[i] == t;
      }
    }
  }

  /** The record returned by a successful operation can be looked up by its identity afterwards. */
  lemma StoredRecordIsFound(b: Bank, after: Bank, t: Transaction)
    requires Valid(b)
    requires Records(b, after, t)
    requires t.id == |b.log| + 1 && WellFormedRecord(t, b.accounts)
    ensures FindTransaction(after, t.id) == Success(t)
  {
    RecordingPreservesValid(b, after, t);
    FindTransactionByPosition(after, t.id);
  }

  /** Listings are append-only: an account's listing after a recorded operation extends the one before. */
  lemma ListingByAccountGrows(b: Bank, after: Bank, t: Transaction, accountId: AccountId)
    requires Records(b, after, t)
    ensures ListTransactionsByAccount(after, accountId)
            == ListTransactionsByAccount(b, accountId)
               + (if t.origin == Some(accountId) || t.destination == Some(accountId) then [t] else [])
  {
    FilterAppendOne(b.log, t, Touches(accountId));
  }

  /**
   * `listarTransacciones` lists the whole table in insertion order: in a
   * valid store the i-th listed record is the one `buscarPorId` finds under
   * identity i + 1, and every stored record is listed.
   */
  lemma ListingIsInsertionOrder(b: Bank)
    requires Valid(b)
    ensures |ListTransactions(b)| == |b.log|
    ensures forall t :: t in b.log ==> t in ListTransactions(b)
    ensures forall i :: 0 <= i < |ListTransactions(b)| ==>
              ListTransactions(b)[i].id == i + 1 && FindTransaction(b, i + 1) == Success(ListTransactions(b)[i])
  {
    forall i | 0 <= i < |ListTransactions(b)|
      ensures FindTransaction(b, i + 1) == Success(ListTransactions(b)[i])
    {
      FindTransactionByPosition(b, i + 1);
    }
  }

  /** Only completed records are ever stored: no PENDIENTE or FALLIDA record can be listed. */
  lemma OnlyCompletedRecordsAreListed(b: Bank)
    requires Valid(b)
    ensures ListTransactionsByStatus(b, Completed) == ListTransactions(b)
    ensures ListTransactionsByStatus(b, Pending) == []
    ensures ListTransactionsByStatus(b, Failed) == []
  {
    FilterKeepsAll(b.log, HasStatus(Completed));
    FilterKeepsNone(b.log, HasStatus(Pending));
    FilterKeepsNone(b.log, HasStatus(Failed));
  }
}
