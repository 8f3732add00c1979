/**
 * The service's unit-test scenarios, restated on the model: a checking
 * account 1 holding 10000 (floor 500, daily limit 50000, transfer limit
 * 100000) and a savings account 2 holding 5000 (floor 1000, daily limit
 * 30000, transfer limit 50000).
 */
module Scenarios {
  import opened Wrappers
  import opened Domain
  import opened Repository
  import opened TransactionService
  import opened AccountService
  import opened AccountNumbers
  import opened Invariants
  import opened LedgerHistory
  import opened RequestValidation

  const Today: Clock := Clock(43200, 0, 86399)

  const Origin: Account :=
    Account("CTA-00001", Active, Checking, 1, 50000.0, 500.0, 0.0, 100000.0, 10000.0)

  const Destination: Account :=
    Account("CTA-00002", Active, Savings, 1, 30000.0, 1000.0, 0.0, 50000.0, 5000.0)

  const Start: Bank := Bank(map[1 := Origin, 2 := Destination], [], 3)

  lemma DepositScenarios()
    ensures Deposit(Start, 2, 1000.0, Today).bank.accounts[2].balance == 6000.0
    ensures Deposit(Start, 99, 1000.0, Today) == Outcome(Start, Failure(AccountNotFound(99)))
    ensures var blocked := Start.(accounts := Start.accounts[2 := Destination.(status := Blocked)]);
            Deposit(blocked, 2, 1000.0, Today) == Outcome(blocked, Failure(InactiveAccount))
  {
  }

  lemma WithdrawScenarios()
    ensures Withdraw(Start, 1, 2000.0, Today).bank.accounts[1].balance == 8000.0
    ensures Withdraw(Start, 1, 15000.0, Today) == Outcome(Start, Failure(InsufficientFunds))
    ensures Withdraw(Start, 1, 9600.0, Today) == Outcome(Start, Failure(BelowMinimumBalance(500.0)))
  {
  }

  /** A withdrawal of 45000 earlier today leaves room for at most 5000 more. */
  lemma DailyLimitScenario()
    ensures var prior := Transaction(1, WithdrawalTx, Completed, 3600, Some(1), None, 45000.0);
            var withdrawn := Start.(log := [prior]);
            Withdraw(withdrawn, 1, 6000.0, Today) == Outcome(withdrawn, Failure(DailyLimitExceeded(50000.0, 45000.0)))
  {
    var prior := Transaction(1, WithdrawalTx, Completed, 3600, Some(1), None, 45000.0);
    assert [prior][..0] == [];
  }

  /** A transfer of 45000 earlier today is not counted toward the daily limit. */
  lemma EarlierTransferNotCountedScenario()
    ensures var prior := Transaction(1, TransferTx, Completed, 3600, Some(1), Some(2), 45000.0);
            var transferred := Start.(log := [prior]);
            Withdraw(transferred, 1, 6000.0, Today).result.Success?
  {
    var prior := Transaction(1, TransferTx, Completed, 3600, Some(1), Some(2), 45000.0);
    assert [prior][..0] == [];
  }

  lemma TransferScenarios()
    ensures Transfer(Start, 1, 2, 3000.0, Today).bank.accounts[1].balance == 7000.0
    ensures Transfer(Start, 1, 2, 3000.0, Today).bank.accounts[2].balance == 8000.0
    ensures Transfer(Start, 1, 1, 1000.0, Today) == Outcome(Start, Failure(SelfTransfer))
    ensures Transfer(Start, 1, 2, 150000.0, Today) == Outcome(Start, Failure(TransferLimitExceeded(100000.0)))
    ensures Transfer(Start, 1, 2, 9600.0, Today) == Outcome(Start, Failure(BelowMinimumBalance(500.0)))
    ensures var blocked := Start.(accounts := Start.accounts[2 := Destination.(status := Blocked)]);
            Transfer(blocked, 1, 2, 1000.0, Today) == Outcome(blocked, Failure(InactiveAccounts))
  {
  }

  const NewTerms: AccountTerms := AccountTerms(50000.0, 500.0, 0.0, 100000.0, 0.0)

  const Opened: Bank := Bank(map[1 := Account("CTA-00001", Active, Checking, 7, 50000.0, 500.0, 0.0, 100000.0, 0.0)], [], 2)

  const OpenedAndDeposited: Bank :=
    Bank(map[1 := Account("CTA-00001", Active, Checking, 7, 50000.0, 500.0, 0.0, 100000.0, 1000.0)],
         [Transaction(1, DepositTx, Completed, Today.now, None, Some(1), 1000.0)], 2)

  lemma OpenStep()
    ensures OpenAccount(EmptyBank, {7}, 7, Checking, NewTerms).bank == Opened
  {
    FirstAccountNumbers();
  }

  lemma DepositStep()
    ensures Deposit(Opened, 1, 1000.0, Today).bank == OpenedAndDeposited
  {
  }

  const OpenThenDeposit: seq<Request> :=
    [OpenAccountRequest({7}, 7, Checking, NewTerms), DepositRequest(1, 1000.0, Today)]

  lemma ServeOpenThenDeposit()
    ensures ServeAll(EmptyBank, OpenThenDeposit) == OpenedAndDeposited
  {
    var rs := OpenThenDeposit;
    OpenStep();
    DepositStep();
    assert rs[..1][..0] == [];
    assert ServeAll(EmptyBank, rs[..1]) == Opened;
  }

  /**
   * From the empty store: client 7 opens a checking account, which becomes
   * account 1 numbered "CTA-00001", and 1000 is deposited into it.
   */
  lemma OpenThenDepositScenario()
    ensures var after := ServeAll(EmptyBank, OpenThenDeposit);
            && after.accounts.Keys == {1}
            && after.accounts[1].number == "CTA-00001"
            && after.accounts[1].owner == 7
            && after.accounts[1].balance == 1000.0
            && after.log == [Transaction(1, DepositTx, Completed, Today.now, None, Some(1), 1000.0)]
            && Valid(after)
  {
    ServeOpenThenDeposit();
    EmptyBankIsValid();
    ServeAllPreservesValid(EmptyBank, OpenThenDeposit);
  }

  /**
   * A negative deposit is accepted as written: depositing -6000 into
   * account 2 (5000) succeeds with neither funds nor floor checked, and
   * leaves it at -1000. The validated endpoint rejects the same request.
   */
  lemma NegativeDepositScenario()
    ensures NonNegativeBalances(Start.accounts)
    ensures Deposit(Start, 2, -6000.0, Today).result.Success?
    ensures Deposit(Start, 2, -6000.0, Today).bank.accounts[2].balance == -1000.0
    ensures !NonNegativeBalances(Deposit(Start, 2, -6000.0, Today).bank.accounts)
    ensures ValidatedDeposit(Start, 2, -6000.0, Today) == Outcome(Start, Failure(InvalidAmount(0.1)))
  {
  }

  /**
   * The service as bound by the transaction controller accepts a negative
   * transfer: moving -6000 from account 1 to account 2 succeeds and pulls
   * 6000 out of account 2, whose funds and floor are never checked, leaving
   * it at -1000. The validated endpoint rejects the same request.
   */
  lemma NegativeTransferScenario()
    ensures NonNegativeBalances(Start.accounts)
    ensures Transfer(Start, 1, 2, -6000.0, Today).result.Success?
    ensures Transfer(Start, 1, 2, -6000.0, Today).bank.accounts[1].balance == 16000.0
    ensures Transfer(Start, 1, 2, -6000.0, Today).bank.accounts[2].balance == -1000.0
    ensures !NonNegativeBalances(Transfer(Start, 1, 2, -6000.0, Today).bank.accounts)
    ensures ValidatedTransfer(Start, 1, 2, -6000.0, Today) == Outcome(Start, Failure(InvalidAmount(0.1)))
  {
  }

  const NegativeWithdrawalRecord: Transaction :=
    Transaction(1, WithdrawalTx, Completed, Today.now, Some(1), None, -1000.0)

  const WithdrawnBack: Bank :=
    Bank(map[1 := Origin.(balance := 11000.0), 2 := Destination], [NegativeWithdrawalRecord], 3)

  lemma NegativeWithdrawalStep()
    ensures Withdraw(Start, 1, -1000.0, Today) == Outcome(WithdrawnBack, Success(NegativeWithdrawalRecord))
  {
  }

  lemma NegativeWithdrawnToday()
    ensures WithdrawnToday(WithdrawnBack.log, 1, Today) == -1000.0
  {
    var log := [NegativeWithdrawalRecord];
    assert log[..0] == [];
    assert ByOriginBetween(log, 1, Today.dayStart, Today.dayEnd) == log;
    assert Filter(log, IsType(WithdrawalTx)) == log;
    assert SumAmounts(log) == SumAmounts([]) + NegativeWithdrawalRecord.amount;
    assert WithdrawnToday(log, 1, Today) == SumAmounts(log);
  }

  /**
   * A negative withdrawal is accepted as written: withdrawing -1000 raises
   * the balance to 11000 and makes the day's withdrawn total negative,
   * widening the room left under the daily limit.
   */
  lemma NegativeWithdrawalScenario()
    ensures Withdraw(Start, 1, -1000.0, Today).result.Success?
    ensures Withdraw(Start, 1, -1000.0, Today).bank.accounts[1].balance == 11000.0
    ensures WithdrawnToday(Withdraw(Start, 1, -1000.0, Today).bank.log, 1, Today) == -1000.0
    ensures ValidatedWithdraw(Start, 1, -1000.0, Today) == Outcome(Start, Failure(InvalidAmount(0.1)))
  {
    NegativeWithdrawalStep();
    NegativeWithdrawnToday();
  }
}
