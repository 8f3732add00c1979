/**
 * The transaction service (`TransaccionService`): deposit, withdrawal and
 * transfer, each a read-validate-write step on the store that appends one
 * transaction record, and the read operations over the transaction table.
 * The helpers mirror the service's private validation and update methods.
 */
module TransactionService {
  import opened Wrappers
  import opened Domain
  import opened Repository
  import opened LedgerSpec

  /** `validarEstadoCuenta`: shared by deposit and withdrawal. */
  function CheckActive(account: Account): Validation<Error>
  {
    if account.status != Active then Fail(InactiveAccount) else Pass
  }

  /** `validarSaldoRetiro`: enough funds first, then the minimum-balance floor. */
  function CheckWithdrawalFunds(amount: Money, account: Account): Validation<Error>
  {
    if amount > account.balance then Fail(InsufficientFunds)
    else if account.balance - amount < account.minimumBalance then Fail(BelowMinimumBalance(account.minimumBalance))
    else Pass
  }

  function IsType(txType: TxType): Transaction -> bool
  {
    (t: Transaction) => t.txType == txType
  }

  /**
   * The daily total as the service computes it: query the records that
   * originate at the account within today's window, keep the RETIRO ones,
   * and add up their amounts.
   */
  function WithdrawnToday(log: seq<Transaction>, accountId: AccountId, clock: Clock): Money
  {
    SumAmounts(Filter(ByOriginBetween(log, accountId, clock.dayStart, clock.dayEnd), IsType(WithdrawalTx)))
  }

  /** `validarLimiteRetiroDiario`. */
  function CheckDailyLimit(log: seq<Transaction>, accountId: AccountId, account: Account, amount: Money, clock: Clock): Validation<Error>
  {
    var withdrawnToday := WithdrawnToday(log, accountId, clock);
    if withdrawnToday + amount > account.dailyWithdrawalLimit
    then Fail(DailyLimitExceeded(account.dailyWithdrawalLimit, withdrawnToday))
    else Pass
  }

  /**
   * `validarTransferencia`. The self-transfer test compares the two loaded
   * accounts; one persistence context yields the same instance for the same
   * identity, so it compares the requested identities.
   */
  function CheckTransfer(amount: Money, destinationId: AccountId, destination: Account,
                         originId: AccountId, origin: Account, log: seq<Transaction>, clock: Clock): (v: Validation<Error>)
    ensures v.Pass? <==>
              && amount <= origin.transferLimit
              && destinationId != originId
              && destination.status == Active && origin.status == Active
              && amount <= origin.balance
              && origin.balance - amount >= origin.minimumBalance
              && WithdrawnToday(log, originId, clock) + amount <= origin.dailyWithdrawalLimit
  {
    if amount > origin.transferLimit then Fail(TransferLimitExceeded(origin.transferLimit))
    else if destinationId == originId then Fail(SelfTransfer)
    else if destination.status != Active || origin.status != Active then Fail(InactiveAccounts)
    else CheckWithdrawalFunds(amount, origin).Then(CheckDailyLimit(log, originId, origin, amount, clock))
  }

  /** `actualizarSaldoDeposito`. */
  function Credit(account: Account, amount: Money): Account
  {
    account.(balance := account.balance + amount)
  }

  /** `actualizarSaldoRetiro`, with the funds re-check of `validarSaldo` before the debit. */
  function Debit(account: Account, amount: Money): (r: Result<Account, Error>)
    ensures r.Success? <==> amount <= account.balance
    ensures r.Success? ==> r.value.balance >= 0.0 && r.value.balance + amount == account.balance
    ensures r.Success? ==> r.value.(balance := account.balance) == account
    ensures r.Failure? ==> r.error == InsufficientFunds
  {
    if amount > account.balance then Failure(InsufficientFunds)
    else Success(account.(balance := account.balance - amount))
  }

  /** The identity the transaction table gives the next record it stores. */
  function NextTransactionId(b: Bank): TransactionId
  {
    |b.log| + 1
  }

  /** `crearTransaccionDeposito`: a PENDIENTE record, not yet stored. */
  function NewDepositRecord(accountId: AccountId, amount: Money, clock: Clock): Transaction
  {
    Transaction(0, DepositTx, Pending, clock.now, None, Some(accountId), amount)
  }

  /** `crearTransaccionRetiro`. */
  function NewWithdrawalRecord(accountId: AccountId, amount: Money, clock: Clock): Transaction
  {
    Transaction(0, WithdrawalTx, Pending, clock.now, Some(accountId), None, amount)
  }

  /** `crearTransaccionTransferencia`. */
  function NewTransferRecord(originId: AccountId, destinationId: AccountId, amount: Money, clock: Clock): Transaction
  {
    Transaction(0, TransferTx, Pending, clock.now, Some(originId), Some(destinationId), amount)
  }

  /** Stores the record (which then receives its identity) together with the updated account table. */
  function Commit(b: Bank, record: Transaction, accounts: map<AccountId, Account>): Outcome<Transaction>
  {
    var stored := record.(id := NextTransactionId(b));
    Outcome(Bank(accounts, b.log + [stored], b.nextAccountId), Success(stored))
  }

  /** `depositar`. */
  function Deposit(b: Bank, accountId: AccountId, amount: Money, clock: Clock): (o: Outcome<Transaction>)
    ensures o.result.Failure? ==> o.bank == b
    ensures accountId !in b.accounts ==> o.result == Failure(AccountNotFound(accountId))
    ensures accountId in b.accounts && b.accounts[accountId].status != Active ==> o.result == Failure(InactiveAccount)
    ensures o.result.Success? <==> accountId in b.accounts && b.accounts[accountId].status == Active
    ensures o.result.Success? ==>
              && o.result.value == Transaction(|b.log| + 1, DepositTx, Completed, clock.now, None, Some(accountId), amount)
              && Records(b, o.bank, o.result.value)
  {
    if accountId !in b.accounts then Outcome(b, Failure(AccountNotFound(accountId)))
    else
      var account := b.accounts[accountId];
      match CheckActive(account)
      case Fail(e) => Outcome(b, Failure(e))
      case Pass =>
        var record := NewDepositRecord(accountId, amount, clock);
        var credited := Credit(account, amount);
        var completed := record.(status := Completed);
        var o := Commit(b, completed, b.accounts[accountId := credited]);
        assert b.accounts[accountId := credited] == Replay(b.accounts, o.result.value);
        o
  }

  /** `retirar`. */
  function Withdraw(b: Bank, accountId: AccountId, amount: Money, clock: Clock): (o: Outcome<Transaction>)
    ensures o.result.Failure? ==> o.bank == b
    ensures o.result.Success? ==>
              && accountId in b.accounts
              && o.result.value == Transaction(|b.log| + 1, WithdrawalTx, Completed, clock.now, Some(accountId), None, amount)
              && Records(b, o.bank, o.result.value)
              && o.bank.accounts[accountId].balance >= b.accounts[accountId].minimumBalance
              && o.bank.accounts[accountId].balance >= 0.0
              && WithdrawnToday(b.log, accountId, clock) + amount <= b.accounts[accountId].dailyWithdrawalLimit
  {
    if accountId !in b.accounts then Outcome(b, Failure(AccountNotFound(accountId)))
    else
      var account := b.accounts[accountId];
      var validation :=
        CheckActive(account)
        .Then(CheckWithdrawalFunds(amount, account))
        .Then(CheckDailyLimit(b.log, accountId, account, amount, clock));
      match validation
      case Fail(e) => Outcome(b, Failure(e))
      case Pass =>
        var record := NewWithdrawalRecord(accountId, amount, clock);
        match Debit(account, amount)
        case Failure(e) => Outcome(b, Failure(e))
        case Success(debited) =>
          var completed := record.(status := Completed);
          var o := Commit(b, completed, b.accounts[accountId := debited]);
          assert b.accounts[accountId := debited] == Replay(b.accounts, o.result.value);
          o
  }

  /**
   * `transferir`: the destination is looked up before the origin, the
   * record is marked COMPLETADA before the balances move, and the origin is
   * debited before the destination is credited.
   */
  function Transfer(b: Bank, originId: AccountId, destinationId: AccountId, amount: Money, clock: Clock): (o: Outcome<Transaction>)
    ensures o.result.Failure? ==> o.bank == b
    ensures o.result.Success? ==>
              && originId in b.accounts && destinationId in b.accounts && originId != destinationId
              && o.result.value == Transaction(|b.log| + 1, TransferTx, Completed, clock.now, Some(originId), Some(destinationId), amount)
              && Records(b, o.bank, o.result.value)
              && o.bank.accounts[originId].balance + o.bank.accounts[destinationId].balance
                 == b.accounts[originId].balance + b.accounts[destinationId].balance
              && o.bank.accounts[originId].balance >= b.accounts[originId].minimumBalance
              && o.bank.accounts[originId].balance >= 0.0
              && amount <= b.accounts[originId].transferLimit
              && WithdrawnToday(b.log, originId, clock) + amount <= b.accounts[originId].dailyWithdrawalLimit
  {
    if destinationId !in b.accounts then Outcome(b, Failure(AccountNotFound(destinationId)))
    else if originId !in b.accounts then Outcome(b, Failure(AccountNotFound(originId)))
    else
      var destination := b.accounts[destinationId];
      var origin := b.accounts[originId];
      match CheckTransfer(amount, destinationId, destination, originId, origin, b.log, clock)
      case Fail(e) => Outcome(b, Failure(e))
      case Pass =>
        var completed := NewTransferRecord(originId, destinationId, amount, clock).(status := Completed);
        match Debit(origin, amount)
        case Failure(e) => Outcome(b, Failure(e))
        case Success(debited) =>
          assert debited == origin.(balance := origin.balance - amount);
          var credited := Credit(destination, amount);
          var o := Commit(b, completed, b.accounts[originId := debited][destinationId := credited]);
          assert o.bank.accounts[originId] == debited && o.bank.accounts[destinationId] == credited;
          ReplayTwoSided(b.accounts, o.result.value, originId, destinationId);
          o
  }

  /** `buscarPorId`. */
  function FindTransaction(b: Bank, id: TransactionId): (r: Result<Transaction, Error>)
    ensures r.Success? ==> r.value in b.log && r.value.id == id
    ensures r.Failure? <==> forall t :: t in b.log ==> t.id != id
    ensures r.Failure? ==> r.error == TransactionNotFound(id)
  {
    match FindById(b.log, id)
    case None => Failure(TransactionNotFound(id))
    case Some(t) => Success(t)
  }

  /** `listarTransacciones`: the whole table, in insertion order. */
  function ListTransactions(b: Bank): seq<Transaction>
  {
    b.log
  }

  /** `listarTransaccionesPorCuenta`. */
  function ListTransactionsByAccount(b: Bank, accountId: AccountId): (r: seq<Transaction>)
    ensures forall t :: t in r <==> t in b.log && (t.origin == Some(accountId) || t.destination == Some(accountId))
  {
    ByAccount(b.log, accountId)
  }

  /** `listarTransaccionesPorEstado`. */
  function ListTransactionsByStatus(b: Bank, status: TxStatus): (r: seq<Transaction>)
    ensures forall t :: t in r <==> t in b.log && t.status == status
  {
    ByStatus(b.log, status)
  }
}
