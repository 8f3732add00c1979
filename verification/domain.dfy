/**
 * The entities of the ledger: accounts (`Cuenta`), transaction records
 * (`Transaccion`), their enumerations, the error kinds the services raise,
 * and the store that holds both collections.
 */
module Domain {
  import opened Wrappers

  /** Exact decimal amounts (Java `BigDecimal`): no rounding is involved. */
  type Money = real

  /** Entity identities (Java `Long`); a request may carry any value. */
  type AccountId = int
  type ClientId = int
  type TransactionId = int

  /** A point on the wall clock (`LocalDateTime`), as a count of clock ticks. */
  type Instant = int

  /** `EstadoCuenta`: ACTIVA, BLOQUEADA, CERRADA. */
  datatype AccountStatus = Active | Blocked | Closed

  /** `TipoCuenta`: CORRIENTE, AHORRO. */
  datatype AccountType = Checking | Savings

  /** `TipoTransaccion`: DEPOSITO, RETIRO, TRANSFERENCIA. */
  datatype TxType = DepositTx | WithdrawalTx | TransferTx

  /** `EstadoTransaccion`: PENDIENTE, COMPLETADA, FALLIDA. */
  datatype TxStatus = Pending | Completed | Failed

  /**
   * An account. Its identity is the key under which the store holds it;
   * `number` is the `nroCuenta` derived from that identity at creation.
   */
  datatype Account = Account(
    number: string,
    status: AccountStatus,
    accountType: AccountType,
    owner: ClientId,
    dailyWithdrawalLimit: Money,
    minimumBalance: Money,
    minimumOpeningDeposit: Money,
    transferLimit: Money,
    balance: Money)

  /**
   * A transaction record, with the fields the transaction service sets:
   * origin is absent for a deposit, destination is absent for a withdrawal.
   */
  datatype Transaction = Transaction(
    id: TransactionId,
    txType: TxType,
    status: TxStatus,
    timestamp: Instant,
    origin: Option<AccountId>,
    destination: Option<AccountId>,
    amount: Money)

  /**
   * The ledger store: the account table, the transaction table in insertion
   * order, and the next identity the account table will hand out.
   */
  datatype Bank = Bank(
    accounts: map<AccountId, Account>,
    log: seq<Transaction>,
    nextAccountId: nat)

  /**
   * The wall clock as one operation sees it: the instant stamped on a new
   * record, and the first and last instants of the current local day.
   */
  datatype Clock = Clock(now: Instant, dayStart: Instant, dayEnd: Instant)

  /** The error kinds raised by the services, each with the values its message reports. */
  datatype Error =
    | AccountNotFound(accountId: AccountId)
    | ClientNotFound(clientId: ClientId)
    | TransactionNotFound(transactionId: TransactionId)
      /** Deposit or withdrawal on an account that is not ACTIVA. */
    | InactiveAccount
      /** Transfer where either side is not ACTIVA. */
    | InactiveAccounts
    | InsufficientFunds
    | BelowMinimumBalance(floor: Money)
    | DailyLimitExceeded(limit: Money, withdrawnToday: Money)
    | TransferLimitExceeded(limit: Money)
    | SelfTransfer
      /** Any status change requested on a CERRADA account. */
    | AccountClosed
    | TransitionNotAllowed(current: AccountStatus, requested: AccountStatus)
      /** A request amount below the minimum the request objects declare. */
    | InvalidAmount(minimum: Money)

  /**
   * What a mutating service call leaves behind: the store as committed and
   * the value returned or the error raised.
   */
  datatype Outcome<+T> = Outcome(bank: Bank, result: Result<T, Error>)
}
