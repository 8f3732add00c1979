# Bank ledger core in Dafny

A functional model of the two services of the bank backend that carry
invariants:

- **The transaction service** (`TransaccionService`). It offers deposit
  (`depositar`), withdrawal (`retirar`) and transfer (`transferir`). Each is
  one read-validate-write step on the ledger store. It looks up the accounts,
  runs an ordered chain of validations, moves the balances and appends one
  COMPLETADA transaction record. The read operations (`buscarPorId`,
  `listarTransacciones`, `listarTransaccionesPorCuenta`,
  `listarTransaccionesPorEstado`) are filters over the transaction table.
- **The account service** (`CuentaService`). It holds the account status
  state machine (`validarTransicionEstado`, `cambiarEstado`) and opens
  accounts (`crearCuenta`). A new account is ACTIVA and numbered `CTA-%05d`
  from its identity.

The store is a `Bank`: a `map<AccountId, Account>` account table, a
`seq<Transaction>` transaction table in insertion order, and the account
identity counter. Every mutating operation returns an `Outcome`: the store
as committed, plus either the returned value or the error kind raised. Names
follow the source's enumerations: `Active/Blocked/Closed` are
ACTIVA/BLOQUEADA/CERRADA; `DepositTx/WithdrawalTx/TransferTx` are
DEPOSITO/RETIRO/TRANSFERENCIA; `Pending/Completed/Failed` are
PENDIENTE/COMPLETADA/FALLIDA.

The operations are written the way the service code is laid out: the same
lookups, the same validation helpers in the same order, and the funds
re-check inside the debit. They are proved against reference definitions
written independently of that code:

- `LedgerSpec.Records`: the store after an operation is the store before,
  with the returned record appended and replayed through its net flow.
- `PolicyRules`: ordered rule tables for deposit, withdrawal and transfer.
  Each of these fails with the error of the first violated rule of its
  table, after any unknown account is reported, and succeeds when no rule
  is violated.
- `LedgerSpec.DailyWithdrawals`: a direct definition of today's RETIRO total.
- `LedgerSpec.Total`: the sum of all balances.
- `Invariants.Valid`: the store invariant.
- `RequestValidation.NonNegativeBalances`: no account holds a negative
  balance.

`RequestValidation` models the money-movement endpoints with their request
objects validated, as those objects' `@DecimalMin("0.1")` constraints call
for: an amount below 0.1 is rejected and changes nothing (see
"## Findings"). Sequences of requests (`LedgerHistory.ServeAll`) are served
by the services as written, with any amount. A second serving function
(`LedgerHistory.ServeAllValidated`) routes money movements through the
validated endpoints, and the non-negative-balance theorem is stated over
it.

Files: `wrappers.dfy`, `domain.dfy` (entities and errors),
`account_number.dfy`, `repository.dfy` (table queries),
`account_service.dfy`, `transaction_service.dfy`, `ledger_spec.dfy`,
`policy_rules.dfy`, `invariants.dfy`, `transaction_properties.dfy`,
`request_validation.dfy` (validated money-movement endpoints),
`ledger_history.dfy` (sequences of requests), `scenarios.dfy` (the unit-test
scenarios and the counterexamples of "## Findings").

Three facts about the code that the model keeps:

- The daily total sums every RETIRO record from the account in the window,
  whatever its status. It is not limited to COMPLETADA records.
- A new account gets no balance and no limits from `crearCuenta`. Nothing
  derives them from the account type.
- The money-movement endpoints do not validate their request bodies. The
  transaction controller binds them without `@Valid`, so the service
  receives any amount, including zero and negative ones. `TransactionService`
  places no condition on the amount.

## Model

| member | source | states |
|---|---|---|
| `AccountNumbers.AccountNumber` | src/main/java/com/example/banco/service/CuentaService.java:31 | the number starts with "CTA-", is followed only by decimal digits, and has at least five of them |
| `AccountNumbers.AccountNumberRoundTrip` | src/main/java/com/example/banco/service/CuentaService.java:31 | parsing the number of identity `id` (prefix, then the zero-padded decimal) gives back `id` |
| `AccountNumbers.AccountNumberInjective` | src/main/java/com/example/banco/service/CuentaService.java:31 | distinct non-negative identities never get the same account number |
| `AccountNumbers.ShortIdentityHasFixedLength` | src/main/java/com/example/banco/service/CuentaService.java:31 | identities below 100000 give numbers of exactly nine characters (zero padding to width 5) |
| `AccountNumbers.FirstAccountNumbers` | src/test/java/com/example/banco/service/TransaccionServiceTest.java:56-66 | identities 1 and 2 are numbered "CTA-00001" and "CTA-00002" |
| `Invariants.AccountNumbersAreUnique` | src/main/java/com/example/banco/service/CuentaService.java:31 | in a valid store, no two accounts share an account number |
| `AccountService.ValidateTransition` | src/main/java/com/example/banco/service/CuentaService.java:73-93 | a request passes exactly when (current, requested) is in the five-pair table; every request on a CERRADA account fails with the closed-account error, including CERRADA to CERRADA; any other rejection is the not-allowed error naming both states |
| `AccountService.TransitionTableIsExhaustive` | src/main/java/com/example/banco/service/CuentaService.java:73-93 | of the nine (current, requested) pairs, exactly the five table pairs are accepted |
| `AccountService.ChangeStatus` | src/main/java/com/example/banco/service/CuentaService.java:61-70 | an unknown identity fails as not found before any transition check; a failure leaves the store as it was; success happens exactly for table pairs and changes only the status of that one account; a same-state request leaves the store unchanged |
| `AccountService.OpenAccount` | src/main/java/com/example/banco/service/CuentaService.java:25-36 | an unknown owner fails with the client-not-found error and changes nothing; otherwise the account takes the next identity and starts ACTIVA with the given type, owner and terms; its number parses back to its identity; no other account or record changes |
| `Repository.FindById` | src/main/java/com/example/banco/service/TransaccionService.java:208-213 | a found record is in the table and carries the requested identity; nothing is found exactly when no record carries it |
| `Repository.ByStatus` | src/main/java/com/example/banco/repository/TransaccionRepository.java:14 | a record is listed exactly when it is in the table with the requested status |
| `Repository.ByAccount` | src/main/java/com/example/banco/repository/TransaccionRepository.java:16-17 | a record is listed exactly when it is in the table with the account as origin or destination |
| `Repository.ByOriginBetween` | src/main/java/com/example/banco/repository/TransaccionRepository.java:19-23 | a record is listed exactly when it originates at the account and its timestamp lies in the window, both ends included |
| `Repository.FilterAppend` | src/main/java/com/example/banco/repository/TransaccionRepository.java:14-23 | every derived query distributes over appending to the table, so appending a record only extends a query result |
| `TransactionService.Debit` | src/main/java/com/example/banco/service/TransaccionService.java:137-146 | the debit succeeds exactly when the amount does not exceed the balance, and otherwise fails with the insufficient-funds error; a successful debit lowers the balance by the amount, leaves it non-negative, and changes no other field of the account |
| `TransactionService.Deposit` | src/main/java/com/example/banco/service/TransaccionService.java:34-66 | an unknown account fails with the not-found error naming it; an existing account that is not ACTIVA fails with the inactive-account error; it succeeds exactly for an existing ACTIVA account; on success it returns a COMPLETADA DEPOSITO record with no origin, the account as destination, the amount and the next identity; the store after is the store before with that record appended and replayed; a failure changes nothing |
| `TransactionService.Withdraw` | src/main/java/com/example/banco/service/TransaccionService.java:75-140 | on success it returns a COMPLETADA RETIRO record with the account as origin and no destination; the store is the old one with that record appended and replayed; the new balance is at least the floor and at least zero; today's RETIRO total plus the amount is within the daily limit; a failure changes nothing |
| `TransactionService.Transfer` | src/main/java/com/example/banco/service/TransaccionService.java:149-206 | on success both accounts exist and differ, and it returns a COMPLETADA TRANSFERENCIA record with both sides set; the store is the old one with that record replayed, which debits the origin, credits the destination, keeps the sum of the two balances and touches no other account; the origin stays at or above its floor and zero; the amount is within the transfer limit and the daily limit; a failure changes nothing |
| `TransactionService.FindTransaction` | src/main/java/com/example/banco/service/TransaccionService.java:208-213 | a returned record is in the table with the requested identity; the not-found error is raised exactly when no record carries that identity |
| `TransactionProperties.ListingIsInsertionOrder` | src/main/java/com/example/banco/service/TransaccionService.java:215-219 | in a valid store, the full listing holds every stored record in insertion order: the i-th listed record carries identity i + 1 and is the one found under that identity |
| `TransactionService.ListTransactionsByAccount` | src/main/java/com/example/banco/service/TransaccionService.java:221-225 | lists exactly the stored records with the account as origin or destination |
| `TransactionService.ListTransactionsByStatus` | src/main/java/com/example/banco/service/TransaccionService.java:227-231 | lists exactly the stored records in the requested status |
| `LedgerSpec.TotalAfterReplay` | src/main/java/com/example/banco/service/TransaccionService.java:159-160 | replaying a record whose accounts exist and differ moves the total of all balances by its external flow: plus the amount for a deposit, minus it for a withdrawal, zero for a transfer |
| `TransactionProperties.WithdrawnTodayMatchesReference` | src/main/java/com/example/banco/service/TransaccionService.java:103-116 | the service's query, RETIRO filter and sum equal the direct daily total: amounts of RETIRO records from the account stamped within the day, whatever their status |
| `TransactionProperties.DepositReportsFirstViolation` | src/main/java/com/example/banco/service/TransaccionService.java:34-49 | an unknown account fails as not found; otherwise the deposit fails with the error of the first violated deposit rule (not ACTIVA) and succeeds exactly when none is violated |
| `TransactionProperties.WithdrawReportsFirstViolation` | src/main/java/com/example/banco/service/TransaccionService.java:75-101 | an unknown account fails as not found; otherwise the withdrawal fails with the first violated rule (not ACTIVA, amount above balance, balance minus amount below floor, daily limit) and succeeds exactly when none is violated |
| `TransactionService.CheckTransfer` | src/main/java/com/example/banco/service/TransaccionService.java:173-190 | a transfer passes validation exactly when the amount is within the origin's transfer limit, the two accounts differ, both are ACTIVA, the origin holds the amount and keeps its floor after it, and the day's withdrawals plus the amount stay within the daily limit |
| `TransactionProperties.TransferReportsFirstViolation` | src/main/java/com/example/banco/service/TransaccionService.java:149-190 | an unknown destination is reported before an unknown origin; then the transfer fails with the first violated rule (transfer limit, same account, either side not ACTIVA, insufficient funds, floor, daily limit) and succeeds exactly when none is violated |
| `TransactionProperties.SelfTransferIsRejected` | src/main/java/com/example/banco/service/TransaccionService.java:173-182 | a transfer from an account to itself within its transfer limit always fails as a self-transfer and changes nothing |
| `TransactionProperties.NonActiveAccountRejectsMoneyMovement` | src/main/java/com/example/banco/service/TransaccionService.java:68-72 | a BLOQUEADA or CERRADA account rejects deposits and withdrawals with the inactive-account error, and transfers from or to it (within the transfer limit) with the inactive-accounts error |
| `TransactionProperties.TransferConservesMoney` | src/main/java/com/example/banco/service/TransaccionService.java:159-160 | a successful transfer leaves the total of all balances in the bank unchanged |
| `TransactionProperties.DepositAddsAmountToTotal` | src/main/java/com/example/banco/service/TransaccionService.java:64-66 | a successful deposit raises the total of all balances by exactly the amount |
| `TransactionProperties.WithdrawRemovesAmountFromTotal` | src/main/java/com/example/banco/service/TransaccionService.java:137-140 | a successful withdrawal lowers the total of all balances by exactly the amount |
| `TransactionProperties.WithdrawKeepsDailyTotalWithinLimit` | src/main/java/com/example/banco/service/TransaccionService.java:103-121 | after a successful withdrawal stamped within the day, the day's RETIRO total grows by the amount and stays within the daily limit |
| `TransactionProperties.TransferLeavesDailyTotals` | src/main/java/com/example/banco/service/TransaccionService.java:108-110 | a successful transfer changes no account's daily RETIRO total, because TRANSFERENCIA records are not counted |
| `TransactionProperties.DepositPreservesValid` | src/main/java/com/example/banco/service/TransaccionService.java:51-61 | a deposit keeps the store invariant: consecutive record identities, COMPLETADA records, sides set by type and referencing existing accounts |
| `TransactionProperties.WithdrawPreservesValid` | src/main/java/com/example/banco/service/TransaccionService.java:125-135 | a withdrawal keeps the store invariant |
| `TransactionProperties.TransferPreservesValid` | src/main/java/com/example/banco/service/TransaccionService.java:193-205 | a transfer keeps the store invariant, including distinct origin and destination |
| `TransactionProperties.ChangeStatusPreservesValid` | src/main/java/com/example/banco/service/CuentaService.java:61-70 | a status change keeps the store invariant |
| `TransactionProperties.OpenAccountPreservesValid` | src/main/java/com/example/banco/service/CuentaService.java:25-36 | opening an account keeps the store invariant: identities come from the counter and numbers from identities |
| `TransactionProperties.FindTransactionByPosition` | src/main/java/com/example/banco/service/TransaccionService.java:208-213 | in a valid store, looking up identity `id` returns the id-th stored record, and fails as not found outside 1..count |
| `TransactionProperties.StoredRecordIsFound` | src/main/java/com/example/banco/service/TransaccionService.java:44 | the record a successful operation returns can afterwards be looked up by its identity |
| `TransactionProperties.ListingByAccountGrows` | src/main/java/com/example/banco/service/TransaccionService.java:221-225 | an account's listing after a recorded operation is its listing before, plus the new record exactly when it touches the account |
| `TransactionProperties.OnlyCompletedRecordsAreListed` | src/main/java/com/example/banco/service/TransaccionService.java:227-231 | in a valid store, listing COMPLETADA gives the whole table in order, and listing PENDIENTE or FALLIDA gives nothing |
| `RequestValidation.ValidatedDeposit` | src/main/java/com/example/banco/controller/TransaccionController.java:23-26 | an amount below 0.1 fails with the invalid-amount error and changes nothing; an accepted amount gives exactly `depositar`; a successful deposit raises the account's balance by at least 0.1 and leaves every other account unchanged |
| `RequestValidation.ValidatedWithdraw` | src/main/java/com/example/banco/controller/TransaccionController.java:28-31 | an amount below 0.1 fails with the invalid-amount error and changes nothing; an accepted amount gives exactly `retirar`; a successful withdrawal lowers the balance by at least 0.1, keeps it non-negative, and leaves every other account unchanged |
| `RequestValidation.ValidatedTransfer` | src/main/java/com/example/banco/controller/TransaccionController.java:33-36 | an amount below 0.1 fails with the invalid-amount error and changes nothing; an accepted amount gives exactly `transferir`; a successful transfer lowers the origin by at least 0.1 but not below zero, raises the destination by at least 0.1, and leaves every other account unchanged |
| `RequestValidation.ValidatedDepositKeepsBalancesNonNegative` | src/main/java/com/example/banco/controller/TransaccionController.java:23-26 | a validated deposit on a table with no negative balance leaves none negative |
| `RequestValidation.ValidatedWithdrawKeepsBalancesNonNegative` | src/main/java/com/example/banco/controller/TransaccionController.java:28-31 | a validated withdrawal on a table with no negative balance leaves none negative |
| `RequestValidation.ValidatedTransferKeepsBalancesNonNegative` | src/main/java/com/example/banco/controller/TransaccionController.java:33-36 | a validated transfer on a table with no negative balance leaves none negative, on either side |
| `LedgerHistory.ServeAllKeepsBalancesNonNegative` | src/main/java/com/example/banco/controller/TransaccionController.java:23-36 | any sequence of validated requests, starting with no negative balance and opening accounts with non-negative balances, never produces a negative balance |
| `LedgerHistory.ServeAllPreservesValid` | src/main/java/com/example/banco/service/TransaccionService.java:33-170 | any sequence of account openings, deposits, withdrawals, transfers and status changes keeps the store invariant |
| `LedgerHistory.HistoryExtendsLog` | src/main/java/com/example/banco/service/TransaccionService.java:44 | serving requests only appends to the transaction table; stored records never change |
| `LedgerHistory.BalancesAreReplayOfHistory` | src/main/java/com/example/banco/service/TransaccionService.java:33-170 | after any sequence of requests on a valid store, or any sequence that opens no account, every balance equals its starting value, or its opening balance if the sequence opened the account, plus the net flow of the records stored since |
| `LedgerHistory.TotalMovesByExternalFlow` | src/main/java/com/example/banco/service/TransaccionService.java:33-170 | after any sequence of requests on a valid store, the total of all balances has moved only by the deposits minus withdrawals recorded since, plus the opening balances of the accounts opened |
| `Scenarios.OpenThenDepositScenario` | src/main/java/com/example/banco/service/CuentaService.java:25-36 | in the model, from the empty store, opening an account for a known client with supplied terms (opening balance 0) and then depositing 1000 gives a valid store with one account, numbered "CTA-00001", holding 1000, and one deposit record; the source itself cannot complete this deposit (see `AccountService.OpenAccount` under "## Left out") |
| `Scenarios.DepositScenarios` | src/test/java/com/example/banco/service/TransaccionServiceTest.java:79-121 | depositing 1000 into a 5000 account gives 6000; an unknown account fails as not found; a BLOQUEADA account fails as inactive; failures change nothing |
| `Scenarios.WithdrawScenarios` | src/test/java/com/example/banco/service/TransaccionServiceTest.java:128-172 | withdrawing 2000 from 10000 gives 8000; 15000 fails for insufficient funds; 9600 fails below the 500 floor |
| `Scenarios.DailyLimitScenario` | src/test/java/com/example/banco/service/TransaccionServiceTest.java:174-193 | with 45000 already withdrawn today, withdrawing 6000 exceeds the 50000 daily limit |
| `Scenarios.EarlierTransferNotCountedScenario` | src/main/java/com/example/banco/service/TransaccionService.java:108-110 | with 45000 transferred out today, withdrawing 6000 still succeeds, because transfers do not count |
| `Scenarios.NegativeDepositScenario` | src/main/java/com/example/banco/controller/TransaccionController.java:23-26 | as written, a deposit of -6000 into account 2 (5000) succeeds and leaves it at -1000, breaking non-negative balances; the validated endpoint rejects it and changes nothing |
| `Scenarios.NegativeTransferScenario` | src/main/java/com/example/banco/controller/TransaccionController.java:33-36 | as written, a transfer of -6000 from account 1 (10000) to account 2 (5000) succeeds and leaves account 2 at -1000, breaking non-negative balances; the validated endpoint rejects it and changes nothing |
| `Scenarios.NegativeWithdrawalScenario` | src/main/java/com/example/banco/controller/TransaccionController.java:28-31 | as written, a withdrawal of -1000 from account 1 succeeds, raises its balance to 11000 and makes the day's withdrawn total -1000; the validated endpoint rejects it |
| `Scenarios.TransferScenarios` | src/test/java/com/example/banco/service/TransaccionServiceTest.java:200-279 | transferring 3000 gives 7000 and 8000; same account fails as self-transfer; 150000 exceeds the transfer limit; 9600 breaks the floor; a BLOQUEADA destination fails as inactive accounts |

## Findings

| source | as written | input that shows it | evidently intended | confidence | as-written member | corrected member |
|---|---|---|---|---|---|---|
| src/main/java/com/example/banco/controller/TransaccionController.java:23-26 | the deposit body is bound without `@Valid`, so the request object's `@DecimalMin("0.1")` is never applied and `depositar` accepts any amount | deposit -6000 into account 2 (balance 5000): it succeeds with neither funds nor floor checked, and account 2 falls to -1000 | reject amounts below 0.1, as the request object declares; a validated deposit always raises the balance | not executed; high | `Scenarios.NegativeDepositScenario` | `RequestValidation.ValidatedDeposit` |
| src/main/java/com/example/banco/controller/TransaccionController.java:33-36 | the transfer body is bound without `@Valid`, so the request object's `@DecimalMin("0.1")` is never applied and `transferir` accepts any amount | transfer -6000 from account 1 (balance 10000) to account 2 (balance 5000): it succeeds, account 1 rises to 16000 and account 2 falls to -1000, with none of account 2's funds, floor or limits checked | reject amounts below 0.1, as the request object declares and as the other controllers do with `@Valid`; a validated transfer only ever credits the destination, so balances stay non-negative | not executed; high | `Scenarios.NegativeTransferScenario` | `RequestValidation.ValidatedTransfer` |
| src/main/java/com/example/banco/controller/TransaccionController.java:28-31 | the withdrawal body is bound without `@Valid`, so `retirar` accepts a negative amount | withdraw -1000 from account 1 (balance 10000): it succeeds, the balance rises to 11000, and the day's withdrawn total becomes -1000, leaving more room under the daily limit | reject amounts below 0.1; a validated withdrawal always lowers the balance and never below zero | not executed; high | `Scenarios.NegativeWithdrawalScenario` | `RequestValidation.ValidatedWithdraw` |

## Left out

- HTTP routing and the exception handler: URL mapping and the mapping from error kind to HTTP status, with no rules of their own. The one rule the transaction controller's request objects carry, the minimum amount, is modelled in `RequestValidation`.
- Persistence: the JPA repositories become the `Bank` value. The derived queries become filters over the transaction table in insertion order.
- The wall clock: `LocalDateTime.now()` and `LocalDate.now()` become a `Clock` parameter. It carries the instant stamped on a new record and the day's first and last instants (the code uses 00:00 and 23:59:59). Sub-second instants after 23:59:59 are not distinguished.
- Atomicity, locking and concurrency (`@Transactional`, the destination-before-origin load order): each operation is one atomic state transition.
- `BigDecimal`: amounts are exact reals, so there is no scale or rounding.
- Null request fields: identities and amounts are always present in the model. In the source, the money-movement endpoints do not validate their bodies, so a null identity or amount reaches the service and fails with a Java exception.
- Customer management (`ClienteService` and its controller and mapper): the customer table appears only as the set of known owner identities passed to `OpenAccount`.
- Mappers and response DTOs: they only copy fields. Operations return the record or account itself.
- Error message texts: errors are kinds carrying the floor, limit, today's total or states their messages report.
- The transaction `descripcion` field: the services never set it.
- `AccountService.OpenAccount`: in the source, `crearCuenta` builds the account through `CuentaMapper.toEntity`, which sets only the type, the owner and ACTIVA. The new account's balance and all its limits stay null. Every deposit, withdrawal or transfer on it then throws a null-pointer exception (in the balance update and checks of `TransaccionService`, lines 65, 93 and 175), and the exception handler does not map it. This lasts until something outside the services sets those fields. The model instead takes the balance and limits as an `AccountTerms` parameter, so money movements on a new account, as in `Scenarios.OpenThenDepositScenario`, describe an account whose fields have been set. No default limits are derived from the account type, because the code derives none.
- `AccountNumbers.AccountNumber`: covers non-negative identities only. The `%05d` form of a negative identity is not modelled, because identities come from the identity generator and are positive. The model also assumes a format locale whose zero digit is '0'. `String.format` localises digits in the JVM's default locale, so a locale with other digit characters (Arabic-Indic digits, for example) would produce numbers the model and `ParseAccountNumber` do not describe.
- Identity generation: record identities are positions in the table (1, 2, ...), and account identities come from a counter. Identity overflow of Java `Long` is not modelled.
- The account look-ups `buscarPorId`, `buscarPorNroCuenta`, `buscarPorCliente` and `listarCuentas` of the account service are not modelled: they are plain reads. Uniqueness of account numbers is stated by `Invariants.AccountNumbersAreUnique`.
- Read idempotence: the read operations are pure functions of the store, so two reads with no write in between return the same result by construction.
