/**
 * The money-movement endpoints with their request objects validated: the
 * amount must be at least 0.1, as the deposit, withdrawal and transfer
 * request objects declare. The transaction controller binds those objects
 * without validation, so the service itself receives any amount; these
 * operations model the validated endpoints the request objects call for,
 * under which no balance ever goes negative.
 */
module RequestValidation {
  import opened Wrappers
  import opened Domain
  import opened TransactionService

  /** The smallest amount a request object accepts (inclusive). */
  const MinimumAmount: Money := 0.1

  predicate AcceptsAmount(amount: Money)
  {
    amount >= MinimumAmount
  }

  /** Every account of the table holds a non-negative balance. */
  predicate NonNegativeBalances(accounts: map<AccountId, Account>)
  {
    forall k :: k in accounts ==> accounts[k].balance >= 0.0
  }

  /** A validated deposit: a rejected amount changes nothing; an accepted one is `depositar`. */
  function ValidatedDeposit(b: Bank, accountId: AccountId, amount: Money, clock: Clock): (o: Outcome<Transaction>)
    ensures !AcceptsAmount(amount) ==> o == Outcome(b, Failure(InvalidAmount(MinimumAmount)))
    ensures AcceptsAmount(amount) ==> o == Deposit(b, accountId, amount, clock)
    ensures o.result.Success? ==>
              && accountId in b.accounts
              && o.bank.accounts[accountId].balance >= b.accounts[accountId].balance + MinimumAmount
              && forall k :: k in b.accounts && k != accountId ==> o.bank.accounts[k] == b.accounts[k]
  {
    if !AcceptsAmount(amount) then Outcome(b, Failure(InvalidAmount(MinimumAmount)))
    else Deposit(b, accountId, amount, clock)
  }

  /** A validated withdrawal: a rejected amount changes nothing; an accepted one is `retirar`. */
  function ValidatedWithdraw(b: Bank, accountId: AccountId, amount: Money, clock: Clock): (o: Outcome<Transaction>)
    ensures !AcceptsAmount(amount) ==> o == Outcome(b, Failure(InvalidAmount(MinimumAmount)))
    ensures AcceptsAmount(amount) ==> o == Withdraw(b, accountId, amount, clock)
    ensures o.result.Success? ==>
              && accountId in b.accounts
              && 0.0 <= o.bank.accounts[accountId].balance <= b.accounts[accountId].balance - MinimumAmount
              && forall k :: k in b.accounts && k != accountId ==> o.bank.accounts[k] == b.accounts[k]
  {
    if !AcceptsAmount(amount) then Outcome(b, Failure(InvalidAmount(MinimumAmount)))
    else Withdraw(b, accountId, amount, clock)
  }

  /**
   * A validated transfer: a rejected amount changes nothing; an accepted one
   * is `transferir`, which then only ever credits the destination.
   */
  function ValidatedTransfer(b: Bank, originId: AccountId, destinationId: AccountId, amount: Money, clock: Clock): (o: Outcome<Transaction>)
    ensures !AcceptsAmount(amount) ==> o == Outcome(b, Failure(InvalidAmount(MinimumAmount)))
    ensures AcceptsAmount(amount) ==> o == Transfer(b, originId, destinationId, amount, clock)
    ensures o.result.Success? ==>
              && originId in b.accounts && destinationId in b.accounts
              && 0.0 <= o.bank.accounts[originId].balance <= b.accounts[originId].balance - MinimumAmount
              && o.bank.accounts[destinationId].balance >= b.accounts[destinationId].balance + MinimumAmount
              && forall k :: k in b.accounts && k != originId && k != destinationId ==> o.bank.accounts[k] == b.accounts[k]
  {
    if !AcceptsAmount(amount) then Outcome(b, Failure(InvalidAmount(MinimumAmount)))
    else
      Transfer(b, originId, destinationId, amount, clock)
  }

  lemma ValidatedDepositKeepsBalancesNonNegative(b: Bank, accountId: AccountId, amount: Money, clock: Clock)
    requires NonNegativeBalances(b.accounts)
    ensures NonNegativeBalances(ValidatedDeposit(b, accountId, amount, clock).bank.accounts)
  {
  }

  lemma ValidatedWithdrawKeepsBalancesNonNegative(b: Bank, accountId: AccountId, amount: Money, clock: Clock)
    requires NonNegativeBalances(b.accounts)
    ensures NonNegativeBalances(ValidatedWithdraw(b, accountId, amount, clock).bank.accounts)
  {
  }

  lemma ValidatedTransferKeepsBalancesNonNegative(b: Bank, originId: AccountId, destinationId: AccountId, amount: Money, clock: Clock)
    requires NonNegativeBalances(b.accounts)
    ensures NonNegativeBalances(ValidatedTransfer(b, originId, destinationId, amount, clock).bank.accounts)
  {
  }
}
