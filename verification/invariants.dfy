/**
 * What holds of every store the services can produce from an empty one:
 * account identities come from the identity counter and numbers from
 * identities, records carry consecutive identities, are COMPLETADA, and
 * reference existing accounts on the sides their type calls for.
 */
module Invariants {
  import opened Wrappers
  import opened Domain
  import opened AccountNumbers

  /** The shape a stored record has, by type: a deposit has no origin, a withdrawal no destination, a transfer two distinct sides. */
  predicate WellFormedRecord(t: Transaction, accounts: map<AccountId, Account>)
  {
    && t.status == Completed
    && match t.txType
       case DepositTx =>
         t.origin.None? && t.destination.Some? && t.destination.value in accounts
       case WithdrawalTx =>
         t.origin.Some? && t.origin.value in accounts && t.destination.None?
       case TransferTx =>
         && t.origin.Some? && t.origin.value in accounts
         && t.destination.Some? && t.destination.value in accounts
         && t.origin != t.destination
  }

  ghost predicate Valid(b: Bank)
  {
    && 1 <= b.nextAccountId
    && (forall k :: k in b.accounts ==> 1 <= k < b.nextAccountId && b.accounts[k].number == AccountNumber(k))
    && (forall i :: 0 <= i < |b.log| ==> b.log[i].id == i + 1 && WellFormedRecord(b.log[i], b.accounts))
  }

  /** The store before the first account is opened. */
  const EmptyBank: Bank := Bank(map[], [], 1)

  lemma EmptyBankIsValid()
    ensures Valid(EmptyBank)
  {
  }

  /** No two accounts of a valid store share an account number. */
  lemma AccountNumbersAreUnique(b: Bank, j: AccountId, k: AccountId)
    requires Valid(b)
    requires j in b.accounts && k in b.accounts && j != k
    ensures b.accounts[j].number != b.accounts[k].number
  {
    AccountNumberInjective(j, k);
  }
}
