/**
 * The validation rules of each money movement, written as an ordered table
 * of (condition, error) rows: an operation must fail with the error of the
 * first row whose condition holds, and succeed when no row holds.
 */
module PolicyRules {
  import opened Wrappers
  import opened Domain

  datatype Rule = Rule(violated: bool, error: Error)

  /** The error of the first violated rule, if any. */
  function FirstViolation(rules: seq<Rule>): (r: Option<Error>)
    ensures r.None? <==> forall i :: 0 <= i < |rules| ==> !rules[i].violated
    ensures r.Some? ==> exists i :: 0 <= i < |rules| && rules[i].violated && rules[i].error == r.value
                                    && forall j :: 0 <= j < i ==> !rules[j].violated
  {
    if rules == [] then None
    else if rules[0].violated then Some(rules[0].error)
    else
      var r := FirstViolation(rules[1..]);
      assert r.Some? ==> exists i :: 1 <= i < |rules| && rules[i].violated && rules[i].error == r.value
                                     && forall j :: 0 <= j < i ==> !rules[j].violated by {
        if r.Some? {
          var i :| 0 <= i < |rules[1..]| && rules[1..][i].violated && rules[1..][i].error == r.value
                   && forall j :: 0 <= j < i ==> !rules[1..][j].violated;
          assert rules[i + 1] == rules[1..][i];
          assert forall j :: 1 <= j < i + 1 ==> rules[j] == rules[1..][j - 1];
        }
      }
      r
  }

  /** Rule table of a deposit into an existing account. */
  function DepositRules(account: Account): seq<Rule>
  {
    [Rule(account.status != Active, InactiveAccount)]
  }

  /** The balance rules every debit obeys: funds first, then the floor. */
  function BalanceRules(account: Account, amount: Money): seq<Rule>
  {
    [ Rule(amount > account.balance, InsufficientFunds),
      Rule(account.balance - amount < account.minimumBalance, BelowMinimumBalance(account.minimumBalance)) ]
  }

  /** The daily-limit rule, given what the account has withdrawn today. */
  function DailyRule(account: Account, amount: Money, withdrawnToday: Money): Rule
  {
    Rule(withdrawnToday + amount > account.dailyWithdrawalLimit,
         DailyLimitExceeded(account.dailyWithdrawalLimit, withdrawnToday))
  }

  /** Rule table of a withdrawal from an existing account. */
  function WithdrawalRules(account: Account, amount: Money, withdrawnToday: Money): seq<Rule>
  {
    [Rule(account.status != Active, InactiveAccount)]
    + BalanceRules(account, amount)
    + [DailyRule(account, amount, withdrawnToday)]
  }

  /** Rule table of a transfer between two existing accounts. */
  function TransferRules(origin: Account, destination: Account, sameAccount: bool, amount: Money, withdrawnToday: Money): seq<Rule>
  {
    [ Rule(amount > origin.transferLimit, TransferLimitExceeded(origin.transferLimit)),
      Rule(sameAccount, SelfTransfer),
      Rule(destination.status != Active || origin.status != Active, InactiveAccounts) ]
    + BalanceRules(origin, amount)
    + [DailyRule(origin, amount, withdrawnToday)]
  }
}
