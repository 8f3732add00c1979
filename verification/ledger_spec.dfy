/**
 * Reference definitions the transaction service is proved against, written
 * independently of the service's own step-by-step code: what a recorded
 * transaction does to the account table, the total money held, and the
 * amount an account has withdrawn today.
 */
module LedgerSpec {
  import opened Wrappers
  import opened Domain

  /** The signed effect of one record on the balance of account `k`. */
  function NetFlow(t: Transaction, k: AccountId): Money
  {
    (if t.destination == Some(k) then t.amount else 0.0)
    - (if t.origin == Some(k) then t.amount else 0.0)
  }

  /** The account table after replaying record `t` on it: only balances move. */
  function Replay(accounts: map<AccountId, Account>, t: Transaction): (r: map<AccountId, Account>)
    ensures r.Keys == accounts.Keys
  {
    map k | k in accounts :: accounts[k].(balance := accounts[k].balance + NetFlow(t, k))
  }

  /**
   * The store `after` is the store `before` with record `t` appended and
   * replayed: every balance moves by exactly the record's net flow, nothing
   * else about any account changes, and no account appears or disappears.
   */
  ghost predicate Records(before: Bank, after: Bank, t: Transaction)
  {
    after == Bank(Replay(before.accounts, t), before.log + [t], before.nextAccountId)
  }

  /** The money entering the bank with record `t` (negative when it leaves). */
  function ExternalFlow(t: Transaction): Money
  {
    (if t.destination.Some? then t.amount else 0.0) - (if t.origin.Some? then t.amount else 0.0)
  }

  lemma NonEmptyHasKey(m: map<AccountId, Account>)
    requires |m| > 0
    ensures exists k :: k in m
  {
    if forall k :: k !in m {
      // a table without keys has size zero
      assert false;
    }
  }

  ghost function Pick(m: map<AccountId, Account>): (k: AccountId)
    requires |m| > 0
    ensures k in m
  {
    NonEmptyHasKey(m);
    var k :| k in m; k
  }

  /** The total of all balances held in the account table. */
  ghost function Total(m: map<AccountId, Account>): Money
    decreases |m|
  {
    if |m| == 0 then 0.0
    else
      var k := Pick(m);
      assert |m - {k}| == |m| - 1;
      m[k].balance + Total(m - {k})
  }

  /** Any account can be taken out of the total first. */
  lemma {:induction false} TotalRemove(m: map<AccountId, Account>, k: AccountId)
    requires k in m
    ensures Total(m) == m[k].balance + Total(m - {k})
    decreases |m|
  {
    var j := Pick(m);
    if j != k {
      assert |m - {j}| == |m| - 1;
      TotalRemove(m - {j}, k);
      assert |m - {k}| == |m| - 1;
      TotalRemove(m - {k}, j);
      assert m - {j} - {k} == m - {k} - {j};
    }
  }

  /** Replacing one account changes the total by the change in its balance. */
  lemma TotalUpdate(m: map<AccountId, Account>, k: AccountId, a: Account)
    requires k in m
    ensures Total(m[k := a]) == Total(m) - m[k].balance + a.balance
  {
    TotalRemove(m, k);
    TotalRemove(m[k := a], k);
    assert m[k := a] - {k} == m - {k};
  }

  /** Adding a new account adds its balance to the total. */
  lemma TotalInsert(m: map<AccountId, Account>, k: AccountId, a: Account)
    requires k !in m
    ensures Total(m[k := a]) == Total(m) + a.balance
  {
    TotalRemove(m[k := a], k);
    assert m[k := a] - {k} == m;
  }

  /** A two-sided record debits its origin and credits its destination, and touches nothing else. */
  lemma ReplayTwoSided(m: map<AccountId, Account>, t: Transaction, o: AccountId, d: AccountId)
    requires o in m && d in m && o != d
    requires t.origin == Some(o) && t.destination == Some(d)
    ensures Replay(m, t)
            == m[o := m[o].(balance := m[o].balance - t.amount)][d := m[d].(balance := m[d].balance + t.amount)]
  {
    var r := Replay(m, t);
    var u := m[o := m[o].(balance := m[o].balance - t.amount)][d := m[d].(balance := m[d].balance + t.amount)];
    forall j | j in r
      ensures r[j] == u[j]
    {
      if j != o && j != d {
        assert NetFlow(t, j) == 0.0;
      }
    }
  }

  /** Replaying a record on a table equals writing back its accounts one by one. */
  lemma ReplayAsUpdate(m: map<AccountId, Account>, t: Transaction, m1: map<AccountId, Account>, k: AccountId)
    requires k in m && m1.Keys == m.Keys
    requires forall j :: j in m && j != k ==> m1[j] == Replay(m, t)[j]
    ensures Replay(m, t) == m1[k := Replay(m, t)[k]]
  {
    var r := Replay(m, t);
    assert forall j :: j in r ==> r[j] == m1[k := r[k]][j];
  }

  /**
   * Conservation: replaying a record whose accounts exist and differ moves
   * the total by exactly its external flow, so a transfer moves it by nothing.
   */
  lemma TotalAfterReplay(m: map<AccountId, Account>, t: Transaction)
    requires t.origin.Some? ==> t.origin.value in m
    requires t.destination.Some? ==> t.destination.value in m
    requires t.origin.Some? ==> t.origin != t.destination
    ensures Total(Replay(m, t)) == Total(m) + ExternalFlow(t)
  {
    if t.origin.Some? && t.destination.Some? {
      TotalAfterTwoSidedReplay(m, t);
    } else if t.origin.Some? {
      TotalAfterOneSidedReplay(m, t, t.origin.value);
    } else if t.destination.Some? {
      TotalAfterOneSidedReplay(m, t, t.destination.value);
    } else {
      var r := Replay(m, t);
      forall j | j in r
        ensures r[j] == m[j]
      {
        assert NetFlow(t, j) == 0.0;
      }
      assert r == m;
    }
  }

  lemma TotalAfterOneSidedReplay(m: map<AccountId, Account>, t: Transaction, k: AccountId)
    requires k in m
    requires (t.origin == Some(k) && t.destination.None?) || (t.origin.None? && t.destination == Some(k))
    ensures Total(Replay(m, t)) == Total(m) + ExternalFlow(t)
  {
    var r := Replay(m, t);
    forall j | j in m && j != k
      ensures m[j] == r[j]
    {
      assert NetFlow(t, j) == 0.0;
    }
    ReplayAsUpdate(m, t, m, k);
    TotalUpdate(m, k, r[k]);
  }

  lemma TotalAfterTwoSidedReplay(m: map<AccountId, Account>, t: Transaction)
    requires t.origin.Some? && t.origin.value in m
    requires t.destination.Some? && t.destination.value in m
    requires t.origin != t.destination
    ensures Total(Replay(m, t)) == Total(m) + ExternalFlow(t)
  {
    var r := Replay(m, t);
    var o, d := t.origin.value, t.destination.value;
    var m1 := m[o := r[o]];
    forall j | j in m && j != d
      ensures m1[j] == r[j]
    {
      if j != o {
        assert NetFlow(t, j) == 0.0;
      }
    }
    TotalUpdate(m, o, r[o]);
    ReplayAsUpdate(m, t, m1, d);
    TotalUpdate(m1, d, r[d]);
  }

  /** The balance column of an account table. */
  function Balances(m: map<AccountId, Account>): (r: map<AccountId, Money>)
    ensures r.Keys == m.Keys
  {
    map k | k in m :: m[k].balance
  }

  /** Balances after replaying a list of records in order, starting from `start`. */
  function ReplayBalances(start: map<AccountId, Money>, txs: seq<Transaction>): (r: map<AccountId, Money>)
    ensures r.Keys == start.Keys
  {
    if txs == [] then start
    else
      var before := ReplayBalances(start, txs[..|txs| - 1]);
      map k | k in before :: before[k] + NetFlow(txs[|txs| - 1], k)
  }

  lemma ReplayBalancesAppendOne(start: map<AccountId, Money>, txs: seq<Transaction>, t: Transaction)
    ensures ReplayBalances(start, txs + [t])
            == (var before := ReplayBalances(start, txs); map k | k in before :: before[k] + NetFlow(t, k))
  {
    assert (txs + [t])[..|txs|] == txs;
  }

  /** Records that leave account `k` alone replay the same way whatever its starting balance. */
  lemma {:induction false} ReplayBalancesFreshKey(start: map<AccountId, Money>, txs: seq<Transaction>, k: AccountId, v: Money)
    requires forall i :: 0 <= i < |txs| ==> NetFlow(txs[i], k) == 0.0
    ensures ReplayBalances(start[k := v], txs) == ReplayBalances(start, txs)[k := v]
    decreases |txs|
  {
    if txs != [] {
      var prefix := txs[..|txs| - 1];
      var t := txs[|txs| - 1];
      assert forall i :: 0 <= i < |prefix| ==> prefix[i] == txs[i];
      ReplayBalancesFreshKey(start, prefix, k, v);
      var r := ReplayBalances(start[k := v], txs);
      var u := ReplayBalances(start, txs)[k := v];
      assert r.Keys == u.Keys;
      forall j | j in r
        ensures r[j] == u[j]
      {
        if j == k {
          assert NetFlow(t, k) == 0.0;
        }
      }
    }
  }

  /** Replaying a record on the table moves its balance column the same way. */
  lemma BalancesOfReplay(m: map<AccountId, Account>, t: Transaction)
    ensures Balances(Replay(m, t)) == (var before := Balances(m); map k | k in before :: before[k] + NetFlow(t, k))
  {
  }

  /** Whether record `t` counts toward the account's withdrawals of the day. */
  predicate CountsTowardDailyLimit(t: Transaction, accountId: AccountId, clock: Clock)
  {
    && t.txType == WithdrawalTx
    && t.origin == Some(accountId)
    && clock.dayStart <= t.timestamp <= clock.dayEnd
  }

  /**
   * The amount withdrawn today from the account: every RETIRO record
   * originating there and stamped within the day, whatever its status.
   * Transfers out of the account do not count.
   */
  function DailyWithdrawals(log: seq<Transaction>, accountId: AccountId, clock: Clock): Money
  {
    if log == [] then 0.0
    else
      var t := log[|log| - 1];
      DailyWithdrawals(log[..|log| - 1], accountId, clock)
      + (if CountsTowardDailyLimit(t, accountId, clock) then t.amount else 0.0)
  }

  lemma DailyWithdrawalsAppend(log: seq<Transaction>, t: Transaction, accountId: AccountId, clock: Clock)
    ensures DailyWithdrawals(log + [t], accountId, clock)
            == DailyWithdrawals(log, accountId, clock)
               + (if CountsTowardDailyLimit(t, accountId, clock) then t.amount else 0.0)
  {
    assert (log + [t])[..|log|] == log;
  }
}
