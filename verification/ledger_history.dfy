/**
 * Sequences of requests against one store, served by the services as
 * written. Every balance is its starting value (or opening balance) plus
 * the net flow of the records stored since, and the total held changes
 * only by deposits minus withdrawals plus the opening balances of the
 * accounts opened. Served through the validated endpoints instead, no
 * balance ever goes negative.
 */
module LedgerHistory {
  import opened Wrappers
  import opened Domain
  import opened LedgerSpec
  import opened Invariants
  import opened TransactionService
  import opened AccountService
  import opened TransactionProperties
  import opened RequestValidation

  /** A request to one of the store-mutating operations: open an account, move money, or change status. */
  datatype Request =
    | OpenAccountRequest(clients: set<ClientId>, owner: ClientId, accountType: AccountType, terms: AccountTerms)
    | DepositRequest(accountId: AccountId, amount: Money, clock: Clock)
    | WithdrawalRequest(accountId: AccountId, amount: Money, clock: Clock)
    | TransferRequest(originId: AccountId, destinationId: AccountId, amount: Money, clock: Clock)
    | StatusChangeRequest(accountId: AccountId, requested: AccountStatus)

  /** The store as committed after serving one request, whether it succeeded or failed. */
  function Serve(b: Bank, r: Request): Bank
  {
    match r
    case OpenAccountRequest(clients, owner, accountType, terms) => OpenAccount(b, clients, owner, accountType, terms).bank
    case DepositRequest(id, amount, clock) => Deposit(b, id, amount, clock).bank
    case WithdrawalRequest(id, amount, clock) => Withdraw(b, id, amount, clock).bank
    case TransferRequest(originId, destinationId, amount, clock) => Transfer(b, originId, destinationId, amount, clock).bank
    case StatusChangeRequest(id, requested) => ChangeStatus(b, id, requested).bank
  }

  /** The store after serving the requests one after another. */
  function ServeAll(b: Bank, rs: seq<Request>): Bank
  {
    if rs == [] then b else Serve(ServeAll(b, rs[..|rs| - 1]), rs[|rs| - 1])
  }

  /** Like `Serve`, with money movements going through the validated endpoints. */
  function ServeValidated(b: Bank, r: Request): Bank
  {
    match r
    case DepositRequest(id, amount, clock) => ValidatedDeposit(b, id, amount, clock).bank
    case WithdrawalRequest(id, amount, clock) => ValidatedWithdraw(b, id, amount, clock).bank
    case TransferRequest(originId, destinationId, amount, clock) => ValidatedTransfer(b, originId, destinationId, amount, clock).bank
    case _ => Serve(b, r)
  }

  /** The store after serving the requests one after another through the validated endpoints. */
  function ServeAllValidated(b: Bank, rs: seq<Request>): Bank
  {
    if rs == [] then b else ServeValidated(ServeAllValidated(b, rs[..|rs| - 1]), rs[|rs| - 1])
  }

  /** The identity and opening balance of the account a request opens on store `b`, if it opens one. */
  function OpeningOf(b: Bank, r: Request): Option<(AccountId, Money)>
  {
    match r
    case OpenAccountRequest(clients, owner, accountType, terms) =>
      var o := OpenAccount(b, clients, owner, accountType, terms);
      if o.result.Success? then Some((o.result.value, terms.balance)) else None
    case _ => None
  }

  /** A balance column with the opening balance of a newly opened account, if any, added. */
  function WithOpening(m: map<AccountId, Money>, opening: Option<(AccountId, Money)>): map<AccountId, Money>
  {
    match opening
    case None => m
    case Some(p) => m[p.0 := p.1]
  }

  lemma UnionWithOpening(a: map<AccountId, Money>, m: map<AccountId, Money>, opening: Option<(AccountId, Money)>)
    ensures a + WithOpening(m, opening) == WithOpening(a + m, opening)
  {
  }

  /** The opening balances of the accounts a history opens, by identity. */
  function OpenedBalances(b: Bank, rs: seq<Request>): map<AccountId, Money>
  {
    if rs == [] then map[]
    else WithOpening(OpenedBalances(b, rs[..|rs| - 1]), OpeningOf(ServeAll(b, rs[..|rs| - 1]), rs[|rs| - 1]))
  }

  /** The money brought in by the opening balances of the accounts a history opens. */
  function OpenedMoney(b: Bank, rs: seq<Request>): Money
  {
    if rs == [] then 0.0
    else
      var before := OpenedMoney(b, rs[..|rs| - 1]);
      match OpeningOf(ServeAll(b, rs[..|rs| - 1]), rs[|rs| - 1])
      case None => before
      case Some(opening) => before + opening.1
  }

  /** No request of the history opens an account. */
  predicate OpensNoAccount(rs: seq<Request>)
  {
    forall i :: 0 <= i < |rs| ==> !rs[i].OpenAccountRequest?
  }

  /** The money entering the bank through a list of records. */
  function NetExternalFlow(txs: seq<Transaction>): Money
  {
    if txs == [] then 0.0 else NetExternalFlow(txs[..|txs| - 1]) + ExternalFlow(txs[|txs| - 1])
  }

  /**
   * One request either stores one record replayed on the table, or opens
   * one fresh account with its opening balance, or leaves log and balances
   * alone.
   */
  lemma ServeOne(b: Bank, r: Request) returns (recorded: bool, t: Transaction)
    ensures recorded ==> Records(b, Serve(b, r), t) && t.id == |b.log| + 1 && WellFormedRecord(t, b.accounts)
    ensures recorded ==> OpeningOf(b, r).None?
    ensures !recorded ==> Serve(b, r).log == b.log
    ensures !recorded && OpeningOf(b, r).None? ==> Balances(Serve(b, r).accounts) == Balances(b.accounts)
    ensures OpeningOf(b, r).Some? ==>
              var id := OpeningOf(b, r).value.0;
              && id == b.nextAccountId
              && Serve(b, r).accounts == b.accounts[id := Serve(b, r).accounts[id]]
              && Serve(b, r).accounts[id].balance == OpeningOf(b, r).value.1
  {
    recorded, t := false, Transaction(0, DepositTx, Pending, 0, None, None, 0.0);
    match r
    case OpenAccountRequest(clients, owner, accountType, terms) =>
      var o := OpenAccount(b, clients, owner, accountType, terms);
      if o.result.Success? {
        var id := o.result.value;
        assert o.bank.accounts == b.accounts[id := o.bank.accounts[id]];
      }
    case DepositRequest(id, amount, clock) =>
      var o := Deposit(b, id, amount, clock);
      if o.result.Success? { recorded, t := true, o.result.value; }
    case WithdrawalRequest(id, amount, clock) =>
      var o := Withdraw(b, id, amount, clock);
      if o.result.Success? { recorded, t := true, o.result.value; }
    case TransferRequest(originId, destinationId, amount, clock) =>
      var o := Transfer(b, originId, destinationId, amount, clock);
      if o.result.Success? { recorded, t := true, o.result.value; }
    case StatusChangeRequest(id, requested) =>
      var o := ChangeStatus(b, id, requested);
      if o.result.Success? {
        assert Balances(o.bank.accounts) == Balances(b.accounts) by {
          assert forall k :: k in b.accounts ==> o.bank.accounts[k].balance == b.accounts[k].balance;
        }
      }
  }

  /** Serving requests keeps the store valid. */
  lemma {:induction false} ServeAllPreservesValid(b: Bank, rs: seq<Request>)
    requires Valid(b)
    ensures Valid(ServeAll(b, rs))
    decreases |rs|
  {
    if rs != [] {
      var b1 := ServeAll(b, rs[..|rs| - 1]);
      ServeAllPreservesValid(b, rs[..|rs| - 1]);
      match rs[|rs| - 1]
      case OpenAccountRequest(clients, owner, accountType, terms) => OpenAccountPreservesValid(b1, clients, owner, accountType, terms);
      case DepositRequest(id, amount, clock) => DepositPreservesValid(b1, id, amount, clock);
      case WithdrawalRequest(id, amount, clock) => WithdrawPreservesValid(b1, id, amount, clock);
      case TransferRequest(originId, destinationId, amount, clock) => TransferPreservesValid(b1, originId, destinationId, amount, clock);
      case StatusChangeRequest(id, requested) => ChangeStatusPreservesValid(b1, id, requested);
    }
  }

  /**
   * Served through validated requests, balances never go negative, provided
   * they start non-negative and every account is opened with a
   * non-negative balance.
   */
  lemma {:induction false} ServeAllKeepsBalancesNonNegative(b: Bank, rs: seq<Request>)
    requires NonNegativeBalances(b.accounts)
    requires forall i :: 0 <= i < |rs| && rs[i].OpenAccountRequest? ==> rs[i].terms.balance >= 0.0
    ensures NonNegativeBalances(ServeAllValidated(b, rs).accounts)
    decreases |rs|
  {
    if rs != [] {
      var prefix := rs[..|rs| - 1];
      assert forall i :: 0 <= i < |prefix| ==> prefix[i] == rs[i];
      ServeAllKeepsBalancesNonNegative(b, prefix);
      var b1 := ServeAllValidated(b, prefix);
      match rs[|rs| - 1]
      case OpenAccountRequest(clients, owner, accountType, terms) =>
        assert terms.balance >= 0.0 by {
          assert rs[|rs| - 1].OpenAccountRequest?;
        }
      case DepositRequest(id, amount, clock) => ValidatedDepositKeepsBalancesNonNegative(b1, id, amount, clock);
      case WithdrawalRequest(id, amount, clock) => ValidatedWithdrawKeepsBalancesNonNegative(b1, id, amount, clock);
      case TransferRequest(originId, destinationId, amount, clock) =>
        ValidatedTransferKeepsBalancesNonNegative(b1, originId, destinationId, amount, clock);
      case StatusChangeRequest(id, requested) =>
    }
  }

  /** Serving requests only ever appends to the transaction table. */
  lemma {:induction false} HistoryExtendsLog(b: Bank, rs: seq<Request>)
    ensures |b.log| <= |ServeAll(b, rs).log|
    ensures ServeAll(b, rs).log[..|b.log|] == b.log
    decreases |rs|
  {
    if rs != [] {
      var b1 := ServeAll(b, rs[..|rs| - 1]);
      HistoryExtendsLog(b, rs[..|rs| - 1]);
      var recorded, t := ServeOne(b1, rs[|rs| - 1]);
      if recorded {
        assert ServeAll(b, rs).log == b1.log + [t];
      }
    }
  }

  /** In a valid store, no stored record touches the identity the next opened account receives. */
  lemma StoredRecordsLeaveNextAccountAlone(b: Bank, from: nat)
    requires Valid(b) && from <= |b.log|
    ensures forall i :: 0 <= i < |b.log[from..]| ==> NetFlow(b.log[from..][i], b.nextAccountId) == 0.0
  {
    forall i | 0 <= i < |b.log[from..]|
      ensures NetFlow(b.log[from..][i], b.nextAccountId) == 0.0
    {
      assert b.log[from..][i] == b.log[from + i];
      assert WellFormedRecord(b.log[from + i], b.accounts);
    }
  }

  /** One request extends the balance replay of a history by its record, or by its opening balance. */
  lemma ReplayHistoryStep(b: Bank, b1: Bank, start1: map<AccountId, Money>, r: Request)
    requires |b.log| <= |b1.log|
    requires Balances(b1.accounts) == ReplayBalances(start1, b1.log[|b.log|..])
    requires OpeningOf(b1, r).Some? ==> Valid(b1)
    ensures |b.log| <= |Serve(b1, r).log|
    ensures Balances(Serve(b1, r).accounts)
            == ReplayBalances(WithOpening(start1, OpeningOf(b1, r)), Serve(b1, r).log[|b.log|..])
  {
    var recorded, t := ServeOne(b1, r);
    if recorded {
      ReplayRecordedStep(b, b1, start1, Serve(b1, r), t);
    } else if OpeningOf(b1, r).Some? {
      ReplayOpeningStep(b, b1, start1, Serve(b1, r), OpeningOf(b1, r).value.0, OpeningOf(b1, r).value.1);
    }
  }

  lemma ReplayRecordedStep(b: Bank, b1: Bank, start1: map<AccountId, Money>, b2: Bank, t: Transaction)
    requires |b.log| <= |b1.log|
    requires Balances(b1.accounts) == ReplayBalances(start1, b1.log[|b.log|..])
    requires Records(b1, b2, t)
    ensures |b.log| <= |b2.log|
    ensures Balances(b2.accounts) == ReplayBalances(start1, b2.log[|b.log|..])
  {
    var added := b1.log[|b.log|..];
    assert b2.log[|b.log|..] == added + [t];
    ReplayBalancesAppendOne(start1, added, t);
    BalancesOfReplay(b1.accounts, t);
  }

  lemma ReplayOpeningStep(b: Bank, b1: Bank, start1: map<AccountId, Money>, b2: Bank, id: AccountId, v: Money)
    requires |b.log| <= |b1.log|
    requires Balances(b1.accounts) == ReplayBalances(start1, b1.log[|b.log|..])
    requires Valid(b1) && id == b1.nextAccountId
    requires b2.log == b1.log
    requires id in b2.accounts && b2.accounts == b1.accounts[id := b2.accounts[id]] && b2.accounts[id].balance == v
    ensures Balances(b2.accounts) == ReplayBalances(start1[id := v], b2.log[|b.log|..])
  {
    StoredRecordsLeaveNextAccountAlone(b1, |b.log|);
    ReplayBalancesFreshKey(start1, b1.log[|b.log|..], id, v);
    assert Balances(b2.accounts) == Balances(b1.accounts)[id := v];
  }

  /**
   * The transaction table only grows, and every account's balance equals
   * its balance at the start, or its opening balance if the history opened
   * it, plus the net flow of the records stored since. Opening an account
   * needs a valid store, whose identity counter is fresh.
   */
  lemma {:induction false} BalancesAreReplayOfHistory(b: Bank, rs: seq<Request>)
    requires Valid(b) || OpensNoAccount(rs)
    ensures |b.log| <= |ServeAll(b, rs).log|
    ensures Balances(ServeAll(b, rs).accounts)
            == ReplayBalances(Balances(b.accounts) + OpenedBalances(b, rs), ServeAll(b, rs).log[|b.log|..])
    decreases |rs|
  {
    if rs == [] {
      assert b.log[|b.log|..] == [];
      assert Balances(b.accounts) + map[] == Balances(b.accounts);
    } else {
      var prefix := rs[..|rs| - 1];
      var r := rs[|rs| - 1];
      var b1 := ServeAll(b, prefix);
      assert OpensNoAccount(rs) ==> OpensNoAccount(prefix) by {
        assert forall i :: 0 <= i < |prefix| ==> prefix[i] == rs[i];
      }
      BalancesAreReplayOfHistory(b, prefix);
      var opening := OpeningOf(b1, r);
      if opening.Some? {
        assert !OpensNoAccount(rs);
        ServeAllPreservesValid(b, prefix);
      }
      var start1 := Balances(b.accounts) + OpenedBalances(b, prefix);
      ReplayHistoryStep(b, b1, start1, r);
      UnionWithOpening(Balances(b.accounts), OpenedBalances(b, prefix), opening);
    }
  }

  /**
   * One request on a valid store moves the total by the external flow of
   * the record it stores, if any, or by the opening balance of the account
   * it opens, if any.
   */
  lemma TotalAfterServe(b: Bank, r: Request) returns (recorded: bool, t: Transaction)
    requires Valid(b)
    ensures recorded ==> Serve(b, r).log == b.log + [t] && OpeningOf(b, r).None?
                         && Total(Serve(b, r).accounts) == Total(b.accounts) + ExternalFlow(t)
    ensures !recorded ==> Serve(b, r).log == b.log
    ensures !recorded && OpeningOf(b, r).Some? ==>
              Total(Serve(b, r).accounts) == Total(b.accounts) + OpeningOf(b, r).value.1
    ensures !recorded && OpeningOf(b, r).None? ==> Total(Serve(b, r).accounts) == Total(b.accounts)
  {
    var after := Serve(b, r);
    recorded, t := ServeOne(b, r);
    if recorded {
      TotalAfterReplay(b.accounts, t);
    } else if OpeningOf(b, r).Some? {
      var id := OpeningOf(b, r).value.0;
      assert id !in b.accounts;
      TotalInsert(b.accounts, id, after.accounts[id]);
    } else {
      assert forall j :: j in b.accounts ==> b.accounts[j].balance == Balances(b.accounts)[j];
      assert forall j :: j in after.accounts ==> after.accounts[j].balance == Balances(after.accounts)[j];
      TotalDependsOnBalancesOnly(b.accounts, after.accounts);
    }
  }

  /**
   * Conservation over a history: the total held moves only by deposits
   * minus withdrawals, plus the opening balances of the accounts opened.
   */
  lemma {:induction false} TotalMovesByExternalFlow(b: Bank, rs: seq<Request>)
    requires Valid(b)
    ensures |b.log| <= |ServeAll(b, rs).log|
    ensures Total(ServeAll(b, rs).accounts)
            == Total(b.accounts) + NetExternalFlow(ServeAll(b, rs).log[|b.log|..]) + OpenedMoney(b, rs)
    decreases |rs|
  {
    HistoryExtendsLog(b, rs);
    if rs == [] {
      assert b.log[|b.log|..] == [];
    } else {
      var b1 := ServeAll(b, rs[..|rs| - 1]);
      var b2 := ServeAll(b, rs);
      TotalMovesByExternalFlow(b, rs[..|rs| - 1]);
      HistoryExtendsLog(b, rs[..|rs| - 1]);
      ServeAllPreservesValid(b, rs[..|rs| - 1]);
      var added := b1.log[|b.log|..];
      var recorded, t := TotalAfterServe(b1, rs[|rs| - 1]);
      if recorded {
        assert b2.log[|b.log|..] == added + [t];
        assert (added + [t])[..|added|] == added;
      } else {
        assert b2.log[|b.log|..] == added;
      }
    }
  }

  /** Two tables with the same accounts and the same balances hold the same total. */
  lemma {:induction false} TotalDependsOnBalancesOnly(m: map<AccountId, Account>, n: map<AccountId, Account>)
    requires m.Keys == n.Keys
    requires forall j :: j in m ==> m[j].balance == n[j].balance
    ensures Total(m) == Total(n)
    decreases |m|
  {
    if |m| > 0 {
      var k := Pick(m);
      TotalRemove(m, k);
      TotalRemove(n, k);
      assert |m - {k}| == |m| - 1;
      TotalDependsOnBalancesOnly(m - {k}, n - {k});
    }
  }
}
