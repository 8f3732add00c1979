/**
 * The account service (`CuentaService`): opening an account, and the
 * status state machine consulted by explicit status-change requests.
 */
module AccountService {
  import opened Wrappers
  import opened Domain
  import opened AccountNumbers

  const AllStatuses: set<AccountStatus> := {Active, Blocked, Closed}

  /**
   * The transition table, written out pair by pair: a same-state request is
   * accepted from ACTIVA and BLOQUEADA, and the only moves are
   * ACTIVA -> BLOQUEADA, ACTIVA -> CERRADA and BLOQUEADA -> ACTIVA.
   */
  const AllowedTransitions: set<(AccountStatus, AccountStatus)> :=
    {(Active, Active), (Blocked, Blocked), (Active, Blocked), (Active, Closed), (Blocked, Active)}

  /** `validarTransicionEstado`: a CERRADA account rejects first, then same-state passes, then the switch. */
  function ValidateTransition(current: AccountStatus, requested: AccountStatus): (v: Validation<Error>)
    ensures v.Pass? <==> (current, requested) in AllowedTransitions
    ensures current == Closed ==> v == Fail(AccountClosed)
    ensures current != Closed && v.Fail? ==> v == Fail(TransitionNotAllowed(current, requested))
  {
    if current == Closed then Fail(AccountClosed)
    else if current == requested then
      assert current == Active || current == Blocked;
      Pass
    else
      var valid :=
        match current
        case Active => requested == Blocked || requested == Closed
        case Blocked => requested == Active
        case Closed => false;
      if !valid then Fail(TransitionNotAllowed(current, requested)) else Pass
  }

  /** Exactly five of the nine (current, requested) pairs are accepted. */
  lemma TransitionTableIsExhaustive()
    ensures |set c, r | c in AllStatuses && r in AllStatuses :: (c, r)| == 9
    ensures (set c, r | c in AllStatuses && r in AllStatuses && ValidateTransition(c, r).Pass? :: (c, r))
            == AllowedTransitions
    ensures |AllowedTransitions| == 5
  {
    var all := set c, r | c in AllStatuses && r in AllStatuses :: (c, r);
    assert all == {(Active, Active), (Active, Blocked), (Active, Closed),
                   (Blocked, Active), (Blocked, Blocked), (Blocked, Closed),
                   (Closed, Active), (Closed, Blocked), (Closed, Closed)};
  }

  /**
   * `cambiarEstado`: looks the account up, validates the transition and
   * stores the requested status; the returned value is the updated account.
   */
  function ChangeStatus(b: Bank, id: AccountId, requested: AccountStatus): (o: Outcome<Account>)
    ensures id !in b.accounts ==> o.result == Failure(AccountNotFound(id))
    ensures o.result.Failure? ==> o.bank == b
    ensures o.result.Success? <==> id in b.accounts && (b.accounts[id].status, requested) in AllowedTransitions
    ensures o.result.Success? ==>
              && o.result.value.status == requested
              && o.result.value == b.accounts[id].(status := requested)
              && o.bank == b.(accounts := b.accounts[id := o.result.value])
    ensures o.result.Success? && requested == b.accounts[id].status ==> o.bank == b
  {
    if id !in b.accounts then Outcome(b, Failure(AccountNotFound(id)))
    else
      var account := b.accounts[id];
      match ValidateTransition(account.status, requested)
      case Fail(e) => Outcome(b, Failure(e))
      case Pass =>
        var updated := account.(status := requested);
        Outcome(b.(accounts := b.accounts[id := updated]), Success(updated))
  }

  /**
   * The balance and policy values an account starts with. The account
   * service itself does not set them; they are supplied by the caller.
   */
  datatype AccountTerms = AccountTerms(
    dailyWithdrawalLimit: Money,
    minimumBalance: Money,
    minimumOpeningDeposit: Money,
    transferLimit: Money,
    balance: Money)

  /**
   * `crearCuenta`: the owner must exist; the new account takes the next
   * identity, starts ACTIVA, and is numbered from that identity.
   */
  function OpenAccount(b: Bank, clients: set<ClientId>, owner: ClientId, accountType: AccountType, terms: AccountTerms): (o: Outcome<AccountId>)
    ensures o.result.Failure? ==> o.bank == b && o.result.error == ClientNotFound(owner)
    ensures o.result.Success? <==> owner in clients
    ensures o.result.Success? ==>
              var id := o.result.value;
              && id == b.nextAccountId
              && o.bank.nextAccountId == id + 1
              && o.bank.log == b.log
              && o.bank.accounts.Keys == b.accounts.Keys + {id}
              && (forall k :: k in b.accounts && k != id ==> o.bank.accounts[k] == b.accounts[k])
              && o.bank.accounts[id].status == Active
              && o.bank.accounts[id].owner == owner
              && o.bank.accounts[id].accountType == accountType
              && ParseAccountNumber(o.bank.accounts[id].number) == Some(id)
              && o.bank.accounts[id].balance == terms.balance
              && o.bank.accounts[id].dailyWithdrawalLimit == terms.dailyWithdrawalLimit
              && o.bank.accounts[id].minimumBalance == terms.minimumBalance
              && o.bank.accounts[id].minimumOpeningDeposit == terms.minimumOpeningDeposit
              && o.bank.accounts[id].transferLimit == terms.transferLimit
  {
    if owner !in clients then Outcome(b, Failure(ClientNotFound(owner)))
    else
      var id := b.nextAccountId;
      AccountNumberRoundTrip(id);
      var account := Account(AccountNumber(id), Active, accountType, owner,
                             terms.dailyWithdrawalLimit, terms.minimumBalance,
                             terms.minimumOpeningDeposit, terms.transferLimit, terms.balance);
      Outcome(Bank(b.accounts[id := account], b.log, id + 1), Success(id))
  }
}
