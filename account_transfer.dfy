/**
 * `transfer` of account/service/TransferService.java: a transfer authorised
 * by the user's login password.
 */
module AccountTransferService {
  import opened Base
  import opened Accounts
  import opened Limits
  import opened Ledger
  import opened Transfers
  import Users

  datatype TransferRequest = TransferRequest(
    toAccountNumber: string,
    amount: int,
    password: string,
    description: string)

  /** The credential check of this variant. */
  function PasswordCheck(ok: bool): (o: Outcome)
    ensures o.Pass? <==> ok
    ensures o.Fail? ==> o.error == WrongPassword
  {
    if ok then Pass else Fail(WrongPassword)
  }

  /**
   * `user` is the signed-in user, `matches` the password encoder's check,
   * `today` the current date and `idempotencyKey` the fresh UUID of the call.
   */
  method Transfer(accounts: seq<Account>, limits: TransferLimitTable, log: TransactionLog,
                  user: Users.User, request: TransferRequest, matches: (string, string) -> bool,
                  today: Date, idempotencyKey: string)
    returns (r: Result<TransferResponse>)
    modifies accounts, limits, limits.rows, log
    ensures
      var sender := FindByUserId(accounts, user.id);
      var receiver := FindByNumber(accounts, request.toAccountNumber);
      var i := TransferInput(old(ViewOf(sender)), old(ViewOf(receiver)),
                             PasswordCheck(matches(request.password, user.password)),
                             old(SenderLimit(limits.rows, sender)),
                             today, request.amount, request.description, idempotencyKey);
      var e := Transfers.Transfer(i, false);
      // the call's result
      (r.Ok? <==> e.result.Ok?)
      && (r.Err? ==> r.error == e.result.error)
      && (r.Ok? ==> r.value == TransferResponse(sender.value.accountNumber, receiver.value.accountNumber,
                                                 receiver.value.user.name, request.amount,
                                                 request.description, COMPLETED, e.result.value))
      // balances: sender down and receiver up by what moved, nobody else touched
      && (forall a :: a in accounts ==>
            a.status == old(a.status)
            && a.balance == old(a.balance) - (if Some(a) == sender then e.moved else 0)
                                           + (if Some(a) == receiver then e.moved else 0))
      // the sender's limit row
      && (sender.Some? ==> SenderLimit(limits.rows, sender) == e.limit)
      && (forall l :: l in old(limits.rows) && (sender.None? || Some(l) != old(FindLimit(limits.rows, sender.value.id)))
            ==> l.State() == old(l.State()))
      && (limits.rows == old(limits.rows)
          || (i.limit.None? && |limits.rows| == |old(limits.rows)| + 1
              && limits.rows[..|old(limits.rows)|] == old(limits.rows)
              && fresh(limits.rows[|old(limits.rows)|])))
      // the transactions table
      && (e.saved.None? ==> log.entries == old(log.entries))
      && (e.saved.Some? ==>
            |log.entries| == |old(log.entries)| + 1
            && log.entries[..|old(log.entries)|] == old(log.entries)
            && fresh(log.entries[|old(log.entries)|])
            && log.entries[|old(log.entries)|].Record() == e.saved.value)
  {
    ghost var input := TransferInput(ViewOf(FindByUserId(accounts, user.id)),
                                     ViewOf(FindByNumber(accounts, request.toAccountNumber)),
                                     PasswordCheck(matches(request.password, user.password)),
                                     SenderLimit(limits.rows, FindByUserId(accounts, user.id)),
                                     today, request.amount, request.description, idempotencyKey);
    var found := FindByUserId(accounts, user.id);
    if found.None? {
      return Err(AccountNotFound);
    }
    var from := found.value;
    found := FindByNumber(accounts, request.toAccountNumber);
    if found.None? {
      return Err(ReceiverNotFound);
    }
    var to := found.value;
    if from.id == to.id {
      return Err(SelfTransfer);
    }
    if !matches(request.password, user.password) {
      return Err(WrongPassword);
    }

    assert input == TransferInput(Some(from.View()), Some(to.View()), Pass,
                                  SenderLimit(limits.rows, Some(from)),
                                  today, request.amount, request.description, idempotencyKey);
    var balance := ExecuteTransfer(from, to, limits, log, request.amount, request.description,
                                   idempotencyKey, today, false);
    if balance.Err? {
      return Err(balance.error);
    }
    r := Ok(TransferResponse(from.accountNumber, to.accountNumber, to.user.name, request.amount,
                             request.description, COMPLETED, balance.value));
  }
}
