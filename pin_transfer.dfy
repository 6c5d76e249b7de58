/**
 * `transfer` of transfer/service/TransferService.java: a transfer authorised
 * by the user's PIN.  The PIN check goes through the simple-password
 * service, so a wrong PIN is counted against the user, and the transfer
 * notification is sent inside the money-movement block, so a failing
 * notification fails the transfer after the money has moved.
 */
module PinTransferService {
  import opened Base
  import opened Accounts
  import opened Limits
  import opened Ledger
  import opened Transfers
  import opened SimplePasswords
  import Users

  datatype PinTransferRequest = PinTransferRequest(
    toAccountNumber: string,
    amount: int,
    simplePassword: string,
    description: string)

  /**
   * The rest of `transfer` once both accounts are found and differ: the PIN
   * check, then the checks and the money movement.
   */
  method TransferBetween(from: Account, to: Account, limits: TransferLimitTable, log: TransactionLog,
                         user: Users.User, pins: SimplePasswordService, request: PinTransferRequest,
                         today: Date, idempotencyKey: string, notificationFails: bool)
    returns (r: Result<int>)
    requires from.id != to.id
    modifies from`balance, to`balance, limits, limits.rows, log, user
    ensures
      var check := Verify(old(user.State()), request.simplePassword, pins.matches);
      var i := TransferInput(Some(old(from.View())), Some(old(to.View())), check.outcome,
                             old(SenderLimit(limits.rows, Some(from))),
                             today, request.amount, request.description, idempotencyKey);
      var e := Transfers.Transfer(i, notificationFails);
      r == e.result
      && user.State() == check.after
      && from.status == old(from.status) && to.status == old(to.status)
      && from.balance == old(from.balance) - e.moved && to.balance == old(to.balance) + e.moved
      && SenderLimit(limits.rows, Some(from)) == e.limit
      && (forall l :: l in old(limits.rows) && Some(l) != old(FindLimit(limits.rows, from.id))
            ==> l.State() == old(l.State()))
      && (limits.rows == old(limits.rows)
          || (i.limit.None? && |limits.rows| == |old(limits.rows)| + 1
              && limits.rows[..|old(limits.rows)|] == old(limits.rows)
              && fresh(limits.rows[|old(limits.rows)|])))
      && (e.saved.None? ==> log.entries == old(log.entries))
      && (e.saved.Some? ==>
            |log.entries| == |old(log.entries)| + 1
            && log.entries[..|old(log.entries)|] == old(log.entries)
            && fresh(log.entries[|old(log.entries)|])
            && log.entries[|old(log.entries)|].Record() == e.saved.value)
  {
    var verified := pins.VerifySimplePasswordForUser(user, request.simplePassword);
    if verified.Fail? {
      return Err(verified.error);
    }
    r := ExecuteTransfer(from, to, limits, log, request.amount, request.description,
                         idempotencyKey, today, notificationFails);
  }

  /**
   * `pins` is the simple-password service, `today` the current date,
   * `idempotencyKey` the fresh UUID of the call and `notificationFails`
   * whether the notification call throws.
   */
  method Transfer(accounts: seq<Account>, limits: TransferLimitTable, log: TransactionLog,
                  user: Users.User, pins: SimplePasswordService, request: PinTransferRequest,
                  today: Date, idempotencyKey: string, notificationFails: bool)
    returns (r: Result<TransferResponse>)
    modifies accounts, limits, limits.rows, log, user
    ensures
      var sender := FindByUserId(accounts, user.id);
      var receiver := FindByNumber(accounts, request.toAccountNumber);
      var check := Verify(old(user.State()), request.simplePassword, pins.matches);
      var i := TransferInput(old(ViewOf(sender)), old(ViewOf(receiver)), check.outcome,
                             old(SenderLimit(limits.rows, sender)),
                             today, request.amount, request.description, idempotencyKey);
      var e := Transfers.Transfer(i, notificationFails);
      // the call's result
      (r.Ok? <==> e.result.Ok?)
      && (r.Err? ==> r.error == e.result.error)
      && (r.Ok? ==> r.value == TransferResponse(sender.value.accountNumber, receiver.value.accountNumber,
                                                 receiver.value.user.name, request.amount,
                                                 request.description, COMPLETED, e.result.value))
      // the PIN check runs, and counts, only once both accounts are resolved
      && user.State() == (if Resolved(i) then check.after else old(user.State()))
      // balances: sender down and receiver up by what moved, nobody else touched
      && (forall a :: a in accounts ==>
            a.status == old(a.status)
            && a.balance == old(a.balance) - (if Some(a) == sender then e.moved else 0)
                                           + (if Some(a) == receiver then e.moved else 0))
      // the sender's limit row
      && (sender.Some? ==> SenderLimit(limits.rows, sender) == e.limit)
      && (forall l :: l in old(limits.rows) && (sender.None? || Some(l) != old(FindLimit(limits.rows, sender.value.id)))
            ==> l.State() == old(l.State()))
      && (limits.rows == old(limits.rows)
          || (i.limit.None? && |limits.rows| == |old(limits.rows)| + 1
              && limits.rows[..|old(limits.rows)|] == old(limits.rows)
              && fresh(limits.rows[|old(limits.rows)|])))
      // the transactions table
      && (e.saved.None? ==> log.entries == old(log.entries))
      && (e.saved.Some? ==>
            |log.entries| == |old(log.entries)| + 1
            && log.entries[..|old(log.entries)|] == old(log.entries)
            && fresh(log.entries[|old(log.entries)|])
            && log.entries[|old(log.entries)|].Record() == e.saved.value)
  {
    ghost var input := TransferInput(ViewOf(FindByUserId(accounts, user.id)),
                                     ViewOf(FindByNumber(accounts, request.toAccountNumber)),
                                     Verify(user.State(), request.simplePassword, pins.matches).outcome,
                                     SenderLimit(limits.rows, FindByUserId(accounts, user.id)),
                                     today, request.amount, request.description, idempotencyKey);
    var found := FindByUserId(accounts, user.id);
    if found.None? {
      return Err(AccountNotFound);
    }
    var from := found.value;
    found := FindByNumber(accounts, request.toAccountNumber);
    if found.None? {
      return Err(ReceiverNotFound);
    }
    var to := found.value;
    if from.id == to.id {
      return Err(SelfTransfer);
    }
    assert input == TransferInput(Some(from.View()), Some(to.View()),
                                  Verify(user.State(), request.simplePassword, pins.matches).outcome,
                                  SenderLimit(limits.rows, Some(from)),
                                  today, request.amount, request.description, idempotencyKey);
    var balance := TransferBetween(from, to, limits, log, user, pins, request, today, idempotencyKey,
                                   notificationFails);
    if balance.Err? {
      return Err(balance.error);
    }
    r := Ok(TransferResponse(from.accountNumber, to.accountNumber, to.user.name, request.amount,
                             request.description, COMPLETED, balance.value));
  }
}
