/**
 * What one call of either `TransferService.transfer` does, as a function of
 * the rows it reads: the sender's and the receiver's account, the outcome of
 * the credential check (login password in account/service, PIN in
 * transfer/service), and the sender's limit row.
 *
 * Checks run in this order and none of them moves money: sender found,
 * receiver found, not to oneself, credential, sender active, receiver
 * active, balance, limit.  Only then is the transaction built and the money
 * moved; a failure from there on marks the transaction FAILED.
 */
module Transfers {
  import opened Base
  import opened Accounts
  import opened Limits
  import opened Ledger

  datatype TransferInput = TransferInput(
    sender: Option<AccountView>,
    receiver: Option<AccountView>,
    credential: Outcome,
    limit: Option<LimitState>,
    today: Date,
    amount: int,
    description: string,
    idempotencyKey: string)

  /**
   * `result` is the sender's balance afterwards (what the response reports);
   * `moved` the amount taken from the sender and given to the receiver;
   * `limit` the sender's limit row afterwards (None: there is still none);
   * `saved` the transaction row written, if any.
   */
  datatype TransferEffect = TransferEffect(
    result: Result<int>,
    moved: int,
    limit: Option<LimitState>,
    saved: Option<TxRecord>)

  /** The row used by the limit check: the stored one, or a default one. */
  function LimitInForce(i: TransferInput): LimitState
  {
    if i.limit.Some? then i.limit.value else DefaultLimit
  }

  /** Both accounts exist and are different accounts. */
  predicate Resolved(i: TransferInput)
  {
    i.sender.Some? && i.receiver.Some? && i.sender.value.id != i.receiver.value.id
  }

  /** Every check before the limit passes. */
  predicate ReachesLimitCheck(i: TransferInput)
  {
    Resolved(i) && i.credential.Pass?
    && i.sender.value.status == ACTIVE && i.receiver.value.status == ACTIVE
    && i.sender.value.balance >= i.amount
  }

  /** Every check passes, so the transaction is built and the money movement tried. */
  predicate Admitted(i: TransferInput)
  {
    ReachesLimitCheck(i) && Allows(LimitInForce(i), i.today, i.amount)
  }

  function TransferRecord(i: TransferInput, status: TransactionStatus, error: Option<Error>): TxRecord
    requires Resolved(i)
  {
    TxRecord(Some(i.sender.value.id), Some(i.receiver.value.id), i.amount, TRANSFER, status,
             i.description, Some(i.idempotencyKey), error)
  }

  /**
   * One call.  `notificationFails` says whether the notification call made
   * inside the money-movement block throws (only the PIN variant makes one).
   */
  function Transfer(i: TransferInput, notificationFails: bool): (e: TransferEffect)
    // it succeeds exactly when every check passes and the amount is positive
    ensures e.result.Ok? <==> Admitted(i) && i.amount > 0 && !notificationFails
    // on success: debit equals credit, and the reported balance is the sender's new one
    ensures e.result.Ok? ==>
      e.moved == i.amount && e.result.value == i.sender.value.balance - i.amount >= 0
    // money moves only once every check has passed, and then by the full amount
    ensures e.moved != 0 ==> Admitted(i) && e.moved == i.amount > 0
    // a transaction row is written exactly when every check passed
    ensures e.saved.Some? <==> Admitted(i)
    ensures e.saved.Some? && e.result.Err? ==> e.result.error.TransferFailed?
    ensures e.saved.Some? ==>
      e.saved.value == TransferRecord(i, if e.result.Ok? then COMPLETED else FAILED,
                                      if e.result.Ok? then None else Some(e.result.error.cause))
    // the limit row: untouched before the limit check, reset by it, charged on success
    ensures !ReachesLimitCheck(i) ==> e.limit == i.limit
    ensures ReachesLimitCheck(i) && e.moved == 0 ==> e.limit == Some(DayReset(LimitInForce(i), i.today))
    ensures e.moved != 0 ==> e.limit == Some(WithUsage(LimitInForce(i), i.today, i.amount))
    // the rejections, in the order the checks run
    ensures i.sender.None? ==> e.result == Err(AccountNotFound)
    ensures i.sender.Some? && i.receiver.None? ==> e.result == Err(ReceiverNotFound)
    ensures i.sender.Some? && i.receiver.Some? && i.sender.value.id == i.receiver.value.id ==>
      e.result == Err(SelfTransfer)
    ensures Resolved(i) && i.credential.Fail? ==> e.result == Err(i.credential.error)
    ensures Resolved(i) && i.credential.Pass? && i.sender.value.status != ACTIVE ==>
      e.result == Err(SenderNotActive)
    ensures (Resolved(i) && i.credential.Pass? && i.sender.value.status == ACTIVE
             && i.receiver.value.status != ACTIVE) ==> e.result == Err(ReceiverNotActive)
    ensures (Resolved(i) && i.credential.Pass? && i.sender.value.status == ACTIVE
             && i.receiver.value.status == ACTIVE && i.sender.value.balance < i.amount) ==>
      e.result == Err(InsufficientBalance)
    ensures ReachesLimitCheck(i) && !Allows(LimitInForce(i), i.today, i.amount) ==>
      e.result == Err(LimitExceeded(LimitInForce(i).perTransactionLimit, LimitInForce(i).dailyLimit,
                                    RemainingToday(LimitInForce(i), i.today)))
    // failures inside the money-movement block
    ensures Admitted(i) && i.amount <= 0 ==> e.result == Err(TransferFailed(NonPositiveWithdraw))
    ensures Admitted(i) && i.amount > 0 && notificationFails ==>
      e.result == Err(TransferFailed(NotificationFailed)) && e.moved == i.amount
  {
    if i.sender.None? then TransferEffect(Err(AccountNotFound), 0, i.limit, None)
    else if i.receiver.None? then TransferEffect(Err(ReceiverNotFound), 0, i.limit, None)
    else if i.sender.value.id == i.receiver.value.id then TransferEffect(Err(SelfTransfer), 0, i.limit, None)
    else if i.credential.Fail? then TransferEffect(Err(i.credential.error), 0, i.limit, None)
    else if i.sender.value.status != ACTIVE then TransferEffect(Err(SenderNotActive), 0, i.limit, None)
    else if i.receiver.value.status != ACTIVE then TransferEffect(Err(ReceiverNotActive), 0, i.limit, None)
    else if i.sender.value.balance < i.amount then TransferEffect(Err(InsufficientBalance), 0, i.limit, None)
    else
      var l := LimitInForce(i);
      if !Allows(l, i.today, i.amount) then
        TransferEffect(Err(LimitExceeded(l.perTransactionLimit, l.dailyLimit, RemainingToday(l, i.today))),
                       0, Some(DayReset(l, i.today)), None)
      else
        var s := Settle(DayReset(l, i.today), i.today, i.amount, notificationFails);
        TransferEffect(if s.failure.None? then Ok(i.sender.value.balance - i.amount)
                       else Err(TransferFailed(s.failure.value)),
                       s.moved, Some(s.limit), Some(TransferRecord(i, s.status, s.failure)))
  }

  /** What the money-movement block ends with: the error it caught, if any,
      the amount moved, the limit row, and the transaction's status. */
  datatype Settlement = Settlement(failure: Option<Error>, moved: int, limit: LimitState,
                                   status: TransactionStatus)

  /**
   * The money-movement block of both variants, run on the limit row the
   * check has just reset: withdraw, deposit, charge the limit, complete,
   * notify (PIN variant).  A non-positive amount fails at the withdrawal
   * before anything changes; a failing notification comes after the money
   * has moved and the limit has been charged.
   */
  function Settle(checked: LimitState, today: Date, amount: int, notificationFails: bool): (s: Settlement)
    ensures s.failure.None? <==> amount > 0 && !notificationFails
    ensures s.moved == (if amount > 0 then amount else 0)
    ensures s.status == (if s.failure.None? then COMPLETED else FAILED)
    ensures amount <= 0 ==> s.limit == checked && s.failure == Some(NonPositiveWithdraw)
    ensures amount > 0 ==> s.limit == WithUsage(checked, today, amount)
    ensures amount > 0 && notificationFails ==> s.failure == Some(NotificationFailed)
  {
    if amount <= 0 then Settlement(Some(NonPositiveWithdraw), 0, checked, FAILED)
    else if notificationFails then
      Settlement(Some(NotificationFailed), amount, WithUsage(checked, today, amount), FAILED)
    else Settlement(None, amount, WithUsage(checked, today, amount), COMPLETED)
  }

  /** Both balances after a call. */
  function SenderAfter(i: TransferInput, e: TransferEffect): int
    requires i.sender.Some?
  {
    i.sender.value.balance - e.moved
  }

  function ReceiverAfter(i: TransferInput, e: TransferEffect): int
    requires i.receiver.Some?
  {
    i.receiver.value.balance + e.moved
  }

  /** Whatever happens, the two balances add up to what they did before, and a
      non-negative sender balance stays non-negative. */
  lemma TransferConservesMoney(i: TransferInput, notificationFails: bool)
    requires i.sender.Some? && i.receiver.Some?
    ensures SenderAfter(i, Transfer(i, notificationFails)) + ReceiverAfter(i, Transfer(i, notificationFails))
         == i.sender.value.balance + i.receiver.value.balance
    ensures i.sender.value.balance >= 0 ==> SenderAfter(i, Transfer(i, notificationFails)) >= 0
  {
  }

  /** The response: the transaction's parties, amount, description and
      status, the receiver's name, and the sender's balance afterwards. */
  datatype TransferResponse = TransferResponse(
    fromAccount: string,
    toAccount: string,
    toAccountOwner: string,
    amount: int,
    description: string,
    status: TransactionStatus,
    balanceAfter: int)

  /**
   * The money-movement block on the objects: the transaction is built
   * PENDING, the sender debited and the receiver credited, the limit
   * charged, the transaction completed, and the notification sent; the first
   * failure marks the transaction FAILED with its message.  The transaction
   * is saved either way.
   */
  method SettleTransfer(from: Account, to: Account, limit: TransferLimit, log: TransactionLog,
                        amount: int, description: string, idempotencyKey: string, today: Date,
                        notificationFails: bool)
    returns (failure: Option<Error>)
    requires from != to && from.balance >= amount
    modifies from`balance, to`balance, limit, log
    ensures var s := Settle(old(limit.State()), today, amount, notificationFails);
      failure == s.failure
      && from.balance == old(from.balance) - s.moved && to.balance == old(to.balance) + s.moved
      && limit.State() == s.limit
      && |log.entries| == |old(log.entries)| + 1
      && log.entries[..|old(log.entries)|] == old(log.entries)
      && fresh(log.entries[|old(log.entries)|])
      && log.entries[|old(log.entries)|].Record()
         == TxRecord(Some(from.id), Some(to.id), amount, TRANSFER, s.status, description,
                     Some(idempotencyKey), s.failure)
  {
    var tx := new Transaction(Some(from.id), Some(to.id), amount, TRANSFER, PENDING,
                              description, Some(idempotencyKey));
    var o := from.Withdraw(amount);
    if o.Fail? {
      tx.Fail(o.error);
      log.Save(tx);
      return Some(o.error);
    }
    // a deposit of the amount just withdrawn cannot fail
    o := to.Deposit(amount);
    limit.AddUsage(today, amount);
    tx.Complete();
    if notificationFails {
      tx.Fail(NotificationFailed);
      log.Save(tx);
      return Some(NotificationFailed);
    }
    log.Save(tx);
    failure := None;
  }

  /**
   * Everything after the credential check, which both variants share: the
   * two accounts must be active and the sender able to pay; the sender's
   * limit row is found or created with the defaults and checked
   * (LimitExceeded reports both caps and what is left today); then the
   * money-movement block runs.  The result is the sender's balance.
   */
  method ExecuteTransfer(from: Account, to: Account, limits: TransferLimitTable, log: TransactionLog,
                         amount: int, description: string, idempotencyKey: string, today: Date,
                         notificationFails: bool)
    returns (r: Result<int>)
    requires from.id != to.id
    modifies from`balance, to`balance, limits, limits.rows, log
    ensures
      var i := TransferInput(Some(old(from.View())), Some(old(to.View())), Pass,
                             old(SenderLimit(limits.rows, Some(from))),
                             today, amount, description, idempotencyKey);
      var e := Transfer(i, notificationFails);
      r == e.result
      && from.status == old(from.status) && to.status == old(to.status)
      && from.balance == old(from.balance) - e.moved && to.balance == old(to.balance) + e.moved
      && SenderLimit(limits.rows, Some(from)) == e.limit
      && (forall l :: l in old(limits.rows) && Some(l) != old(FindLimit(limits.rows, from.id))
            ==> l.State() == old(l.State()))
      && (limits.rows == old(limits.rows)
          || (i.limit.None? && |limits.rows| == |old(limits.rows)| + 1
              && limits.rows[..|old(limits.rows)|] == old(limits.rows)
              && fresh(limits.rows[|old(limits.rows)|])))
      && (e.saved.None? ==> log.entries == old(log.entries))
      && (e.saved.Some? ==>
            |log.entries| == |old(log.entries)| + 1
            && log.entries[..|old(log.entries)|] == old(log.entries)
            && fresh(log.entries[|old(log.entries)|])
            && log.entries[|old(log.entries)|].Record() == e.saved.value)
  {
    if !from.IsActive() {
      return Err(SenderNotActive);
    }
    if !to.IsActive() {
      return Err(ReceiverNotActive);
    }
    if !from.HasEnoughBalance(amount) {
      return Err(InsufficientBalance);
    }
    r := CheckLimitAndSettle(from, to, limits, log, amount, description, idempotencyKey, today,
                             notificationFails);
  }

  /**
   * `ExecuteTransfer` once both accounts are active and the sender can pay:
   * the limit row is found or created and checked, then the money moves.
   */
  method CheckLimitAndSettle(from: Account, to: Account, limits: TransferLimitTable, log: TransactionLog,
                             amount: int, description: string, idempotencyKey: string, today: Date,
                             notificationFails: bool)
    returns (r: Result<int>)
    requires from.id != to.id
    requires from.status == ACTIVE && to.status == ACTIVE && from.balance >= amount
    modifies from`balance, to`balance, limits, limits.rows, log
    ensures
      var i := TransferInput(Some(old(from.View())), Some(old(to.View())), Pass,
                             old(SenderLimit(limits.rows, Some(from))),
                             today, amount, description, idempotencyKey);
      var e := Transfer(i, notificationFails);
      r == e.result
      && from.status == old(from.status) && to.status == old(to.status)
      && from.balance == old(from.balance) - e.moved && to.balance == old(to.balance) + e.moved
      && SenderLimit(limits.rows, Some(from)) == e.limit
      && (forall l :: l in old(limits.rows) && Some(l) != old(FindLimit(limits.rows, from.id))
            ==> l.State() == old(l.State()))
      && (limits.rows == old(limits.rows)
          || (i.limit.None? && |limits.rows| == |old(limits.rows)| + 1
              && limits.rows[..|old(limits.rows)|] == old(limits.rows)
              && fresh(limits.rows[|old(limits.rows)|])))
      && (e.saved.None? ==> log.entries == old(log.entries))
      && (e.saved.Some? ==>
            |log.entries| == |old(log.entries)| + 1
            && log.entries[..|old(log.entries)|] == old(log.entries)
            && fresh(log.entries[|old(log.entries)|])
            && log.entries[|old(log.entries)|].Record() == e.saved.value)
  {
    ghost var i := TransferInput(Some(from.View()), Some(to.View()), Pass, SenderLimit(limits.rows, Some(from)),
                                 today, amount, description, idempotencyKey);
    var limit := limits.FindOrCreate(from.id);
    assert limit.State() == LimitInForce(i);
    var allowed := limit.CanTransfer(today, amount);
    if !allowed {
      var remaining := limit.GetRemainingDailyLimit(today);
      return Err(LimitExceeded(limit.perTransactionLimit, limit.dailyLimit, remaining));
    }
    var failure := SettleTransfer(from, to, limit, log, amount, description, idempotencyKey, today,
                                  notificationFails);
    if failure.Some? {
      return Err(TransferFailed(failure.value));
    }
    r := Ok(from.balance);
  }

  /** The limit row of the account `sender` found, if any, as a value. */
  function SenderLimit(limits: seq<TransferLimit>, sender: Option<Account>): (l: Option<LimitState>)
    reads if sender.Some? && FindLimit(limits, sender.value.id).Some? then {FindLimit(limits, sender.value.id).value} else {}
    ensures l.Some? <==> sender.Some? && FindLimit(limits, sender.value.id).Some?
    ensures l.Some? ==> l.value == FindLimit(limits, sender.value.id).value.State()
  {
    if sender.Some? then StateOf(FindLimit(limits, sender.value.id)) else None
  }

  // ------------------------------------------------ repeated transfers

  /** The rows two parties' accounts and the sender's limit are in. */
  datatype Parties = Parties(sender: AccountView, receiver: AccountView, limit: Option<LimitState>)

  /** `n` transfers of `amount` in a row on one day, each with a correct credential. */
  function Repeated(p: Parties, today: Date, amount: int, n: nat): (r: Parties)
    decreases n
  {
    if n == 0 then p
    else
      var q := Repeated(p, today, amount, n - 1);
      var i := TransferInput(Some(q.sender), Some(q.receiver), Pass, q.limit, today, amount, "", "");
      var e := Transfer(i, false);
      Parties(q.sender.(balance := q.sender.balance - e.moved),
              q.receiver.(balance := q.receiver.balance + e.moved), e.limit)
  }

  /** What is left of the sender's daily cap. */
  function Headroom(p: Parties, today: Date): int
  {
    var l := if p.limit.Some? then p.limit.value else DefaultLimit;
    RemainingToday(l, today)
  }

  /**
   * Between two active accounts, `n` transfers of a positive `amount` within
   * the per-transaction cap all go through as long as the sender can pay for
   * all of them and they fit in what is left of the day's cap: the sender
   * ends `n * amount` lower and the receiver `n * amount` higher.
   */
  lemma {:induction false} RepeatedTransfersAllSucceed(p: Parties, today: Date, amount: int, n: nat)
    requires p.sender.id != p.receiver.id && p.sender.status == ACTIVE && p.receiver.status == ACTIVE
    requires 0 < amount <= (if p.limit.Some? then p.limit.value else DefaultLimit).perTransactionLimit
    requires n * amount <= p.sender.balance && n * amount <= Headroom(p, today)
    ensures Repeated(p, today, amount, n).sender == p.sender.(balance := p.sender.balance - n * amount)
    ensures Repeated(p, today, amount, n).receiver == p.receiver.(balance := p.receiver.balance + n * amount)
    ensures Repeated(p, today, amount, n).limit.Some? || n == 0
    ensures Headroom(Repeated(p, today, amount, n), today) == Headroom(p, today) - n * amount
    ensures (if Repeated(p, today, amount, n).limit.Some? then Repeated(p, today, amount, n).limit.value
             else DefaultLimit).perTransactionLimit
         == (if p.limit.Some? then p.limit.value else DefaultLimit).perTransactionLimit
  {
    if n > 0 {
      RepeatedTransfersAllSucceed(p, today, amount, n - 1);
      var q := Repeated(p, today, amount, n - 1);
      assert (n - 1) * amount + amount == n * amount;
      var i := TransferInput(Some(q.sender), Some(q.receiver), Pass, q.limit, today, amount, "", "");
      assert Admitted(i);
    }
  }

  /**
   * Ten transfers of 100,000 won from an account holding 1,000,000 won to an
   * account holding nothing, with no limit row yet: all ten succeed, leaving
   * 0 and 1,000,000 won.
   */
  lemma TenTransfersEmptyTheSender(sender: AccountView, receiver: AccountView, today: Date)
    requires sender.id != receiver.id && sender.status == ACTIVE && receiver.status == ACTIVE
    requires sender.balance == Won(1_000_000) && receiver.balance == 0
    ensures Repeated(Parties(sender, receiver, None), today, Won(100_000), 10).sender.balance == 0
    ensures Repeated(Parties(sender, receiver, None), today, Won(100_000), 10).receiver.balance == Won(1_000_000)
  {
    RepeatedTransfersAllSucceed(Parties(sender, receiver, None), today, Won(100_000), 10);
  }

  /** With the default limit, three transfers of 1,000,000 won go through on one
      day and a fourth is refused; 1,000,001 won is refused outright. */
  lemma DefaultLimitAllowsThreeMillionWonADay(sender: AccountView, receiver: AccountView, today: Date)
    requires sender.id != receiver.id && sender.status == ACTIVE && receiver.status == ACTIVE
    requires sender.balance >= Won(4_000_000)
    ensures var p := Repeated(Parties(sender, receiver, None), today, Won(1_000_000), 3);
      p.sender.balance == sender.balance - Won(3_000_000)
      && Transfer(TransferInput(Some(p.sender), Some(p.receiver), Pass, p.limit, today, Won(1_000_000), "", ""), false).result
         == Err(LimitExceeded(Won(1_000_000), Won(3_000_000), 0))
    ensures Transfer(TransferInput(Some(sender), Some(receiver), Pass, None, today, Won(1_000_000) + Won(1), "", ""), false).result
         == Err(LimitExceeded(Won(1_000_000), Won(3_000_000), Won(3_000_000)))
  {
    RepeatedTransfersAllSucceed(Parties(sender, receiver, None), today, Won(1_000_000), 3);
  }
}
