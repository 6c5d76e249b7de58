/**
 * scheduled/transfer/service/ScheduledTransferService.java: booking a
 * transfer for later (the amount is taken from the sender at once, as a
 * reservation), looking at and cancelling one's own bookings (the
 * reservation is handed back), and executing a due booking (the receiver
 * is credited, or on any failure the reservation is handed back and the
 * booking marked FAILED).  No transfer limit is consulted anywhere here.
 */
module ScheduledTransferService {
  import opened Base
  import opened Accounts
  import opened Ledger
  import opened Schedules
  import opened SimplePasswords
  import Users

  datatype ScheduleRequest = ScheduleRequest(
    toAccountNumber: string,
    amount: int,
    description: Option<string>,
    scheduledAt: Instant,
    password: string)

  // ------------------------------------------------------------ booking

  /** `result` is whether the booking was made; `debited` what left the sender. */
  datatype Booking = Booking(result: Outcome, debited: int)

  /**
   * `createSchedule` on the sender found by the caller's user id, the outcome
   * of the PIN check, and the receiver found by number.  The time window is
   * checked only after the reservation was taken.
   */
  function Book(sender: Option<AccountView>, credential: Outcome, receiver: Option<AccountView>,
                amount: int, scheduledAt: Instant, now: Instant): (b: Booking)
    ensures b.result.Pass? <==>
              sender.Some? && credential.Pass? && receiver.Some? && sender.value.id != receiver.value.id
              && 0 < amount <= sender.value.balance
              && now + Minute <= scheduledAt <= now + Year
    // the checks in order, up to the reservation
    ensures sender.None? ==> b == Booking(Fail(AccountNotFound), 0)
    ensures sender.Some? && credential.Fail? ==> b == Booking(credential, 0)
    ensures sender.Some? && credential.Pass? && receiver.None? ==> b == Booking(Fail(ReceiverNotFound), 0)
    ensures sender.Some? && credential.Pass? && receiver.Some? && sender.value.id == receiver.value.id ==>
              b == Booking(Fail(SelfSchedule), 0)
    ensures (sender.Some? && credential.Pass? && receiver.Some? && sender.value.id != receiver.value.id
             && sender.value.balance < amount) ==> b == Booking(Fail(InsufficientBalance), 0)
    ensures (sender.Some? && credential.Pass? && receiver.Some? && sender.value.id != receiver.value.id
             && amount <= sender.value.balance && amount <= 0) ==> b == Booking(Fail(NonPositiveWithdraw), 0)
    // the reservation is taken exactly when every check before it passes
    ensures b.debited == 0 || b.debited == amount
    ensures b.debited == amount && amount != 0 <==>
              sender.Some? && credential.Pass? && receiver.Some? && sender.value.id != receiver.value.id
              && 0 < amount <= sender.value.balance
    // a booking outside the window fails with the reservation already taken
    ensures b.debited > 0 && scheduledAt < now + Minute ==> b.result == Fail(ScheduleTooSoon)
    ensures b.debited > 0 && now + Minute <= scheduledAt && scheduledAt > now + Year ==> b.result == Fail(ScheduleTooLate)
  {
    if sender.None? then Booking(Fail(AccountNotFound), 0)
    else if credential.Fail? then Booking(credential, 0)
    else if receiver.None? then Booking(Fail(ReceiverNotFound), 0)
    else if sender.value.id == receiver.value.id then Booking(Fail(SelfSchedule), 0)
    else if sender.value.balance < amount then Booking(Fail(InsufficientBalance), 0)
    else
      var debited := Debit(sender.value.balance, amount);
      if debited.Err? then Booking(Fail(debited.error), 0)
      else if scheduledAt < now + Minute then Booking(Fail(ScheduleTooSoon), amount)
      else if scheduledAt > now + Year then Booking(Fail(ScheduleTooLate), amount)
      else Booking(Pass, amount)
  }

  /**
   * `createSchedule`.  `pins` is the simple-password service, `now` the
   * clock reading and `newId` the identity the table gives the new row.
   */
  method CreateSchedule(table: ScheduleTable, accounts: seq<Account>, user: Users.User,
                        pins: SimplePasswordService, request: ScheduleRequest, now: Instant, newId: nat)
    returns (r: Result<ScheduledTransfer>)
    modifies table, accounts, user
    ensures
      var sender := FindByUserId(accounts, user.id);
      var receiver := FindByNumber(accounts, request.toAccountNumber);
      var check := Verify(old(user.State()), request.password, pins.matches);
      var b := Book(old(ViewOf(sender)), check.outcome, old(ViewOf(receiver)),
                    request.amount, request.scheduledAt, now);
      (r.Ok? <==> b.result.Pass?)
      && (r.Err? ==> r.error == b.result.error)
      // the PIN check runs, and counts, once the sender's account is found
      && user.State() == (if sender.Some? then check.after else old(user.State()))
      && (forall a :: a in accounts ==>
            a.status == old(a.status)
            && a.balance == old(a.balance) - (if Some(a) == sender then b.debited else 0))
      && (r.Err? ==> table.rows == old(table.rows))
      && (r.Ok? ==>
            fresh(r.value)
            && r.value.fromAccount == sender.value
            && r.value.Record() == ScheduleRecord(newId, sender.value.id, user.id, request.toAccountNumber,
                                                  request.amount, request.description, request.scheduledAt,
                                                  ScheduleStatus.PENDING, None, None, None)
            && table.rows == old(table.rows) + [r.value])
  {
    var found := FindByUserId(accounts, user.id);
    if found.None? {
      return Err(AccountNotFound);
    }
    var from := found.value;
    var verified := pins.VerifySimplePasswordForUser(user, request.password);
    if verified.Fail? {
      return Err(verified.error);
    }
    found := FindByNumber(accounts, request.toAccountNumber);
    if found.None? {
      return Err(ReceiverNotFound);
    }
    var to := found.value;
    if from.id == to.id {
      return Err(SelfSchedule);
    }
    if !from.HasEnoughBalance(request.amount) {
      return Err(InsufficientBalance);
    }
    var withdrawn := from.Withdraw(request.amount);
    if withdrawn.Fail? {
      return Err(withdrawn.error);
    }
    if request.scheduledAt < now + Minute {
      return Err(ScheduleTooSoon);
    }
    if request.scheduledAt > now + Year {
      return Err(ScheduleTooLate);
    }
    var schedule := new ScheduledTransfer(newId, from, request.toAccountNumber, request.amount,
                                          request.description, request.scheduledAt);
    table.Save(schedule);
    r := Ok(schedule);
  }

  // ------------------------------------------------------ looking at one

  /** `getScheduleDetail`: the caller may only see a booking on their own account. */
  function ScheduleDetail(rows: seq<ScheduledTransfer>, scheduleId: nat, user: UserId): (r: Result<ScheduledTransfer>)
    ensures r.Ok? <==> FindSchedule(rows, scheduleId).Some? && FindSchedule(rows, scheduleId).value.fromAccount.user.id == user
    ensures r.Ok? ==> r.value in rows && r.value.id == scheduleId
    ensures FindSchedule(rows, scheduleId).None? ==> r == Err(ScheduleNotFound)
    ensures r.Err? && FindSchedule(rows, scheduleId).Some? ==> r.error == AccessDenied
  {
    var found := FindSchedule(rows, scheduleId);
    if found.None? then Err(ScheduleNotFound)
    else if found.value.fromAccount.user.id != user then Err(AccessDenied)
    else Ok(found.value)
  }

  // ---------------------------------------------------------- cancelling

  /** `result` is whether the cancellation went through; `refunded` what went back to the sender. */
  datatype Cancellation = Cancellation(result: Outcome, refunded: int)

  /**
   * `cancelSchedule` on the booking found (if any), by the caller `user`, with
   * the booking's sender account as found by id.
   */
  function Cancel(schedule: Option<ScheduleRecord>, user: UserId, sender: Option<AccountView>): (c: Cancellation)
    ensures c.result.Pass? <==>
              schedule.Some? && schedule.value.owner == user && schedule.value.status == ScheduleStatus.PENDING
              && sender.Some? && schedule.value.amount > 0
    ensures c.refunded == (if c.result.Pass? then schedule.value.amount else 0)
    ensures schedule.None? ==> c.result == Fail(ScheduleNotFound)
    ensures schedule.Some? && schedule.value.owner != user ==> c.result == Fail(AccessDenied)
    ensures schedule.Some? && schedule.value.owner == user && schedule.value.status != ScheduleStatus.PENDING ==>
              c.result == Fail(NotPendingSchedule)
  {
    if schedule.None? then Cancellation(Fail(ScheduleNotFound), 0)
    else if schedule.value.owner != user then Cancellation(Fail(AccessDenied), 0)
    else if schedule.value.status == ScheduleStatus.PENDING then
      if sender.None? then Cancellation(Fail(AccountIdNotFound), 0)
      else
        var credited := Credit(sender.value.balance, schedule.value.amount);
        if credited.Err? then Cancellation(Fail(credited.error), 0)
        else Cancellation(Pass, schedule.value.amount)
    else Cancellation(Fail(NotPendingSchedule), 0)
  }

  /**
   * Booking and then cancelling gives the sender back exactly what the booking
   * took, so the sender's balance ends where it started.
   */
  lemma BookThenCancelRestores(sender: AccountView, credential: Outcome, receiver: Option<AccountView>,
                               amount: int, scheduledAt: Instant, now: Instant, s: ScheduleRecord)
    requires Book(Some(sender), credential, receiver, amount, scheduledAt, now).result.Pass?
    requires s.owner == sender.id && s.status == ScheduleStatus.PENDING && s.amount == amount
    ensures
      var b := Book(Some(sender), credential, receiver, amount, scheduledAt, now);
      var c := Cancel(Some(s), sender.id, Some(sender.(balance := sender.balance - b.debited)));
      c.result.Pass? && sender.balance - b.debited + c.refunded == sender.balance
  {
  }

  method CancelSchedule(rows: seq<ScheduledTransfer>, accounts: seq<Account>, user: UserId, scheduleId: nat)
    returns (o: Outcome)
    modifies rows, accounts
    ensures
      var found := FindSchedule(rows, scheduleId);
      var sender := if found.Some? then FindById(accounts, found.value.fromAccount.id) else None;
      var c := Cancel(if found.Some? then Some(old(found.value.Record())) else None, user, old(ViewOf(sender)));
      o == c.result
      && (forall a :: a in accounts ==>
            a.status == old(a.status)
            && a.balance == old(a.balance) + (if Some(a) == sender then c.refunded else 0))
      && (forall s :: s in rows && Some(s) != found ==> s.Record() == old(s.Record()))
      && (found.Some? ==>
            found.value.Record() == if o.Pass? then old(found.value.Record()).(status := ScheduleStatus.CANCELLED)
                                    else old(found.value.Record()))
  {
    var found := FindSchedule(rows, scheduleId);
    if found.None? {
      return Fail(ScheduleNotFound);
    }
    var schedule := found.value;
    if schedule.fromAccount.user.id != user {
      return Fail(AccessDenied);
    }
    if schedule.status == ScheduleStatus.PENDING {
      var owned := FindById(accounts, schedule.fromAccount.id);
      if owned.None? {
        return Fail(AccountIdNotFound);
      }
      var refund := owned.value.Deposit(schedule.amount);
      if refund.Fail? {
        return refund;
      }
    }
    o := schedule.Cancel();
  }

  // ----------------------------------------------------------- execution

  /** The prefix of the executed transfer's description. */
  const ScheduledPrefix: string := "[예약송금]"

  function ScheduledDescription(description: Option<string>): (d: string)
    ensures |d| >= |ScheduledPrefix| && d[..|ScheduledPrefix|] == ScheduledPrefix
    ensures description.Some? ==> d == ScheduledPrefix + " " + description.value
  {
    if description.Some? then ScheduledPrefix + " " + description.value else ScheduledPrefix
  }

  /**
   * `failure` is the error the booking is failed with (none: executed);
   * `senderCredit` and `receiverCredit` what each party's balance gains;
   * `saved` the transaction row written.
   */
  datatype Execution = Execution(failure: Option<Error>, senderCredit: int, receiverCredit: int,
                                 saved: Option<TxRecord>)

  /**
   * The try block of `executeScheduledTransfer`, on the sender found by id and
   * the receiver found by number: what it moves before it completes or throws.
   * When an account is not active it hands the amount back once before
   * throwing.
   */
  function TryBlock(sender: Option<AccountView>, receiver: Option<AccountView>, amount: int,
                    description: Option<string>, key: string): (e: Execution)
    ensures e.failure.None? <==>
              sender.Some? && receiver.Some? && sender.value.status == ACTIVE && receiver.value.status == ACTIVE
              && amount > 0
    ensures e.failure.Some? ==> e.receiverCredit == 0 && e.saved.None?
  {
    if sender.None? then Execution(Some(SenderAccountMissing), 0, 0, None)
    else if receiver.None? then Execution(Some(ReceiverNotFound), 0, 0, None)
    else if sender.value.status != ACTIVE || receiver.value.status != ACTIVE then
      var refund := Credit(sender.value.balance, amount);
      if refund.Err? then Execution(Some(refund.error), 0, 0, None)
      else Execution(Some(AccountsNotActive), amount, 0, None)
    else
      var credited := Credit(receiver.value.balance, amount);
      if credited.Err? then Execution(Some(credited.error), 0, 0, None)
      else Execution(None, 0, amount, Some(TxRecord(Some(sender.value.id), Some(receiver.value.id), amount,
                                                     TRANSFER, COMPLETED, ScheduledDescription(description),
                                                     Some(key), None)))
  }

  /**
   * `executeScheduledTransfer` as written: the try block, then on failure the
   * handler, which hands the amount back once more if the sender still
   * exists (a failing refund is swallowed).  When an account is not active
   * the amount is therefore handed back twice.
   */
  function Execute(sender: Option<AccountView>, receiver: Option<AccountView>, amount: int,
                   description: Option<string>, key: string): (e: Execution)
    ensures e.failure.None? <==>
              sender.Some? && receiver.Some? && sender.value.status == ACTIVE && receiver.value.status == ACTIVE
              && amount > 0
    ensures e.failure.None? ==>
              e.senderCredit == 0 && e.receiverCredit == amount
              && e.saved == Some(TxRecord(Some(sender.value.id), Some(receiver.value.id), amount, TRANSFER,
                                          COMPLETED, ScheduledDescription(description), Some(key), None))
    ensures e.failure.Some? ==> e.receiverCredit == 0 && e.saved.None?
    // what a failure hands back to the sender
    ensures amount <= 0 || sender.None? ==> e.senderCredit == 0
    ensures amount > 0 && sender.Some? && receiver.None? ==>
              e == Execution(Some(ReceiverNotFound), amount, 0, None)
    ensures amount > 0 && sender.Some? && receiver.Some?
            && (sender.value.status != ACTIVE || receiver.value.status != ACTIVE) ==>
              e == Execution(Some(AccountsNotActive), 2 * amount, 0, None)
    ensures sender.None? ==> e.failure == Some(SenderAccountMissing)
    ensures amount <= 0 && sender.Some? && receiver.Some? ==> e.failure == Some(NonPositiveDeposit)
  {
    var t := TryBlock(sender, receiver, amount, description, key);
    if t.failure.None? || sender.None? then t
    else
      var refund := Credit(sender.value.balance + t.senderCredit, amount);
      if refund.Err? then t else t.(senderCredit := t.senderCredit + amount)
  }

  /**
   * The same execution with the refund made once, by the handler only: the
   * evidently intended behaviour.
   */
  function ExecuteRefundingOnce(sender: Option<AccountView>, receiver: Option<AccountView>, amount: int,
                                description: Option<string>, key: string): (e: Execution)
    ensures sender.Some? && (sender.value.status != ACTIVE || (receiver.Some? && receiver.value.status != ACTIVE)) ==>
              e.failure.Some?
  {
    var e := Execute(sender, receiver, amount, description, key);
    if e.failure == Some(AccountsNotActive) then e.(senderCredit := amount) else e
  }

  /**
   * With the refund made once, a booking that found its sender and took a
   * positive reservation ends with exactly the reserved amount paid out:
   * to the receiver on success, back to the sender on failure.
   */
  lemma RefundingOnceConservesReservation(sender: AccountView, receiver: Option<AccountView>, amount: int,
                                          description: Option<string>, key: string)
    requires amount > 0
    ensures
      var e := ExecuteRefundingOnce(Some(sender), receiver, amount, description, key);
      e.senderCredit + e.receiverCredit == amount
  {
  }

  /**
   * As written, an inactive receiver makes a booking pay the sender back twice:
   * across booking and execution the sender gains the amount it booked.
   */
  lemma InactiveReceiverRefundsTwice(sender: AccountView, receiver: AccountView, amount: int,
                                     scheduledAt: Instant, now: Instant, description: Option<string>, key: string)
    requires receiver.status != ACTIVE && sender.id != receiver.id
    requires 0 < amount <= sender.balance && now + Minute <= scheduledAt <= now + Year
    ensures
      var b := Book(Some(sender), Pass, Some(receiver), amount, scheduledAt, now);
      var e := Execute(Some(sender.(balance := sender.balance - b.debited)), Some(receiver), amount, description, key);
      b.result.Pass? && sender.balance - b.debited + e.senderCredit == sender.balance + amount
  {
  }

  /**
   * The try block of `executeScheduledTransfer` once both accounts are found;
   * it returns the error it throws, if any.
   */
  method TryTransfer(schedule: ScheduledTransfer, from: Account, to: Account, log: TransactionLog,
                     now: Instant, key: string)
    returns (failure: Option<Error>)
    modifies schedule, from`balance, to`balance, log
    ensures
      var t := TryBlock(Some(old(from.View())), Some(old(to.View())), schedule.amount, schedule.description, key);
      failure == t.failure
      && from.balance == old(from.balance) + t.senderCredit + (if from == to then t.receiverCredit else 0)
      && to.balance == old(to.balance) + t.receiverCredit + (if from == to then t.senderCredit else 0)
      && (failure.Some? ==> schedule.Record() == old(schedule.Record()) && log.entries == old(log.entries))
      && (failure.None? ==>
            |log.entries| == |old(log.entries)| + 1
            && log.entries[..|old(log.entries)|] == old(log.entries)
            && fresh(log.entries[|old(log.entries)|])
            && log.entries[|old(log.entries)|].Record() == t.saved.value
            && schedule.Record() == old(schedule.Record()).(status := ScheduleStatus.EXECUTED,
                                                            executedTransaction := Some(log.entries[|old(log.entries)|]),
                                                            executionAttemptedAt := Some(now)))
  {
    if !from.IsActive() || !to.IsActive() {
      var refund := from.Deposit(schedule.amount);
      return Some(if refund.Fail? then refund.error else AccountsNotActive);
    }
    var tx := new Transaction(Some(from.id), Some(to.id), schedule.amount, TRANSFER, TransactionStatus.PENDING,
                              ScheduledDescription(schedule.description), Some(key));
    var credited := to.Deposit(schedule.amount);
    if credited.Fail? {
      return Some(credited.error);
    }
    tx.Complete();
    log.Save(tx);
    schedule.Execute(tx, now);
    failure := None;
  }

  /**
   * `executeScheduledTransfer` as written; it never throws.  `now` is the
   * clock reading and `key` the fresh UUID of the transaction it builds.
   */
  method ExecuteScheduledTransfer(schedule: ScheduledTransfer, accounts: seq<Account>, log: TransactionLog,
                                  now: Instant, key: string)
    modifies schedule, accounts, log
    ensures
      var sender := FindById(accounts, schedule.fromAccount.id);
      var receiver := FindByNumber(accounts, schedule.toAccountNumber);
      var e := Execute(old(ViewOf(sender)), old(ViewOf(receiver)), schedule.amount, schedule.description, key);
      (forall a :: a in accounts ==>
         a.status == old(a.status)
         && a.balance == old(a.balance) + (if Some(a) == sender then e.senderCredit else 0)
                                        + (if Some(a) == receiver then e.receiverCredit else 0))
      && (e.failure.Some? ==>
            schedule.Record() == old(schedule.Record()).(status := ScheduleStatus.FAILED, failureReason := e.failure,
                                                         executionAttemptedAt := Some(now))
            && log.entries == old(log.entries))
      && (e.failure.None? ==>
            |log.entries| == |old(log.entries)| + 1
            && log.entries[..|old(log.entries)|] == old(log.entries)
            && fresh(log.entries[|old(log.entries)|])
            && log.entries[|old(log.entries)|].Record() == e.saved.value
            && schedule.Record() == old(schedule.Record()).(status := ScheduleStatus.EXECUTED,
                                                            executedTransaction := Some(log.entries[|old(log.entries)|]),
                                                            executionAttemptedAt := Some(now)))
  {
    var failure: Option<Error>;
    var found := FindById(accounts, schedule.fromAccount.id);
    var toFound := FindByNumber(accounts, schedule.toAccountNumber);
    if found.None? {
      failure := Some(SenderAccountMissing);
    } else if toFound.None? {
      failure := Some(ReceiverNotFound);
    } else {
      failure := TryTransfer(schedule, found.value, toFound.value, log, now, key);
    }
    // the handler: hand the amount back if the sender still exists, then fail the booking
    if failure.Some? {
      var owned := FindById(accounts, schedule.fromAccount.id);
      if owned.Some? {
        var refund := owned.value.Deposit(schedule.amount);
      }
      schedule.Fail(failure.value, now);
    }
  }
}
