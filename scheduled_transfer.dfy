/**
 * The `ScheduledTransfer` entity (scheduled/transfer/entity/ScheduledTransfer.java):
 * a transfer booked for a later instant, its life cycle PENDING -> EXECUTED,
 * FAILED or CANCELLED, and the repository query the poller uses to pick the
 * schedules that are due.
 */
module Schedules {
  import opened Base
  import opened Accounts
  import Ledger

  datatype ScheduleStatus = PENDING | EXECUTED | FAILED | CANCELLED

  /** A schedule row as a value; `owner` is the user who owns `fromAccount`. */
  datatype ScheduleRecord = ScheduleRecord(
    id: nat,
    fromAccount: AccountId,
    owner: UserId,
    toAccountNumber: string,
    amount: int,
    description: Option<string>,
    scheduledAt: Instant,
    status: ScheduleStatus,
    executedTransaction: Option<Ledger.Transaction>,
    executionAttemptedAt: Option<Instant>,
    failureReason: Option<Error>)

  /** `cancel`: only a PENDING schedule can be cancelled. */
  function Cancelled(r: ScheduleRecord): (c: Result<ScheduleRecord>)
    ensures c.Ok? <==> r.status == PENDING
    ensures c.Ok? ==> c.value == r.(status := CANCELLED)
    ensures c.Err? ==> c.error == NotPendingSchedule
  {
    if r.status == PENDING then Ok(r.(status := CANCELLED)) else Err(NotPendingSchedule)
  }

  /** A cancelled schedule cannot be cancelled a second time. */
  lemma CancelIsFinal(r: ScheduleRecord)
    requires Cancelled(r).Ok?
    ensures Cancelled(Cancelled(r).value) == Err(NotPendingSchedule)
  {
  }

  class ScheduledTransfer {
    const id: nat
    const fromAccount: Account
    const toAccountNumber: string
    const amount: int
    const description: Option<string>
    const scheduledAt: Instant
    var status: ScheduleStatus
    var executedTransaction: Option<Ledger.Transaction>
    var executionAttemptedAt: Option<Instant>
    var failureReason: Option<Error>

    function Record(): (r: ScheduleRecord)
      reads this
      ensures r.id == id && r.fromAccount == fromAccount.id && r.owner == fromAccount.user.id
      ensures r.status == status && r.amount == amount
    {
      ScheduleRecord(id, fromAccount.id, fromAccount.user.id, toAccountNumber, amount, description,
                     scheduledAt, status, executedTransaction, executionAttemptedAt, failureReason)
    }

    /** The builder call of `createSchedule`: a PENDING schedule, not yet attempted. */
    constructor (id: nat, fromAccount: Account, toAccountNumber: string, amount: int,
                 description: Option<string>, scheduledAt: Instant)
      ensures this.fromAccount == fromAccount
      ensures Record() == ScheduleRecord(id, fromAccount.id, fromAccount.user.id, toAccountNumber, amount,
                                         description, scheduledAt, PENDING, None, None, None)
      ensures IsPending() && forall now :: IsReadyToExecute(now) <==> now > scheduledAt
    {
      this.id := id;
      this.fromAccount := fromAccount;
      this.toAccountNumber := toAccountNumber;
      this.amount := amount;
      this.description := description;
      this.scheduledAt := scheduledAt;
      status := PENDING;
      executedTransaction := None;
      executionAttemptedAt := None;
      failureReason := None;
    }

    /** `execute(transaction)`; `now` is the clock reading it takes.  No guard on the status. */
    method Execute(transaction: Ledger.Transaction, now: Instant)
      modifies this
      ensures Record() == old(Record()).(status := EXECUTED, executedTransaction := Some(transaction),
                                         executionAttemptedAt := Some(now))
      ensures !IsPending() && !IsReadyToExecute(now)
    {
      status := EXECUTED;
      executedTransaction := Some(transaction);
      executionAttemptedAt := Some(now);
    }

    /** `fail(reason)`; `now` is the clock reading it takes.  No guard on the status. */
    method Fail(reason: Error, now: Instant)
      modifies this
      ensures Record() == old(Record()).(status := FAILED, failureReason := Some(reason),
                                         executionAttemptedAt := Some(now))
      ensures !IsPending() && !IsReadyToExecute(now)
    {
      status := FAILED;
      failureReason := Some(reason);
      executionAttemptedAt := Some(now);
    }

    /** `cancel`: throws, changing nothing, unless the schedule is PENDING. */
    method Cancel() returns (o: Outcome)
      modifies this`status
      ensures o == Cancelled(old(Record())).ToOutcome()
      ensures Record() == Cancelled(old(Record())).GetOr(old(Record()))
      ensures !IsPending()
    {
      if status == PENDING {
        status := CANCELLED;
        o := Pass;
      } else {
        o := Outcome.Fail(NotPendingSchedule);
      }
    }

    predicate IsPending()
      reads this
    {
      status == PENDING
    }

    /** `isReadyToExecute`: pending and strictly past its instant. */
    predicate IsReadyToExecute(now: Instant)
      reads this
    {
      IsPending() && now > scheduledAt
    }
  }

  /** `findPendingSchedules(now)`: the PENDING rows whose instant is not after `now`. */
  function PendingSchedules(rows: seq<ScheduledTransfer>, now: Instant): (r: seq<ScheduledTransfer>)
    reads rows
    ensures forall k :: 0 <= k < |r| ==> r[k] in rows && r[k].status == PENDING && r[k].scheduledAt <= now
    ensures forall k :: 0 <= k < |rows| && rows[k].status == PENDING && rows[k].scheduledAt <= now ==> rows[k] in r
    ensures |r| <= |rows|
  {
    if rows == [] then []
    else
      var rest := PendingSchedules(rows[1..], now);
      if rows[0].status == PENDING && rows[0].scheduledAt <= now then [rows[0]] + rest else rest
  }

  /**
   * The query picks a schedule up at its very instant, while the entity's own
   * `isReadyToExecute` waits until strictly after it: everything ready is
   * picked, and a schedule due exactly now is picked without being ready.
   */
  lemma ReadyIsPicked(rows: seq<ScheduledTransfer>, s: ScheduledTransfer, now: Instant)
    requires s in rows
    ensures s.IsReadyToExecute(now) ==> s in PendingSchedules(rows, now)
    ensures s.status == PENDING && s.scheduledAt == now ==>
              s in PendingSchedules(rows, now) && !s.IsReadyToExecute(now)
  {
  }

  /** `findByUserId(userId)`: the schedules booked on the user's account (`getMySchedules`). */
  function SchedulesOf(rows: seq<ScheduledTransfer>, user: UserId): (r: seq<ScheduledTransfer>)
    ensures forall k :: 0 <= k < |r| ==> r[k] in rows && r[k].fromAccount.user.id == user
    ensures forall k :: 0 <= k < |rows| && rows[k].fromAccount.user.id == user ==> rows[k] in r
    ensures |r| <= |rows|
  {
    if rows == [] then []
    else
      var rest := SchedulesOf(rows[1..], user);
      if rows[0].fromAccount.user.id == user then [rows[0]] + rest else rest
  }

  /** `findById` */
  function FindSchedule(rows: seq<ScheduledTransfer>, id: nat): (r: Option<ScheduledTransfer>)
    ensures r.Some? ==> r.value in rows && r.value.id == id
    ensures r.None? ==> forall s :: s in rows ==> s.id != id
  {
    if rows == [] then None
    else if rows[0].id == id then Some(rows[0])
    else FindSchedule(rows[1..], id)
  }

  /** The `scheduled_transfers` table. */
  class ScheduleTable {
    var rows: seq<ScheduledTransfer>

    constructor (rows: seq<ScheduledTransfer>)
      ensures this.rows == rows
    {
      this.rows := rows;
    }

    /** `save`: a new row is appended; saving a row again changes nothing here. */
    method Save(s: ScheduledTransfer)
      modifies this
      ensures rows == if s in old(rows) then old(rows) else old(rows) + [s]
    {
      if s !in rows {
        rows := rows + [s];
      }
    }
  }
}
