/**
 * scheduled/transfer/executor/ScheduledTransferExecutor.java: the poller that
 * runs every minute, picks the due PENDING schedules and executes each in
 * turn.  An execution never throws, so one failing schedule does not stop
 * the others.
 */
module ScheduledTransferExecutor {
  import opened Base
  import opened Accounts
  import opened Ledger
  import opened Schedules
  import opened ScheduledTransferService

  /**
   * `executeScheduledTransfers`.  `now` is the clock reading and `keys(k)` the
   * UUID the k-th execution draws.  Every schedule picked leaves PENDING
   * (EXECUTED or FAILED, attempted at `now`); every other schedule is
   * untouched.
   */
  method ExecuteScheduledTransfers(schedules: seq<ScheduledTransfer>, accounts: seq<Account>,
                                   log: TransactionLog, now: Instant, keys: nat -> string)
    modifies schedules, accounts, log
    ensures forall k :: 0 <= k < |schedules| && old(schedules[k].status) == ScheduleStatus.PENDING
                        && schedules[k].scheduledAt <= now ==>
              schedules[k].status in {ScheduleStatus.EXECUTED, ScheduleStatus.FAILED}
              && schedules[k].executionAttemptedAt == Some(now)
    ensures forall k :: 0 <= k < |schedules| && !(old(schedules[k].status) == ScheduleStatus.PENDING
                        && schedules[k].scheduledAt <= now) ==>
              schedules[k].Record() == old(schedules[k].Record())
    ensures |log.entries| >= |old(log.entries)| && log.entries[..|old(log.entries)|] == old(log.entries)
  {
    var pending := PendingSchedules(schedules, now);
    if |pending| == 0 {
      return;
    }
    for i := 0 to |pending|
      invariant forall j :: 0 <= j < i ==>
                  pending[j].status in {ScheduleStatus.EXECUTED, ScheduleStatus.FAILED}
                  && pending[j].executionAttemptedAt == Some(now)
      invariant forall s :: s in schedules && s !in pending ==> s.Record() == old(s.Record())
      invariant |log.entries| >= |old(log.entries)| && log.entries[..|old(log.entries)|] == old(log.entries)
    {
      ExecuteOne(pending[i], accounts, log, now, keys(i));
    }
  }

  /**
   * One `executeScheduledTransfer` call as the loop relies on it: the schedule
   * ends EXECUTED or FAILED, attempted at `now`, and the log only grows.
   */
  method ExecuteOne(schedule: ScheduledTransfer, accounts: seq<Account>, log: TransactionLog,
                    now: Instant, key: string)
    modifies schedule, accounts, log
    ensures schedule.status in {ScheduleStatus.EXECUTED, ScheduleStatus.FAILED}
    ensures schedule.executionAttemptedAt == Some(now)
    ensures |log.entries| >= |old(log.entries)| && log.entries[..|old(log.entries)|] == old(log.entries)
  {
    ExecuteScheduledTransfer(schedule, accounts, log, now, key);
  }
}
