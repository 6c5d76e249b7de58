/**
 * The per-account transfer limit (account/entity/TransferLimit.java): a cap
 * per transaction, a cap per day, and the amount used today, which is reset
 * the first time the limit is consulted on a new day.
 */
module Limits {
  import opened Base

  /** 3,000,000.00 won a day. */
  const DefaultDailyLimit: int := Won(3_000_000)
  /** 1,000,000.00 won per transaction. */
  const DefaultPerTransactionLimit: int := Won(1_000_000)

  datatype LimitState = LimitState(
    dailyLimit: int,
    perTransactionLimit: int,
    todayUsed: int,
    lastResetDate: Option<Date>)

  /** The row a service creates when an account has none: both default caps,
      nothing used, and no reset date, since the builder skips the field
      initialiser that would have set it to today. */
  const DefaultLimit: LimitState :=
    LimitState(DefaultDailyLimit, DefaultPerTransactionLimit, 0, None)

  /** `resetIfNewDay`: on a day other than the last reset day the usage restarts at 0. */
  function DayReset(s: LimitState, today: Date): (r: LimitState)
    ensures r.lastResetDate == Some(today)
    ensures r.dailyLimit == s.dailyLimit && r.perTransactionLimit == s.perTransactionLimit
    ensures s.lastResetDate == Some(today) ==> r == s
    ensures s.lastResetDate != Some(today) ==> r.todayUsed == 0
  {
    if s.lastResetDate == Some(today) then s
    else s.(todayUsed := 0, lastResetDate := Some(today))
  }

  /** `getRemainingDailyLimit` */
  function RemainingToday(s: LimitState, today: Date): int
  {
    s.dailyLimit - DayReset(s, today).todayUsed
  }

  /** `canTransfer`: within the per-transaction cap and within what is left for today. */
  function Allows(s: LimitState, today: Date, amount: int): (ok: bool)
    ensures ok <==> amount <= s.perTransactionLimit && amount <= RemainingToday(s, today)
  {
    var t := DayReset(s, today);
    if amount > t.perTransactionLimit then false
    else t.todayUsed + amount <= t.dailyLimit
  }

  /** `addUsage` */
  function WithUsage(s: LimitState, today: Date, amount: int): (r: LimitState)
    ensures RemainingToday(r, today) == RemainingToday(s, today) - amount
    ensures r.lastResetDate == Some(today)
    ensures r.dailyLimit == s.dailyLimit && r.perTransactionLimit == s.perTransactionLimit
  {
    var t := DayReset(s, today);
    t.(todayUsed := t.todayUsed + amount)
  }

  /** The usage of a limit never goes below zero nor above the daily cap. */
  predicate WithinDailyLimit(s: LimitState)
  {
    0 <= s.todayUsed <= s.dailyLimit
  }

  /** Consulting the limit twice on one day resets it at most once. */
  lemma DayResetIdempotent(s: LimitState, today: Date)
    ensures DayReset(DayReset(s, today), today) == DayReset(s, today)
  {
  }

  /** A positive amount the limit allows, once recorded, keeps the usage within the cap. */
  lemma AllowedUsageStaysWithin(s: LimitState, today: Date, amount: int)
    requires WithinDailyLimit(s) && amount > 0 && Allows(s, today, amount)
    ensures WithinDailyLimit(WithUsage(s, today, amount))
  {
  }

  /** Offer a day's transfer amounts in turn to the limit, recording each one it allows. */
  function DayOfTransfers(s: LimitState, today: Date, amounts: seq<int>): LimitState
    decreases amounts
  {
    if |amounts| == 0 then s
    else
      var s' := if amounts[0] > 0 && Allows(s, today, amounts[0]) then WithUsage(s, today, amounts[0]) else s;
      DayOfTransfers(s', today, amounts[1..])
  }

  /** The amounts the limit allowed, in order. */
  function Accepted(s: LimitState, today: Date, amounts: seq<int>): seq<int>
    decreases amounts
  {
    if |amounts| == 0 then []
    else if amounts[0] > 0 && Allows(s, today, amounts[0]) then
      [amounts[0]] + Accepted(WithUsage(s, today, amounts[0]), today, amounts[1..])
    else Accepted(s, today, amounts[1..])
  }

  function Sum(xs: seq<int>): int
  {
    if |xs| == 0 then 0 else xs[0] + Sum(xs[1..])
  }

  /**
   * Whatever is offered during one day, the amounts let through add up to at
   * most what was left of the daily cap, each is within the per-transaction
   * cap, and the recorded usage grows by exactly their total.
   */
  lemma {:induction false} DailyTotalWithinLimit(s: LimitState, today: Date, amounts: seq<int>)
    decreases amounts
    ensures |Accepted(s, today, amounts)| > 0 ==> Sum(Accepted(s, today, amounts)) <= RemainingToday(s, today)
    ensures Sum(Accepted(s, today, amounts)) == RemainingToday(s, today) - RemainingToday(DayOfTransfers(s, today, amounts), today)
    ensures forall a :: a in Accepted(s, today, amounts) ==> 0 < a <= s.perTransactionLimit
  {
    if |amounts| > 0 {
      var a := amounts[0];
      if a > 0 && Allows(s, today, a) {
        var s' := WithUsage(s, today, a);
        DailyTotalWithinLimit(s', today, amounts[1..]);
        assert Accepted(s, today, amounts) == [a] + Accepted(s', today, amounts[1..]);
      } else {
        DailyTotalWithinLimit(s, today, amounts[1..]);
      }
    }
  }

  class TransferLimit {
    const accountId: AccountId
    const dailyLimit: int
    const perTransactionLimit: int
    var todayUsed: int
    var lastResetDate: Option<Date>

    function State(): LimitState
      reads this
    {
      LimitState(dailyLimit, perTransactionLimit, todayUsed, lastResetDate)
    }

    constructor (accountId: AccountId, s: LimitState)
      ensures this.accountId == accountId && State() == s
    {
      this.accountId := accountId;
      dailyLimit := s.dailyLimit;
      perTransactionLimit := s.perTransactionLimit;
      todayUsed := s.todayUsed;
      lastResetDate := s.lastResetDate;
    }

    method ResetIfNewDay(today: Date)
      modifies this
      ensures State() == DayReset(old(State()), today)
    {
      if lastResetDate != Some(today) {
        todayUsed := 0;
        lastResetDate := Some(today);
      }
    }

    method CanTransfer(today: Date, amount: int) returns (ok: bool)
      modifies this
      ensures ok == Allows(old(State()), today, amount)
      ensures State() == DayReset(old(State()), today)
    {
      ResetIfNewDay(today);
      if amount > perTransactionLimit {
        return false;
      }
      ok := todayUsed + amount <= dailyLimit;
    }

    method AddUsage(today: Date, amount: int)
      modifies this
      ensures State() == WithUsage(old(State()), today, amount)
    {
      ResetIfNewDay(today);
      todayUsed := todayUsed + amount;
    }

    method GetRemainingDailyLimit(today: Date) returns (m: int)
      modifies this
      ensures m == RemainingToday(old(State()), today)
      ensures State() == DayReset(old(State()), today)
    {
      ResetIfNewDay(today);
      m := dailyLimit - todayUsed;
    }
  }

  /** The `transfer_limits` table, at most one row per account. */
  function FindLimit(rows: seq<TransferLimit>, accountId: AccountId): (r: Option<TransferLimit>)
    ensures r.Some? ==> r.value in rows && r.value.accountId == accountId
    ensures r.None? ==> forall l :: l in rows ==> l.accountId != accountId
  {
    if |rows| == 0 then None
    else if rows[0].accountId == accountId then Some(rows[0])
    else FindLimit(rows[1..], accountId)
  }

  function StateOf(l: Option<TransferLimit>): (s: Option<LimitState>)
    reads if l.Some? then {l.value} else {}
    ensures s.Some? <==> l.Some?
    ensures l.Some? ==> s.value == l.value.State()
  {
    if l.Some? then Some(l.value.State()) else None
  }

  /** A row appended for an account that had none is the one found for it afterwards. */
  lemma {:induction false} FindAppended(rows: seq<TransferLimit>, l: TransferLimit)
    requires FindLimit(rows, l.accountId).None?
    ensures FindLimit(rows + [l], l.accountId) == Some(l)
  {
    if |rows| > 0 {
      assert (rows + [l])[1..] == rows[1..] + [l];
      FindAppended(rows[1..], l);
    }
  }

  class TransferLimitTable {
    var rows: seq<TransferLimit>

    constructor (rows: seq<TransferLimit>)
      ensures this.rows == rows
    {
      this.rows := rows;
    }

    /** `findByAccountIdForUpdate(..).orElseGet(() -> createDefaultTransferLimit(..))` */
    method FindOrCreate(accountId: AccountId) returns (l: TransferLimit)
      modifies this
      ensures l.accountId == accountId && l in rows && FindLimit(rows, accountId) == Some(l)
      ensures old(FindLimit(rows, accountId)).Some? ==>
        l == old(FindLimit(rows, accountId)).value && rows == old(rows)
      ensures old(FindLimit(rows, accountId)).None? ==>
        fresh(l) && l.State() == DefaultLimit && rows == old(rows) + [l]
    {
      var found := FindLimit(rows, accountId);
      if found.Some? {
        return found.value;
      }
      l := new TransferLimit(accountId, DefaultLimit);
      FindAppended(rows, l);
      rows := rows + [l];
    }
  }
}
