/**
 * Shared vocabulary of the MoneyGo model: optional values, results, the
 * domain errors the services throw, identifiers, money and time.
 *
 * Money is a `BigDecimal` with scale 2 in the source; here it is an integer
 * number of hundredths of a won ("cents").  Instants are integer nanoseconds
 * since an arbitrary epoch and calendar dates are integer day numbers.
 */
module Base {

  datatype Option<+T> = None | Some(value: T)

  /** A service call either returns a value or throws one of the domain errors. */
  datatype Result<+T> = Ok(value: T) | Err(error: Error) {
    /** The `void` view of the call: whether it threw, and what. */
    function ToOutcome(): (o: Outcome)
      ensures o.Pass? <==> Ok?
      ensures o.Fail? ==> o.error == error
    {
      if Ok? then Pass else Fail(error)
    }

    function GetOr(default: T): T
    {
      if Ok? then value else default
    }
  }

  /** A call that returns nothing (`void`) either completes or throws. */
  datatype Outcome = Pass | Fail(error: Error)

  type UserId = nat
  type AccountId = nat

  /** Cents: one won is 100 cents (scale 2). */
  const CentsPerWon: int := 100

  function Won(w: int): int
  {
    w * CentsPerWon
  }

  // ---------------------------------------------------------------- time

  /** `LocalDateTime` as nanoseconds, `LocalDate` as a day number. */
  type Instant = int
  type Date = int

  const NanosPerSecond: int := 1_000_000_000
  const Minute: int := 60 * NanosPerSecond
  const Day: int := 86_400 * NanosPerSecond
  /** `plusYears(1)` with a year of 365 days (calendar arithmetic is not modelled). */
  const Year: int := 365 * Day

  /** `LocalDate.atStartOfDay()` */
  function StartOfDay(d: Date): Instant
  {
    d * Day
  }

  /** `LocalDate.atTime(LocalTime.MAX)`: the last nanosecond of the day. */
  function EndOfDay(d: Date): (t: Instant)
    ensures StartOfDay(d) < t < StartOfDay(d + 1)
    ensures t + 1 == StartOfDay(d + 1)
  {
    d * Day + Day - 1
  }

  /** `LocalDate.atTime(23, 59, 59)`: the first nanosecond of the last second of the day. */
  function LastSecondOfDay(d: Date): (t: Instant)
    ensures StartOfDay(d) < t < EndOfDay(d)
    ensures EndOfDay(d) - t == NanosPerSecond - 1
  {
    d * Day + 86_399 * NanosPerSecond
  }

  // -------------------------------------------------------------- errors

  /**
   * The exceptions the core throws, one constructor per failure; where two
   * messages name the same failure (a missing PIN is worded one way when
   * changing or deleting it and another when verifying) they share a constructor.
   * Wrapping exceptions ("... 중 오류가 발생했습니다: " + cause) carry the cause.
   */
  datatype Error =
    // Account entity
    | NonPositiveDeposit
    | NonPositiveWithdraw
    | InsufficientBalance
    // lookups
    | UserNotFound
    | AccountNotFound
    | ReceiverNotFound
    | AccountIdNotFound
    | SenderAccountMissing
    | SellerAccountNotFound
    | TransactionNotFound
    | ScheduleNotFound
    | QrNotFound
    | FavoriteNotFound
    // transfer orchestration
    | SelfTransfer
    | WrongPassword
    | SenderNotActive
    | ReceiverNotActive
    | LimitExceeded(perTransactionLimit: int, dailyLimit: int, remaining: int)
    | TransferFailed(cause: Error)
    | NotificationFailed
    // admin
    | DepositFailed(cause: Error)
    | WithdrawFailed(cause: Error)
    // scheduled transfers
    | SelfSchedule
    | ScheduleTooSoon
    | ScheduleTooLate
    | AccessDenied
    | NotPendingSchedule
    | AccountsNotActive
    // QR payments
    | QrNotPending
    | QrExpired
    | SelfQrPayment
    // simple password (PIN)
    | NoSimplePassword
    | SimplePasswordLocked
    | SimplePasswordMismatch(remaining: int)
    | CurrentSimplePasswordMismatch(remaining: int)
    | SimplePasswordAlreadyRegistered
    | LoginPasswordMismatch
    | SimplePasswordConfirmMismatch
    | NewSimplePasswordConfirmMismatch
    | NewSimplePasswordSameAsCurrent
    | NullCounter
    // authentication
    | EmailInUse
    | AccountLocked
    | BadCredentials
    // favorites
    | FavoriteOwnAccount
    | FavoriteUnknownAccount
    | FavoriteDuplicate
    | FavoriteLimitReached
    // transaction queries
    | NotMyTransaction
}
