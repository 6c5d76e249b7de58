/**
 * The simple-password (PIN) service
 * (simplepassword/service/SimplePasswordService.java): registering a PIN,
 * changing it, and verifying one, with the failure counter that locks the
 * user at the fifth consecutive miss.
 *
 * Encoding and matching of secrets are the password encoder's; they are the
 * parameters `encode` and `matches` here.
 */
module SimplePasswords {
  import opened Base
  import opened Users

  /** What a PIN check leaves behind: whether it passed, and the user's new state. */
  datatype Verification = Verification(outcome: Outcome, after: UserState)

  /** Attempts left before the lock, as the error message reports them. */
  function RemainingAttempts(s: UserState): int
  {
    MaxSimplePasswordFailures - s.failedSimplePasswordAttempts
  }

  /** The error a wrong PIN raises once the counter has been bumped. */
  function MismatchError(after: UserState, locked: Error, mismatch: int -> Error): Error
  {
    if RemainingAttempts(after) <= 0 then locked else mismatch(RemainingAttempts(after))
  }

  /**
   * `verifySimplePasswordForUser` (and `verifySimplePassword`, which only
   * finds the user differently).  The user's status is never consulted.
   */
  function Verify(s: UserState, pin: string, matches: (string, string) -> bool): (v: Verification)
    ensures v.outcome.Pass? <==> PinStored(s) && matches(pin, s.simplePassword.value)
    ensures !PinStored(s) ==> v == Verification(Fail(NoSimplePassword), s)
    ensures v.outcome.Pass? ==> v.after == s.(failedSimplePasswordAttempts := 0)
    ensures PinStored(s) && !v.outcome.Pass? ==> v.after == AfterPinFailure(s)
    ensures v.outcome == Fail(SimplePasswordLocked) <==>
      PinStored(s) && !matches(pin, s.simplePassword.value)
      && s.failedSimplePasswordAttempts + 1 >= MaxSimplePasswordFailures
    ensures v.outcome == Fail(SimplePasswordLocked) ==> v.after.status == LOCKED
    ensures v.outcome.Fail? && v.outcome.error.SimplePasswordMismatch? ==>
      v.outcome.error.remaining == RemainingAttempts(v.after) > 0
    ensures v.after.simplePassword == s.simplePassword
    ensures v.after.failedLoginAttempts == s.failedLoginAttempts
  {
    if !PinStored(s) then Verification(Fail(NoSimplePassword), s)
    else if !matches(pin, s.simplePassword.value) then
      var after := AfterPinFailure(s);
      Verification(Fail(MismatchError(after, SimplePasswordLocked, k => SimplePasswordMismatch(k))), after)
    else Verification(Pass, s.(failedSimplePasswordAttempts := 0))
  }

  /** `registerSimplePassword` on the user's state; `passwordOk` is whether the
      login password in the request matches the stored one. */
  function Register(s: UserState, passwordOk: bool, pin: string, confirm: string,
                    encode: string -> string): (r: Result<UserState>)
    ensures r.Ok? <==> !PinStored(s) && passwordOk && pin == confirm
    ensures r.Ok? ==> r.value == s.(simplePassword := Some(encode(pin)))
    ensures PinStored(s) ==> r == Err(SimplePasswordAlreadyRegistered)
    ensures !PinStored(s) && !passwordOk ==> r == Err(LoginPasswordMismatch)
    ensures !PinStored(s) && passwordOk && pin != confirm ==> r == Err(SimplePasswordConfirmMismatch)
  {
    if PinStored(s) then Err(SimplePasswordAlreadyRegistered)
    else if !passwordOk then Err(LoginPasswordMismatch)
    else if pin != confirm then Err(SimplePasswordConfirmMismatch)
    else Ok(s.(simplePassword := Some(encode(pin))))
  }

  /** `changeSimplePassword` on the user's state. */
  function Change(s: UserState, current: string, newPin: string, confirm: string,
                  matches: (string, string) -> bool, encode: string -> string): (v: Verification)
    ensures v.outcome.Pass? <==>
      PinStored(s) && matches(current, s.simplePassword.value) && newPin == confirm && current != newPin
    ensures v.outcome.Pass? ==>
      v.after == s.(simplePassword := Some(encode(newPin)), failedSimplePasswordAttempts := 0)
    ensures !PinStored(s) ==> v == Verification(Fail(NoSimplePassword), s)
    ensures PinStored(s) && !matches(current, s.simplePassword.value) ==>
      v.after == AfterPinFailure(s)
      && v.outcome == Fail(MismatchError(v.after, SimplePasswordLocked, k => CurrentSimplePasswordMismatch(k)))
    ensures PinStored(s) && matches(current, s.simplePassword.value) && newPin != confirm ==>
      v == Verification(Fail(NewSimplePasswordConfirmMismatch), s)
    ensures PinStored(s) && matches(current, s.simplePassword.value) && newPin == confirm && current == newPin ==>
      v == Verification(Fail(NewSimplePasswordSameAsCurrent), s)
  {
    if !PinStored(s) then Verification(Fail(NoSimplePassword), s)
    else if !matches(current, s.simplePassword.value) then
      var after := AfterPinFailure(s);
      Verification(Fail(MismatchError(after, SimplePasswordLocked, k => CurrentSimplePasswordMismatch(k))), after)
    else if newPin != confirm then Verification(Fail(NewSimplePasswordConfirmMismatch), s)
    else if current == newPin then Verification(Fail(NewSimplePasswordSameAsCurrent), s)
    else Verification(Pass, s.(simplePassword := Some(encode(newPin)), failedSimplePasswordAttempts := 0))
  }

  /** `n` wrong PINs in a row at the verification endpoint. */
  function WrongPins(s: UserState, pin: string, matches: (string, string) -> bool, n: nat): UserState
  {
    if n == 0 then s else Verify(WrongPins(s, pin, matches, n - 1), pin, matches).after
  }

  /**
   * With a PIN registered and a counter at 0, the fourth wrong PIN in a row
   * reports one attempt left, and the fifth locks the user and says so.
   */
  lemma FifthWrongPinLocks(s: UserState, pin: string, matches: (string, string) -> bool)
    requires PinStored(s) && !matches(pin, s.simplePassword.value)
    requires s.failedSimplePasswordAttempts == 0 && s.status == ACTIVE
    ensures Verify(WrongPins(s, pin, matches, 3), pin, matches).outcome == Fail(SimplePasswordMismatch(1))
    ensures WrongPins(s, pin, matches, 4).status == ACTIVE
    ensures Verify(WrongPins(s, pin, matches, 4), pin, matches).outcome == Fail(SimplePasswordLocked)
    ensures WrongPins(s, pin, matches, 5).status == LOCKED
  {
    WrongPinsArePinFailures(s, pin, matches, 3);
    WrongPinsArePinFailures(s, pin, matches, 4);
    PinFailuresLock(s, 3);
    PinFailuresLock(s, 4);
  }

  /** A run of wrong PINs is a run of counter increments, and the stored PIN stays. */
  lemma {:induction false} WrongPinsArePinFailures(s: UserState, pin: string, matches: (string, string) -> bool, n: nat)
    requires PinStored(s) && !matches(pin, s.simplePassword.value)
    ensures WrongPins(s, pin, matches, n) == PinFailures(s, n)
    ensures WrongPins(s, pin, matches, n).simplePassword == s.simplePassword
  {
    if n > 0 {
      WrongPinsArePinFailures(s, pin, matches, n - 1);
    }
  }

  /** A user signs up and registers `pin`; the fifth wrong PIN after that locks the user. */
  lemma NewUserLocksAtFifthWrongPin(pin: string, wrongPin: string, matches: (string, string) -> bool,
                                    encode: string -> string)
    requires |encode(pin)| > 0 && !matches(wrongPin, encode(pin))
    ensures Register(NewUserState, true, pin, pin, encode).Ok?
    ensures WrongPins(Register(NewUserState, true, pin, pin, encode).value, wrongPin, matches, 5).status == LOCKED
  {
    FifthWrongPinLocks(Register(NewUserState, true, pin, pin, encode).value, wrongPin, matches);
  }

  // ------------------------------------------- the PIN counter as written

  /** A user row whose PIN counter may be null. */
  datatype NullableCounterUser = NullableCounterUser(
    status: UserStatus,
    simplePassword: Option<string>,
    failedSimplePasswordAttempts: Option<int>)

  /** The row signup writes as the source stands: the builder sets the login
      counter but not the PIN counter, and a builder skips field initialisers,
      so the PIN counter is null. */
  const SignedUpAsWritten: NullableCounterUser := NullableCounterUser(ACTIVE, None, None)

  /** `verifySimplePasswordForUser` over a nullable counter: incrementing a null
      counter throws before anything is recorded; a correct PIN sets it to 0. */
  function VerifyAsWritten(u: NullableCounterUser, pin: string, matches: (string, string) -> bool)
    : (v: (Outcome, NullableCounterUser))
    ensures (u.failedSimplePasswordAttempts.None? && u.simplePassword.Some? && |u.simplePassword.value| > 0
             && !matches(pin, u.simplePassword.value)) ==> v == (Fail(NullCounter), u)
    ensures v.0.Pass? ==> v.1.failedSimplePasswordAttempts == Some(0) && v.1.status == u.status
  {
    if !(u.simplePassword.Some? && |u.simplePassword.value| > 0) then (Fail(NoSimplePassword), u)
    else if !matches(pin, u.simplePassword.value) then
      if u.failedSimplePasswordAttempts.None? then (Fail(NullCounter), u)
      else
        var n := u.failedSimplePasswordAttempts.value + 1;
        var after := u.(failedSimplePasswordAttempts := Some(n),
                        status := if n >= MaxSimplePasswordFailures then LOCKED else u.status);
        (Fail(if MaxSimplePasswordFailures - n <= 0 then SimplePasswordLocked
              else SimplePasswordMismatch(MaxSimplePasswordFailures - n)), after)
    else (Pass, u.(failedSimplePasswordAttempts := Some(0)))
  }

  function WrongPinsAsWritten(u: NullableCounterUser, pin: string, matches: (string, string) -> bool, n: nat)
    : NullableCounterUser
  {
    if n == 0 then u else VerifyAsWritten(WrongPinsAsWritten(u, pin, matches, n - 1), pin, matches).1
  }

  /**
   * As written, a user who signed up and registered a PIN is never locked by
   * wrong PINs: every attempt fails on the null counter and changes nothing.
   */
  lemma {:induction false} SignedUpUserNeverLocksAsWritten(stored: string, pin: string,
                                                           matches: (string, string) -> bool, n: nat)
    requires |stored| > 0 && !matches(pin, stored)
    ensures WrongPinsAsWritten(SignedUpAsWritten.(simplePassword := Some(stored)), pin, matches, n)
         == SignedUpAsWritten.(simplePassword := Some(stored))
    ensures WrongPinsAsWritten(SignedUpAsWritten.(simplePassword := Some(stored)), pin, matches, n).status == ACTIVE
  {
    if n > 0 {
      SignedUpUserNeverLocksAsWritten(stored, pin, matches, n - 1);
    }
  }

  class SimplePasswordService {
    const encode: string -> string
    const matches: (string, string) -> bool

    constructor (encode: string -> string, matches: (string, string) -> bool)
      ensures this.encode == encode && this.matches == matches
    {
      this.encode := encode;
      this.matches := matches;
    }

    method RegisterSimplePassword(user: User, password: string, pin: string, confirm: string)
      returns (o: Outcome)
      modifies user
      ensures var r := Register(old(user.State()), matches(password, user.password), pin, confirm, encode);
        o == r.ToOutcome() && user.State() == r.GetOr(old(user.State()))
    {
      if user.HasSimplePassword() {
        return Fail(SimplePasswordAlreadyRegistered);
      }
      if !matches(password, user.password) {
        return Fail(LoginPasswordMismatch);
      }
      if pin != confirm {
        return Fail(SimplePasswordConfirmMismatch);
      }
      var encoded := encode(pin);
      user.SetSimplePassword(encoded);
      o := Pass;
    }

    method ChangeSimplePassword(user: User, current: string, newPin: string, confirm: string)
      returns (o: Outcome)
      modifies user
      ensures var v := Change(old(user.State()), current, newPin, confirm, matches, encode);
        o == v.outcome && user.State() == v.after
    {
      if !user.HasSimplePassword() {
        return Fail(NoSimplePassword);
      }
      if !matches(current, user.simplePassword.value) {
        user.IncrementFailedSimplePasswordAttempts();
        var remaining := MaxSimplePasswordFailures - user.failedSimplePasswordAttempts;
        if remaining <= 0 {
          return Fail(SimplePasswordLocked);
        }
        return Fail(CurrentSimplePasswordMismatch(remaining));
      }
      if newPin != confirm {
        return Fail(NewSimplePasswordConfirmMismatch);
      }
      if current == newPin {
        return Fail(NewSimplePasswordSameAsCurrent);
      }
      var encoded := encode(newPin);
      user.SetSimplePassword(encoded);
      user.ResetFailedSimplePasswordAttempts();
      o := Pass;
    }

    method VerifySimplePasswordForUser(user: User, pin: string) returns (o: Outcome)
      modifies user
      ensures var v := Verify(old(user.State()), pin, matches);
        o == v.outcome && user.State() == v.after
    {
      if !user.HasSimplePassword() {
        return Fail(NoSimplePassword);
      }
      if !matches(pin, user.simplePassword.value) {
        user.IncrementFailedSimplePasswordAttempts();
        var remaining := MaxSimplePasswordFailures - user.failedSimplePasswordAttempts;
        if remaining <= 0 {
          return Fail(SimplePasswordLocked);
        }
        return Fail(SimplePasswordMismatch(remaining));
      }
      user.ResetFailedSimplePasswordAttempts();
      o := Pass;
    }
  }
}
