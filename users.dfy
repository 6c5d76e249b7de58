/**
 * The `User` entity (user/entity/User.java): the login-failure and PIN-failure
 * counters with their lockout thresholds, the stored PIN, lock and unlock.
 */
module Users {
  import opened Base

  datatype UserStatus = ACTIVE | LOCKED | SUSPENDED

  /** Login failures that lock the user. */
  const MaxLoginFailures: int := 3
  /** Simple-password (PIN) failures that lock the user. */
  const MaxSimplePasswordFailures: int := 5

  /** The mutable columns of a user row. */
  datatype UserState = UserState(
    status: UserStatus,
    failedLoginAttempts: int,
    simplePassword: Option<string>,
    failedSimplePasswordAttempts: int)

  /** A user as signup creates one: ACTIVE, no PIN, both counters at 0.  (The
      source leaves the PIN counter null here; see `SignedUpAsWritten`.) */
  const NewUserState: UserState := UserState(ACTIVE, 0, None, 0)

  /** `incrementFailedAttempts`: one more login failure; LOCKED from the third on. */
  function AfterLoginFailure(s: UserState): (r: UserState)
    ensures r.failedLoginAttempts == s.failedLoginAttempts + 1
    ensures r.failedLoginAttempts >= MaxLoginFailures ==> r.status == LOCKED
    ensures r.failedLoginAttempts < MaxLoginFailures ==> r.status == s.status
    ensures r.simplePassword == s.simplePassword
    ensures r.failedSimplePasswordAttempts == s.failedSimplePasswordAttempts
  {
    var n := s.failedLoginAttempts + 1;
    s.(failedLoginAttempts := n, status := if n >= MaxLoginFailures then LOCKED else s.status)
  }

  /** `incrementFailedSimplePasswordAttempts`: one more PIN failure; LOCKED from the fifth on. */
  function AfterPinFailure(s: UserState): (r: UserState)
    ensures r.failedSimplePasswordAttempts == s.failedSimplePasswordAttempts + 1
    ensures r.failedSimplePasswordAttempts >= MaxSimplePasswordFailures ==> r.status == LOCKED
    ensures r.failedSimplePasswordAttempts < MaxSimplePasswordFailures ==> r.status == s.status
    ensures r.simplePassword == s.simplePassword
    ensures r.failedLoginAttempts == s.failedLoginAttempts
  {
    var n := s.failedSimplePasswordAttempts + 1;
    s.(failedSimplePasswordAttempts := n, status := if n >= MaxSimplePasswordFailures then LOCKED else s.status)
  }

  /** `hasSimplePassword`: a PIN is stored and it is not the empty string. */
  predicate PinStored(s: UserState)
  {
    s.simplePassword.Some? && |s.simplePassword.value| > 0
  }

  /** `unlock`: ACTIVE again, login counter cleared, PIN counter kept. */
  function Unlocked(s: UserState): (r: UserState)
    ensures r.status == ACTIVE && r.failedLoginAttempts == 0
    ensures r.failedSimplePasswordAttempts == s.failedSimplePasswordAttempts
    ensures r.simplePassword == s.simplePassword
  {
    s.(status := ACTIVE, failedLoginAttempts := 0)
  }

  /** `n` consecutive login failures. */
  function LoginFailures(s: UserState, n: nat): UserState
  {
    if n == 0 then s else AfterLoginFailure(LoginFailures(s, n - 1))
  }

  /** After `n` login failures the counter has grown by `n`, and the user is
      LOCKED exactly when it was already LOCKED or the counter reached 3. */
  lemma {:induction false} LoginFailuresLock(s: UserState, n: nat)
    requires n > 0
    ensures LoginFailures(s, n).failedLoginAttempts == s.failedLoginAttempts + n
    ensures LoginFailures(s, n).status == LOCKED
        <==> s.status == LOCKED || s.failedLoginAttempts + n >= MaxLoginFailures
  {
    if n > 1 {
      LoginFailuresLock(s, n - 1);
    }
  }

  /** `n` consecutive PIN failures. */
  function PinFailures(s: UserState, n: nat): UserState
  {
    if n == 0 then s else AfterPinFailure(PinFailures(s, n - 1))
  }

  /** After `n` PIN failures the counter has grown by `n`, and the user is
      LOCKED exactly when it was already LOCKED or the counter reached 5;
      the login counter is untouched. */
  lemma {:induction false} PinFailuresLock(s: UserState, n: nat)
    requires n > 0
    ensures PinFailures(s, n).failedSimplePasswordAttempts == s.failedSimplePasswordAttempts + n
    ensures PinFailures(s, n).failedLoginAttempts == s.failedLoginAttempts
    ensures PinFailures(s, n).status in {s.status, LOCKED}
    ensures PinFailures(s, n).status == LOCKED
        <==> s.status == LOCKED || s.failedSimplePasswordAttempts + n >= MaxSimplePasswordFailures
  {
    if n > 1 {
      PinFailuresLock(s, n - 1);
    }
  }

  class User {
    const id: UserId
    const email: string
    /** The encoded login password. */
    const password: string
    const name: string
    var status: UserStatus
    var failedLoginAttempts: int
    var simplePassword: Option<string>
    var failedSimplePasswordAttempts: int

    function State(): UserState
      reads this
    {
      UserState(status, failedLoginAttempts, simplePassword, failedSimplePasswordAttempts)
    }

    constructor (id: UserId, email: string, password: string, name: string, s: UserState)
      ensures this.id == id && this.email == email && this.password == password && this.name == name
      ensures State() == s
    {
      this.id := id;
      this.email := email;
      this.password := password;
      this.name := name;
      status := s.status;
      failedLoginAttempts := s.failedLoginAttempts;
      simplePassword := s.simplePassword;
      failedSimplePasswordAttempts := s.failedSimplePasswordAttempts;
    }

    method IncrementFailedAttempts()
      modifies this
      ensures State() == AfterLoginFailure(old(State()))
    {
      failedLoginAttempts := failedLoginAttempts + 1;
      if failedLoginAttempts >= MaxLoginFailures {
        status := LOCKED;
      }
    }

    method ResetFailedAttempts()
      modifies this
      ensures State() == old(State()).(failedLoginAttempts := 0)
    {
      failedLoginAttempts := 0;
    }

    method IncrementFailedSimplePasswordAttempts()
      modifies this
      ensures State() == AfterPinFailure(old(State()))
    {
      failedSimplePasswordAttempts := failedSimplePasswordAttempts + 1;
      if failedSimplePasswordAttempts >= MaxSimplePasswordFailures {
        status := LOCKED;
      }
    }

    method ResetFailedSimplePasswordAttempts()
      modifies this
      ensures State() == old(State()).(failedSimplePasswordAttempts := 0)
    {
      failedSimplePasswordAttempts := 0;
    }

    /** Lombok `@Setter` on `simplePassword`. */
    method SetSimplePassword(encoded: string)
      modifies this
      ensures State() == old(State()).(simplePassword := Some(encoded))
      ensures HasSimplePassword() <==> |encoded| > 0
    {
      simplePassword := Some(encoded);
    }

    predicate HasSimplePassword()
      reads this
    {
      PinStored(State())
    }

    method Lock()
      modifies this
      ensures State() == old(State()).(status := LOCKED)
      ensures !IsActive()
    {
      status := LOCKED;
    }

    method Unlock()
      modifies this
      ensures State() == Unlocked(old(State()))
      ensures IsActive()
    {
      status := ACTIVE;
      failedLoginAttempts := 0;
    }

    predicate IsActive()
      reads this
    {
      status == ACTIVE
    }
  }

  /** `findByEmail` */
  function FindByEmail(rows: seq<User>, email: string): (r: Option<User>)
    ensures r.Some? ==> r.value in rows && r.value.email == email
    ensures r.None? ==> forall u :: u in rows ==> u.email != email
  {
    if rows == [] then None
    else if rows[0].email == email then Some(rows[0])
    else FindByEmail(rows[1..], email)
  }

  /** `existsByEmail` */
  predicate EmailTaken(rows: seq<User>, email: string)
  {
    exists u :: u in rows && u.email == email
  }

  /** The `users` table. */
  class UserTable {
    var rows: seq<User>

    constructor (rows: seq<User>)
      ensures this.rows == rows
    {
      this.rows := rows;
    }

    /** `save`: a new row is appended; saving a row again changes nothing here. */
    method Save(u: User)
      modifies this
      ensures rows == if u in old(rows) then old(rows) else old(rows) + [u]
    {
      if u !in rows {
        rows := rows + [u];
      }
    }
  }
}
