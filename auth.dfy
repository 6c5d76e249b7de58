/**
 * user/service/AuthService.java: signing up (a new ACTIVE user with one
 * empty ACTIVE account under a fresh account number) and logging in (locked
 * users are refused, failures are counted and lock the user at the third).
 * The authentication manager is the parameter `authenticate`, the password
 * encoder `encode`; the JWT token is not modelled.
 */
module AuthService {
  import opened Base
  import opened Users
  import opened AccountNumbers
  import Accounts

  // ---------------------------------------------------- account numbers

  /**
   * `generateUniqueAccountNumber`: generates numbers until one is unused.
   * `draws` holds the eight digits of each successive attempt; the
   * requirement says the attempts do eventually hit an unused number.
   */
  method GenerateUniqueAccountNumber(rows: seq<Accounts.Account>, draws: seq<seq<Digit>>)
    returns (accountNumber: string, drawn: nat)
    requires forall k :: 0 <= k < |draws| ==> |draws[k]| == 2 * DigitsPerGroup
    requires exists k :: 0 <= k < |draws| && !Accounts.NumberTaken(rows, NumberOf(draws[k]))
    ensures drawn < |draws| && accountNumber == NumberOf(draws[drawn])
    ensures !Accounts.NumberTaken(rows, accountNumber)
    ensures forall k :: 0 <= k < drawn ==> Accounts.NumberTaken(rows, NumberOf(draws[k]))
  {
    ghost var free :| 0 <= free < |draws| && !Accounts.NumberTaken(rows, NumberOf(draws[free]));
    drawn := 0;
    accountNumber := Generate(draws[0]);
    while Accounts.NumberTaken(rows, accountNumber)
      invariant drawn <= free && accountNumber == NumberOf(draws[drawn])
      invariant forall k :: 0 <= k < drawn ==> Accounts.NumberTaken(rows, NumberOf(draws[k]))
      decreases free - drawn
    {
      drawn := drawn + 1;
      accountNumber := Generate(draws[drawn]);
    }
  }

  // -------------------------------------------------------------- signup

  datatype SignupRequest = SignupRequest(email: string, password: string, name: string)
  datatype SignupResponse = SignupResponse(userId: UserId, email: string, name: string,
                                           accountNumber: string, balance: int)

  /**
   * `signup`.  `encode` is the password encoder, `draws` the random digits of
   * the account-number attempts, `newUserId` and `newAccountId` the
   * identities the tables give the new rows.
   */
  method Signup(users: UserTable, accounts: Accounts.AccountTable, request: SignupRequest,
                encode: string -> string, draws: seq<seq<Digit>>, newUserId: UserId, newAccountId: AccountId)
    returns (r: Result<SignupResponse>)
    requires forall k :: 0 <= k < |draws| ==> |draws[k]| == 2 * DigitsPerGroup
    requires exists k :: 0 <= k < |draws| && !Accounts.NumberTaken(accounts.rows, NumberOf(draws[k]))
    modifies users, accounts
    ensures r.Ok? <==> !EmailTaken(old(users.rows), request.email)
    ensures r.Err? ==> r.error == EmailInUse && users.rows == old(users.rows) && accounts.rows == old(accounts.rows)
    ensures r.Ok? ==>
      |users.rows| == |old(users.rows)| + 1 && users.rows[..|old(users.rows)|] == old(users.rows)
      && |accounts.rows| == |old(accounts.rows)| + 1 && accounts.rows[..|old(accounts.rows)|] == old(accounts.rows)
      && var user := users.rows[|old(users.rows)|];
         var account := accounts.rows[|old(accounts.rows)|];
         fresh(user) && fresh(account)
         && user.id == newUserId && user.email == request.email && user.name == request.name
         && user.password == encode(request.password)
         && user.State() == NewUserState
         && account.id == newAccountId && account.user == user
         && account.balance == 0 && account.status == Accounts.ACTIVE
         && WellFormed(account.accountNumber)
         && !Accounts.NumberTaken(old(accounts.rows), account.accountNumber)
         && r.value == SignupResponse(newUserId, request.email, request.name, account.accountNumber, 0)
    // the table's keys stay unique when the new identities are new
    ensures r.Ok? && Accounts.UniqueAccounts(old(accounts.rows))
            && (forall b :: b in old(accounts.rows) ==> b.id != newAccountId && b.user.id != newUserId) ==>
              Accounts.UniqueAccounts(accounts.rows)
  {
    if exists u :: u in users.rows && u.email == request.email {
      return Err(EmailInUse);
    }
    var user := new User(newUserId, request.email, encode(request.password), request.name, NewUserState);
    users.Save(user);
    var accountNumber, drawn := GenerateUniqueAccountNumber(accounts.rows, draws);
    NumberOfWellFormed(draws[drawn]);
    var account := new Accounts.Account(newAccountId, user, accountNumber, 0, Accounts.ACTIVE);
    if Accounts.UniqueAccounts(accounts.rows)
       && (forall b :: b in accounts.rows ==> b.id != newAccountId && b.user.id != newUserId) {
      Accounts.AppendKeepsUnique(accounts.rows, account);
    }
    accounts.Save(account);
    r := Ok(SignupResponse(user.id, user.email, user.name, account.accountNumber, account.balance));
  }

  // --------------------------------------------------------------- login

  /** One login attempt on a user: its outcome and the user's state after it. */
  datatype LoginAttempt = LoginAttempt(result: Outcome, after: UserState)

  /**
   * `login` on the user found by email.  `authenticated` is whether the
   * authentication manager accepts the credentials, `hasAccount` whether the
   * user owns an account.  Any failure inside the try block, including a
   * missing account after the counter was reset, counts as a failed login.
   */
  function LoginStep(s: UserState, authenticated: bool, hasAccount: bool): (a: LoginAttempt)
    ensures a.result.Pass? <==> s.status != LOCKED && authenticated && hasAccount
    ensures s.status == LOCKED ==> a == LoginAttempt(Fail(AccountLocked), s)
    ensures s.status != LOCKED && !authenticated ==> a == LoginAttempt(Fail(BadCredentials), AfterLoginFailure(s))
    ensures a.result.Pass? ==> a.after == s.(failedLoginAttempts := 0)
    ensures s.status != LOCKED && authenticated && !hasAccount ==>
              a == LoginAttempt(Fail(BadCredentials), s.(failedLoginAttempts := 1))
    ensures a.after.simplePassword == s.simplePassword
    ensures a.after.failedSimplePasswordAttempts == s.failedSimplePasswordAttempts
  {
    if s.status == LOCKED then LoginAttempt(Fail(AccountLocked), s)
    else if !authenticated then LoginAttempt(Fail(BadCredentials), AfterLoginFailure(s))
    else
      var reset := s.(failedLoginAttempts := 0);
      if hasAccount then LoginAttempt(Pass, reset)
      else LoginAttempt(Fail(BadCredentials), AfterLoginFailure(reset))
  }

  /** `n` logins in a row with a wrong password. */
  function WrongPasswords(s: UserState, n: nat): UserState
  {
    if n == 0 then s else LoginStep(WrongPasswords(s, n - 1), false, true).after
  }

  /** Until the lock, each wrong password is one counted login failure. */
  lemma {:induction false} WrongPasswordsAreLoginFailures(s: UserState, n: nat)
    requires s.status != LOCKED && s.failedLoginAttempts + n <= MaxLoginFailures
    ensures WrongPasswords(s, n) == LoginFailures(s, n)
  {
    if n > 0 {
      WrongPasswordsAreLoginFailures(s, n - 1);
      if n > 1 {
        LoginFailuresLock(s, n - 1);
      }
    }
  }

  /**
   * A fresh user survives two wrong passwords, is LOCKED by the third, and is
   * then refused even with the right password.
   */
  lemma ThirdWrongPasswordLocks(hasAccount: bool)
    ensures WrongPasswords(NewUserState, 2).status == ACTIVE
    ensures WrongPasswords(NewUserState, 3).status == LOCKED
    ensures LoginStep(WrongPasswords(NewUserState, 3), true, hasAccount).result == Fail(AccountLocked)
  {
    WrongPasswordsAreLoginFailures(NewUserState, 2);
    WrongPasswordsAreLoginFailures(NewUserState, 3);
    LoginFailuresLock(NewUserState, 2);
    LoginFailuresLock(NewUserState, 3);
  }

  datatype LoginRequest = LoginRequest(email: string, password: string)
  /** What the response reports besides the token. */
  datatype LoginResponse = LoginResponse(userId: UserId, email: string, name: string, accountNumber: string)

  method Login(users: seq<User>, accounts: seq<Accounts.Account>, request: LoginRequest,
               authenticate: (string, string) -> bool)
    returns (r: Result<LoginResponse>)
    modifies users
    ensures
      var found := FindByEmail(users, request.email);
      (found.None? ==> r == Err(BadCredentials))
      && (forall u :: u in users && Some(u) != found ==> u.State() == old(u.State()))
      && (found.Some? ==>
            var account := Accounts.FindByUserId(accounts, found.value.id);
            var a := LoginStep(old(found.value.State()), authenticate(request.email, request.password),
                               account.Some?);
            (r.Ok? <==> a.result.Pass?)
            && (r.Err? ==> r.error == a.result.error)
            && found.value.State() == a.after
            && (r.Ok? ==> r.value == LoginResponse(found.value.id, found.value.email, found.value.name,
                                                    account.value.accountNumber)))
  {
    var found := FindByEmail(users, request.email);
    if found.None? {
      return Err(BadCredentials);
    }
    var user := found.value;
    if user.status == LOCKED {
      return Err(AccountLocked);
    }
    // the try block
    if authenticate(request.email, request.password) {
      user.ResetFailedAttempts();
      var account := Accounts.FindByUserId(accounts, user.id);
      if account.Some? {
        return Ok(LoginResponse(user.id, user.email, user.name, account.value.accountNumber));
      }
    }
    // the handler
    user.IncrementFailedAttempts();
    r := Err(BadCredentials);
  }
}
