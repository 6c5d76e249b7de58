# MoneyGo ledger core in Dafny

MoneyGo is a Spring banking service. Each user has one account. Money moves between accounts by transfer, by scheduled transfer and by QR payment. An administrator can top up or withdraw. Every movement is recorded as a transaction. Users are locked after repeated wrong login passwords or wrong PINs. Each user also has notification preferences, a list of favorite destination accounts, history queries and a PDF statement.

This project models that core as Dafny modules, one per source file or per entity:

- **Entities whose fields the code updates in place** are classes. This covers `Account`, `TransferLimit`, `Transaction`, `User`, `ScheduledTransfer`, `QrPayment`, `NotificationSetting` and `Favorite`.
  - Never-reassigned columns are `const` fields.
  - Each class has a value snapshot (`View`, `State` or `Record`).
  - Each class has pure transition functions that its methods are proved against.
- **Repositories** are sequences of those objects in creation order. Finders are pure functions over them, and a `save` appends.
- **Services** are methods over those tables. Each is proved against a pure function of the inputs, which states:
  - the checks, in the order the code makes them;
  - the error each check raises;
  - what moves where.

  Lemmas about those functions state the promises: conservation, refunds, lockout thresholds, round trips, idempotence.
- **Money** is an integer number of cents, since amounts are `BigDecimal` with scale 2. `Won(w)` is `w` won.
- **Time** is an integer number of nanoseconds (`Instant`) and a day number (`Date`). The clock is a parameter: each service call takes one reading, `now`, which stands for every reading that call makes (see "## Left out"). The QR-code retry loop is the exception: each draw carries its own day.
- **Outside collaborators are parameters:**
  - the password encoder (`encode`, `matches`);
  - the authentication manager (`authenticate`);
  - the random draws (UUIDs, account-number digits);
  - whether a notification call throws;
  - the identities the database assigns to new rows.
- **The signed-in user** is an argument: an e-mail where the code looks the user up by it, and otherwise the user or its id.
- **When a method throws after changing something**, the model keeps the changes made up to the throw. Spring's transaction rollback is not modelled, so every model shows the state exactly as the Java code leaves it in memory.

## Model

| member | source | states |
|---|---|---|
| Accounts.Credit | src/main/java/com/study/moneygo/account/entity/Account.java:49-54 | a deposit succeeds exactly for a positive amount (NonPositiveDeposit otherwise), and the balance then grows by exactly that amount |
| Accounts.Debit | src/main/java/com/study/moneygo/account/entity/Account.java:60-68 | a withdrawal succeeds exactly when 0 < amount ≤ balance; a non-positive amount is reported before a short balance; the new balance is the old one less the amount and never negative |
| Accounts.DebitThenCreditRestores | src/main/java/com/study/moneygo/account/entity/Account.java:49-68 | a withdrawal followed by a deposit of the same amount restores the balance |
| Accounts.CreditThenDebitRestores | src/main/java/com/study/moneygo/account/entity/Account.java:49-68 | on a non-negative balance, a deposit followed by a withdrawal of the same amount restores the balance |
| Accounts.Account.constructor | src/main/java/com/study/moneygo/account/entity/Account.java:21-36 | an account row with the given id, owner, number, balance and status |
| Accounts.Account.Deposit | src/main/java/com/study/moneygo/account/entity/Account.java:49-54 | the outcome and the new balance are those of `Credit`; a refused deposit leaves the balance as it was; nothing but the balance can change |
| Accounts.Account.Withdraw | src/main/java/com/study/moneygo/account/entity/Account.java:60-68 | the outcome and the new balance are those of `Debit`; a refused withdrawal leaves the balance as it was; nothing but the balance can change; it succeeds exactly when the amount is positive and `HasEnoughBalance` held for it before |
| Accounts.Account.Freeze | src/main/java/com/study/moneygo/account/entity/Account.java:74-76 | the status becomes FROZEN and nothing else changes; `IsActive` no longer holds |
| Accounts.Account.Activate | src/main/java/com/study/moneygo/account/entity/Account.java:78-80 | the status becomes ACTIVE and nothing else changes; `IsActive` then holds |
| Accounts.FindById | src/main/java/com/study/moneygo/admin/service/AdminService.java:30-31 | the row found is in the table and has the id asked for; nothing is found only when no row has that id |
| Accounts.FindByNumber | src/main/java/com/study/moneygo/account/service/TransferService.java:45-46 | the row found is in the table and has the account number asked for; nothing is found only when no row has that number |
| Accounts.FindByUserId | src/main/java/com/study/moneygo/account/service/TransferService.java:41-42 | the row found is in the table and belongs to the user asked for; nothing is found only when no row is that user's |
| Accounts.AccountTable.Save | src/main/java/com/study/moneygo/user/service/AuthService.java:60 | a row not yet in the table is appended at the end; saving a row already there leaves the table as it is |
| Accounts.FindsTheRow | src/main/java/com/study/moneygo/account/entity/Account.java:21-29 | with the id, number and owner columns unique, every row is the one found by its id, by its number and by its owner |
| Accounts.AppendKeepsUnique | src/main/java/com/study/moneygo/account/entity/Account.java:21-29 | a row whose id, number and owner are all new keeps the three columns unique |
| Users.AfterLoginFailure | src/main/java/com/study/moneygo/user/entity/User.java:48-54 | one more login failure: the counter grows by one, the user is LOCKED once it reaches 3 and keeps its status before that, the PIN fields are untouched |
| Users.AfterPinFailure | src/main/java/com/study/moneygo/user/entity/User.java:60-66 | one more PIN failure: the counter grows by one, the user is LOCKED once it reaches 5 and keeps its status before that, the login counter is untouched |
| Users.Unlocked | src/main/java/com/study/moneygo/user/entity/User.java:80-83 | unlocking makes the user ACTIVE and clears the login counter only; the PIN and its counter are kept |
| Users.LoginFailuresLock | src/main/java/com/study/moneygo/user/entity/User.java:48-54 | after n login failures the counter has grown by n, and the user is LOCKED exactly when it already was or the counter reached 3 |
| Users.PinFailuresLock | src/main/java/com/study/moneygo/user/entity/User.java:60-66 | after n PIN failures the counter has grown by n and the login counter is unchanged; the user is LOCKED exactly when it already was or the counter reached 5 |
| Users.User.constructor | src/main/java/com/study/moneygo/user/entity/User.java:21-42 | a user row with the given identity, encoded password, name and state |
| Users.User.IncrementFailedAttempts | src/main/java/com/study/moneygo/user/entity/User.java:48-54 | the new state is `AfterLoginFailure` of the old one |
| Users.User.ResetFailedAttempts | src/main/java/com/study/moneygo/user/entity/User.java:56-58 | the login counter becomes 0 and the rest of the state, the status included, is unchanged |
| Users.User.IncrementFailedSimplePasswordAttempts | src/main/java/com/study/moneygo/user/entity/User.java:60-66 | the new state is `AfterPinFailure` of the old one |
| Users.User.ResetFailedSimplePasswordAttempts | src/main/java/com/study/moneygo/user/entity/User.java:68-70 | the PIN counter becomes 0 and the rest of the state, the status included, is unchanged |
| Users.User.SetSimplePassword | src/main/java/com/study/moneygo/user/entity/User.java:37-39 | the encoded PIN is stored and nothing else changes; `HasSimplePassword` then holds exactly when the stored PIN is non-empty |
| Users.User.Lock | src/main/java/com/study/moneygo/user/entity/User.java:76-78 | the status becomes LOCKED and the counters are kept; `IsActive` no longer holds |
| Users.User.Unlock | src/main/java/com/study/moneygo/user/entity/User.java:80-83 | the new state is `Unlocked` of the old one; `IsActive` then holds |
| Users.FindByEmail | src/main/java/com/study/moneygo/account/service/TransferService.java:37-38 | the user found is in the table and has the e-mail asked for; nothing is found only when no user has that e-mail |
| Users.UserTable.Save | src/main/java/com/study/moneygo/user/service/AuthService.java:49 | a user not yet in the table is appended at the end; saving one already there leaves the table as it is |
| Ledger.Transaction.constructor | src/main/java/com/study/moneygo/account/entity/Transaction.java:20-49 | a transaction with the given parties, amount, type, status, description and key, and no error message |
| Ledger.Transaction.Complete | src/main/java/com/study/moneygo/account/entity/Transaction.java:57-59 | the status becomes COMPLETED and every other column is unchanged; `IsCompleted` then holds |
| Ledger.Transaction.Fail | src/main/java/com/study/moneygo/account/entity/Transaction.java:61-64 | the status becomes FAILED, the error message is recorded, and every other column is unchanged; `IsCompleted` no longer holds |
| Ledger.Transaction.Cancel | src/main/java/com/study/moneygo/account/entity/Transaction.java:66-68 | the status becomes CANCELLED and every other column is unchanged; `IsCompleted` no longer holds |
| Ledger.TransactionLog.Save | src/main/java/com/study/moneygo/account/service/TransferService.java:111 | a transaction not yet in the log is appended at the end; saving one already there leaves the log as it is |
| Limits.DayReset | src/main/java/com/study/moneygo/account/entity/TransferLimit.java:46-52 | on the last reset day nothing changes; on any other day the usage restarts at 0; either way the reset date becomes today and the caps are kept |
| Limits.Allows | src/main/java/com/study/moneygo/account/entity/TransferLimit.java:54-65 | an amount is allowed exactly when it is within the per-transaction cap and within what is left of today's cap after the reset |
| Limits.WithUsage | src/main/java/com/study/moneygo/account/entity/TransferLimit.java:67-70 | recording an amount lowers what is left today by exactly that amount, after the reset; the caps are kept |
| Limits.DayResetIdempotent | src/main/java/com/study/moneygo/account/entity/TransferLimit.java:46-52 | resetting twice on one day is resetting once |
| Limits.AllowedUsageStaysWithin | src/main/java/com/study/moneygo/account/entity/TransferLimit.java:54-70 | recording a positive amount the limit allows keeps the usage between 0 and the daily cap |
| Limits.DailyTotalWithinLimit | src/main/java/com/study/moneygo/account/entity/TransferLimit.java:54-70 | whatever amounts one day offers, those allowed add up to at most what was left of the daily cap, each is within the per-transaction cap, and the usage grows by exactly their total |
| Limits.TransferLimit.constructor | src/main/java/com/study/moneygo/account/entity/TransferLimit.java:21-38 | a limit row for the account with the given caps, usage and reset date |
| Limits.TransferLimit.ResetIfNewDay | src/main/java/com/study/moneygo/account/entity/TransferLimit.java:46-52 | the new state is `DayReset` of the old one |
| Limits.TransferLimit.CanTransfer | src/main/java/com/study/moneygo/account/entity/TransferLimit.java:54-65 | the answer is `Allows` on the old state, and the row is left reset for today |
| Limits.TransferLimit.AddUsage | src/main/java/com/study/moneygo/account/entity/TransferLimit.java:67-70 | the new state is `WithUsage` of the old one |
| Limits.TransferLimit.GetRemainingDailyLimit | src/main/java/com/study/moneygo/account/entity/TransferLimit.java:72-75 | the result is the daily cap less today's usage after the reset, and the row is left reset for today |
| Limits.TransferLimitTable.FindOrCreate | src/main/java/com/study/moneygo/account/service/TransferService.java:124-133 | the account's limit row; when it has none, a fresh row with 3,000,000 / 1,000,000 won caps, nothing used and no reset date, appended and found from then on |
| Limits.FindLimit | src/main/java/com/study/moneygo/account/repository/TransferLimitRepository.java:16-20 | the account's limit row, or none when no row is the account's |
| Transfers.Transfer | src/main/java/com/study/moneygo/account/service/TransferService.java:34-122 | a transfer succeeds exactly when every check passes, the amount is positive and the notification does not fail; the rejections come in the source's order (sender, receiver, self-transfer, credential, sender active, receiver active, balance, limit) and move no money; once admitted, debit equals credit, the limit is charged by the amount, and a COMPLETED or FAILED transaction row is written; the reported balance is the sender's new one |
| Transfers.Settle | src/main/java/com/study/moneygo/transfer/service/TransferService.java:98-123 | the money-movement block: a non-positive amount fails at the withdrawal before anything moves; otherwise the full amount moves and the limit is charged, and a failing notification then fails the transaction after the money has moved |
| Transfers.TransferConservesMoney | src/main/java/com/study/moneygo/account/service/TransferService.java:99-102 | whatever the outcome, the two balances add up to what they did before, and a non-negative sender balance stays non-negative |
| Transfers.SettleTransfer | src/main/java/com/study/moneygo/account/service/TransferService.java:88-121 | on the objects: the balances, the limit row and the transaction row written are those `Settle` gives |
| Transfers.ExecuteTransfer | src/main/java/com/study/moneygo/account/service/TransferService.java:59-121 | the checks after the credential, the limit lookup or creation, and the money movement on the objects give exactly the result, balances, limit row and transaction row of `Transfer`; no other limit row changes |
| Transfers.CheckLimitAndSettle | src/main/java/com/study/moneygo/account/service/TransferService.java:72-121 | once both accounts are active and the sender can pay, the limit lookup or creation, the limit check and the money movement give exactly the result, balances, limit row and transaction row of `Transfer` |
| Transfers.RepeatedTransfersAllSucceed | src/main/java/com/study/moneygo/account/service/TransferService.java:67-108 | between two active accounts, n transfers of a positive amount within the per-transaction cap all succeed while the sender can pay and the day's cap has room: the sender ends n × amount lower, the receiver n × amount higher, and the day's headroom n × amount smaller |
| Transfers.TenTransfersEmptyTheSender | src/test/java/com/study/moneygo/service/ConcurrencyTest.java:171-181 | run one after another, ten transfers of 100,000 won from 1,000,000 won to 0 all succeed, leaving 0 and 1,000,000 won |
| Transfers.DefaultLimitAllowsThreeMillionWonADay | src/main/java/com/study/moneygo/account/entity/TransferLimit.java:29-35 | under the default limit three transfers of 1,000,000 won go through in a day and a fourth is refused with nothing left; 1,000,001 won is refused outright |
| AccountTransferService.PasswordCheck | src/main/java/com/study/moneygo/account/service/TransferService.java:55-57 | the credential passes exactly when the login password matches, and otherwise fails with WrongPassword |
| AccountTransferService.Transfer | src/main/java/com/study/moneygo/account/service/TransferService.java:34-122 | the call on the tables has exactly the effect `Transfers.Transfer` gives with the login-password check: the result and response, the sender down and the receiver up by what moved with every other account untouched, the sender's limit row (created when missing) with every other row unchanged, and one transaction row appended exactly when every check passed |
| PinTransferService.Transfer | src/main/java/com/study/moneygo/transfer/service/TransferService.java:36-124 | the call on the tables has exactly the effect `Transfers.Transfer` gives with the PIN check: the PIN is checked (and a miss counted against the user) only once both accounts are resolved and differ; a failing notification fails the transfer after the money moved; balances, limit rows and the transaction table change as in the login-password variant |
| PinTransferService.TransferBetween | src/main/java/com/study/moneygo/transfer/service/TransferService.java:56-121 | between two resolved, different accounts: the PIN is checked and counted first, then balances, limit row and transaction row change exactly as `Transfers.Transfer` gives for that PIN outcome |
| SimplePasswords.Verify | src/main/java/com/study/moneygo/simplepassword/service/SimplePasswordService.java:172-200 | passes exactly when a PIN is stored and matches; with none stored nothing changes; a match resets the counter; a miss bumps the counter (locking at 5) and reports SimplePasswordLocked exactly when the bumped counter reaches 5, else the attempts left; the user's status is never consulted; the attempts left are `RemainingAttempts` of the bumped counter, i.e. 5 less the failures |
| SimplePasswords.Register | src/main/java/com/study/moneygo/simplepassword/service/SimplePasswordService.java:31-58 | succeeds exactly when no PIN is stored, the login password matches and the confirmation equals the PIN, and then stores the encoded PIN; the errors come in that order |
| SimplePasswords.Change | src/main/java/com/study/moneygo/simplepassword/service/SimplePasswordService.java:66-109 | succeeds exactly when a PIN is stored, the current PIN matches, the new PIN equals its confirmation and differs from the current one, and then stores the new encoded PIN and resets the counter; a wrong current PIN counts as a failure; the later rejections change nothing |
| SimplePasswords.FifthWrongPinLocks | src/main/java/com/study/moneygo/simplepassword/service/SimplePasswordService.java:182-192 | from a clear counter, the fourth wrong PIN in a row reports one attempt left and leaves the user ACTIVE; the fifth reports the lock and leaves the user LOCKED |
| SimplePasswords.WrongPinsArePinFailures | src/main/java/com/study/moneygo/simplepassword/service/SimplePasswordService.java:182-184 | a run of wrong PINs is the same run of counter increments, and the stored PIN stays |
| SimplePasswords.NewUserLocksAtFifthWrongPin | src/main/java/com/study/moneygo/user/service/AuthService.java:40-47 | with the PIN counter set at signup, a new user who registers a PIN is locked by the fifth wrong PIN |
| SimplePasswords.VerifyAsWritten | src/main/java/com/study/moneygo/simplepassword/service/SimplePasswordService.java:182-184 | over a counter that may be null: a wrong PIN on a null counter fails before anything is recorded; a correct PIN sets the counter to 0 and keeps the status |
| SimplePasswords.SignedUpUserNeverLocksAsWritten | src/main/java/com/study/moneygo/user/service/AuthService.java:40-47 | as written, a signed-up user (PIN counter null) who registers a PIN is never locked: any number of wrong PINs leaves the row unchanged and ACTIVE |
| SimplePasswords.SimplePasswordService.constructor | src/main/java/com/study/moneygo/simplepassword/service/SimplePasswordService.java:20-23 | the service holds the password encoder's encode and match |
| SimplePasswords.SimplePasswordService.RegisterSimplePassword | src/main/java/com/study/moneygo/simplepassword/service/SimplePasswordService.java:31-58 | the outcome and the user's new state are those of `Register`; a rejection leaves the user as it was |
| SimplePasswords.SimplePasswordService.ChangeSimplePassword | src/main/java/com/study/moneygo/simplepassword/service/SimplePasswordService.java:66-109 | the outcome and the user's new state are those of `Change` |
| SimplePasswords.SimplePasswordService.VerifySimplePasswordForUser | src/main/java/com/study/moneygo/simplepassword/service/SimplePasswordService.java:172-200 | the outcome and the user's new state are those of `Verify` |
| AuthService.GenerateUniqueAccountNumber | src/main/java/com/study/moneygo/user/service/AuthService.java:114-121 | the number returned is made from one of the draws and is not in use, and every earlier draw gave a number in use |
| AuthService.Signup | src/main/java/com/study/moneygo/user/service/AuthService.java:33-69 | sign-up succeeds exactly when the e-mail is not in use; it then appends one ACTIVE user with the encoded password, both failure counters at 0 (the PIN counter corrected from the source's null; see "## Left out") and one ACTIVE account with balance 0 under a well-formed number not in use before, and reports them; a taken e-mail changes nothing; the tables' keys stay unique |
| AuthService.LoginStep | src/main/java/com/study/moneygo/user/service/AuthService.java:71-112 | a login passes exactly when the user is not LOCKED, the credentials are accepted and the user has an account; a locked user is refused unchanged; a rejected password counts one login failure; a success resets the counter; an accepted password without an account resets and then counts one failure; the PIN state is never touched |
| AuthService.WrongPasswordsAreLoginFailures | src/main/java/com/study/moneygo/user/service/AuthService.java:106-111 | until the lock, n wrong passwords in a row are n counted login failures |
| AuthService.ThirdWrongPasswordLocks | src/main/java/com/study/moneygo/user/service/AuthService.java:71-112 | a fresh user stays ACTIVE after two wrong passwords, is LOCKED by the third, and is then refused even with the right password |
| AuthService.Login | src/main/java/com/study/moneygo/user/service/AuthService.java:71-112 | on the user table the call has the outcome and the new user state `LoginStep` gives, for the user found by e-mail; an unknown e-mail is refused as bad credentials; no other user changes; a success reports the user and their account number |
| AccountNumbers.DigitText | src/main/java/com/study/moneygo/util/account/AccountNumberGenerator.java:19-26 | one digit character per draw, the k-th showing the k-th draw |
| AccountNumbers.NumberOfWellFormed | src/main/java/com/study/moneygo/util/account/AccountNumberGenerator.java:10-17 | every generated number starts with "1001-" and matches the four-four-four digit pattern the transfer requests demand |
| AccountNumbers.NumberOfInjective | src/main/java/com/study/moneygo/util/account/AccountNumberGenerator.java:10-17 | different draws give different numbers |
| AccountNumbers.GenerateRandomDigits | src/main/java/com/study/moneygo/util/account/AccountNumberGenerator.java:19-26 | the text built is the decimal text of the first `length` draws |
| AccountNumbers.Generate | src/main/java/com/study/moneygo/util/account/AccountNumberGenerator.java:10-17 | the number built is "1001-", the first four draws, "-" and the last four |
| AdminService.Deposit | src/main/java/com/study/moneygo/admin/service/AdminService.java:24-66 | a top-up succeeds exactly when the account exists and the amount is positive, whatever the account's status; the new balance is the old one plus the amount; every failure, the missing account included, comes back wrapped and writes no transaction; a success writes one COMPLETED DEPOSIT with only the receiving side set and the default description when none is given |
| AdminService.Withdraw | src/main/java/com/study/moneygo/admin/service/AdminService.java:68-110 | a withdrawal succeeds exactly when the account exists and 0 < amount ≤ balance; a short balance is refused before any transaction is built; otherwise one WITHDRAW row with only the sending side set is written, COMPLETED on success or FAILED with the withdrawal's error, which comes back wrapped |
| AdminService.DepositThenWithdrawRestores | src/main/java/com/study/moneygo/admin/service/AdminService.java:24-110 | a top-up taken back out by a withdrawal of the same amount leaves a non-negative balance where it was |
| AdminService.AdminDeposit | src/main/java/com/study/moneygo/admin/service/AdminService.java:24-66 | on the tables the call has exactly the effect `Deposit` gives: the result and the receipt (number, balance before, after, amount), only the found account's balance changes, and the transaction table grows by the row written, if any |
| AdminService.CreditAndRecord | src/main/java/com/study/moneygo/admin/service/AdminService.java:35-60 | on a found account the credit has the effect `Deposit` gives: the balance rises by a positive amount and one COMPLETED row is written; a failed credit writes nothing |
| AdminService.AdminWithdraw | src/main/java/com/study/moneygo/admin/service/AdminService.java:68-110 | on the tables the call has exactly the effect `Withdraw` gives, in the same terms |
| AdminService.DebitAndRecord | src/main/java/com/study/moneygo/admin/service/AdminService.java:81-110 | once the balance covers the amount, exactly one WITHDRAW row is written, COMPLETED with the balance lowered, or FAILED with the debit's error and the balance unchanged, as `Withdraw` gives |
| Schedules.Cancelled | src/main/java/com/study/moneygo/scheduled/transfer/entity/ScheduledTransfer.java:79-85 | only a PENDING schedule can be cancelled, and it becomes CANCELLED with nothing else changed; any other status is refused |
| Schedules.CancelIsFinal | src/main/java/com/study/moneygo/scheduled/transfer/entity/ScheduledTransfer.java:79-85 | a cancelled schedule cannot be cancelled again |
| Schedules.ScheduledTransfer.Record | src/main/java/com/study/moneygo/scheduled/transfer/entity/ScheduledTransfer.java:21-54 | the row's columns, the owner being the user of the sending account |
| Schedules.ScheduledTransfer.constructor | src/main/java/com/study/moneygo/scheduled/transfer/service/ScheduledTransferService.java:88-95 | a new booking is PENDING, not yet attempted, with no transaction and no failure reason; `IsPending` holds, and `IsReadyToExecute` holds exactly at instants strictly after the scheduled one |
| Schedules.ScheduledTransfer.Execute | src/main/java/com/study/moneygo/scheduled/transfer/entity/ScheduledTransfer.java:67-71 | the schedule becomes EXECUTED with the transaction and the attempt time recorded, whatever its status was; the schedule is then neither `IsPending` nor `IsReadyToExecute` at the attempt time |
| Schedules.ScheduledTransfer.Fail | src/main/java/com/study/moneygo/scheduled/transfer/entity/ScheduledTransfer.java:73-77 | the schedule becomes FAILED with the reason and the attempt time recorded, whatever its status was; the schedule is then neither `IsPending` nor `IsReadyToExecute` at the attempt time |
| Schedules.ScheduledTransfer.Cancel | src/main/java/com/study/moneygo/scheduled/transfer/entity/ScheduledTransfer.java:79-85 | the call has the effect and the outcome that `Cancelled` gives; `IsPending` does not hold afterwards, whether the call passed or failed |
| Schedules.PendingSchedules | src/main/java/com/study/moneygo/scheduled/transfer/repository/ScheduledTransferRepository.java:22-23 | exactly the PENDING rows whose instant is at or before now |
| Schedules.SchedulesOf | src/main/java/com/study/moneygo/scheduled/transfer/repository/ScheduledTransferRepository.java:18-19 | exactly the rows booked on an account of the given user |
| Schedules.ReadyIsPicked | src/main/java/com/study/moneygo/scheduled/transfer/entity/ScheduledTransfer.java:91-93 | every schedule the entity deems ready is picked by the poller's query, and one due exactly now is picked although the entity does not deem it ready (`IsReadyToExecute`: PENDING and strictly past the scheduled instant) |
| Schedules.FindSchedule | src/main/java/com/study/moneygo/scheduled/transfer/service/ScheduledTransferService.java:122-123 | a row with the id, or none when no row has it |
| Schedules.ScheduleTable.Save | src/main/java/com/study/moneygo/scheduled/transfer/service/ScheduledTransferService.java:97 | a new row is appended; a row already stored stays where it is |
| ScheduledTransferService.Book | src/main/java/com/study/moneygo/scheduled/transfer/service/ScheduledTransferService.java:45-104 | a booking succeeds exactly when the sender's account is found, the PIN passes, the receiver exists and is another account, 0 < amount ≤ balance and the instant lies between one minute and one year ahead; the checks fail in that order; the amount is taken exactly when every check up to the withdrawal passes, so a booking refused for its time still keeps the amount |
| ScheduledTransferService.CreateSchedule | src/main/java/com/study/moneygo/scheduled/transfer/service/ScheduledTransferService.java:45-104 | on the tables the call has the outcome `Book` gives: the PIN check counts once the sender is found, only the sender's balance changes, by what `Book` took, and on success one PENDING booking is appended with the request's fields |
| ScheduledTransferService.ScheduleDetail | src/main/java/com/study/moneygo/scheduled/transfer/service/ScheduledTransferService.java:116-131 | the booking is shown exactly when it exists and belongs to the caller; an unknown id and someone else's booking are refused with their own errors |
| ScheduledTransferService.Cancel | src/main/java/com/study/moneygo/scheduled/transfer/service/ScheduledTransferService.java:133-163 | a cancellation goes through exactly when the booking exists, is the caller's, is PENDING, and its account is found and credited; exactly then the amount is handed back; missing, foreign and no-longer-pending bookings are refused with their own errors |
| ScheduledTransferService.BookThenCancelRestores | src/main/java/com/study/moneygo/scheduled/transfer/service/ScheduledTransferService.java:45-163 | a booking cancelled while pending leaves the sender's balance where it was before the booking |
| ScheduledTransferService.CancelSchedule | src/main/java/com/study/moneygo/scheduled/transfer/service/ScheduledTransferService.java:133-163 | on the tables the call has the outcome and refund that `Cancel` gives; only the sender's balance and the booking's status change |
| ScheduledTransferService.ScheduledDescription | src/main/java/com/study/moneygo/scheduled/transfer/service/ScheduledTransferService.java:197-199 | the description always starts with the scheduled-transfer prefix, followed by a space and the booking's own description when there is one |
| ScheduledTransferService.TryBlock | src/main/java/com/study/moneygo/scheduled/transfer/service/ScheduledTransferService.java:167-225 | the main block completes exactly when both accounts are found and active and the amount is positive; when it throws nothing is credited to the receiver and no row is written |
| ScheduledTransferService.Execute | src/main/java/com/study/moneygo/scheduled/transfer/service/ScheduledTransferService.java:166-258 | an execution succeeds exactly when both accounts are found and active and the amount is positive, crediting the receiver and writing one COMPLETED transfer with the prefixed description and the drawn key; a missing receiver refunds the sender once; an inactive account refunds the sender twice |
| ScheduledTransferService.ExecuteRefundingOnce | src/main/java/com/study/moneygo/scheduled/transfer/service/ScheduledTransferService.java:226-244 | the execution with the refund made once, by the handler only; an inactive account still fails it |
| ScheduledTransferService.RefundingOnceConservesReservation | src/main/java/com/study/moneygo/scheduled/transfer/service/ScheduledTransferService.java:166-258 | with the refund made once, a positive reservation whose sender is found is paid out exactly once, to the receiver or back to the sender |
| ScheduledTransferService.InactiveReceiverRefundsTwice | src/main/java/com/study/moneygo/scheduled/transfer/service/ScheduledTransferService.java:176-181 | as written, a booking to an account that is inactive when it runs leaves the sender richer by the booked amount |
| ScheduledTransferService.TryTransfer | src/main/java/com/study/moneygo/scheduled/transfer/service/ScheduledTransferService.java:167-225 | on the tables the main block moves what `TryBlock` gives; on success it writes the transaction and marks the booking EXECUTED with it; on failure the booking and the log are untouched |
| ScheduledTransferService.ExecuteScheduledTransfer | src/main/java/com/study/moneygo/scheduled/transfer/service/ScheduledTransferService.java:166-258 | on the tables the call moves what `Execute` gives; a failure marks the booking FAILED with the error and writes nothing; a success writes one transaction and marks the booking EXECUTED with it |
| ScheduledTransferExecutor.ExecuteScheduledTransfers | src/main/java/com/study/moneygo/scheduled/transfer/executor/ScheduledTransferExecutor.java:24-51 | every schedule due by now that was PENDING is left EXECUTED or FAILED, attempted now; every other schedule is untouched; the transaction log only grows |
| ScheduledTransferExecutor.ExecuteOne | src/main/java/com/study/moneygo/scheduled/transfer/executor/ScheduledTransferExecutor.java:36-45 | each execution leaves its schedule EXECUTED or FAILED, attempted now, and only appends to the transaction log |
| QrPayments.QrPayment.Record | src/main/java/com/study/moneygo/qrpayment/entity/QrPayment.java:21-49 | the row's columns, the seller being the account's id |
| QrPayments.QrPayment.constructor | src/main/java/com/study/moneygo/qrpayment/service/QrPaymentService.java:58-65 | a new QR is PENDING with no transaction yet; `IsPending` holds |
| QrPayments.QrPayment.Complete | src/main/java/com/study/moneygo/qrpayment/entity/QrPayment.java:63-66 | the QR becomes COMPLETED with the transaction attached, whatever its status was; `IsPending` no longer holds |
| QrPayments.QrPayment.Expire | src/main/java/com/study/moneygo/qrpayment/entity/QrPayment.java:68-70 | the QR becomes EXPIRED, nothing else changes; `IsPending` no longer holds |
| QrPayments.QrPayment.Cancel | src/main/java/com/study/moneygo/qrpayment/entity/QrPayment.java:72-74 | the QR becomes CANCELLED, nothing else changes; `IsPending` does not hold afterwards, whether the call passed or failed |
| QrPayments.FindByCode | src/main/java/com/study/moneygo/qrpayment/repository/QrPaymentRepository.java:11 | a row with the code, or none when no row has it |
| QrPayments.QrTable.Save | src/main/java/com/study/moneygo/qrpayment/service/QrPaymentService.java:66 | a new row is appended; a row already stored stays where it is |
| QrPaymentService.QrCode | src/main/java/com/study/moneygo/qrpayment/service/QrPaymentService.java:198-206 | the code is "QR_", the day, "_" and the random part, each readable back at its own position |
| QrPaymentService.QrCodeInjective | src/main/java/com/study/moneygo/qrpayment/service/QrPaymentService.java:198-206 | two codes of the same day are equal only when their random parts are |
| QrPaymentService.GenerateUniqueQrCode | src/main/java/com/study/moneygo/qrpayment/service/QrPaymentService.java:198-206 | the code returned is built from one of the draws, each with the day read at its own pass, and is not in use; every earlier draw gave a code in use |
| QrPaymentService.GenerateQrCode | src/main/java/com/study/moneygo/qrpayment/service/QrPaymentService.java:41-70 | a QR is made exactly when the seller has an account; it is PENDING, carries the request's amount and description, a code not in use before, and expires ten minutes after now; it is appended to the table |
| QrPaymentService.ValidForTenMinutes | src/main/java/com/study/moneygo/qrpayment/service/QrPaymentService.java:39 | a fresh QR counts as expired exactly from ten minutes after its creation on, strictly (`Expired`, which `QrPayment.IsExpired` applies to the row: strictly past `expiresAt`) |
| QrPaymentService.Pay | src/main/java/com/study/moneygo/qrpayment/service/QrPaymentService.java:72-196 | a payment succeeds exactly when the QR exists, is PENDING and not expired, both accounts are found and distinct, the PIN passes, both are active and 0 < amount ≤ the buyer's balance; the checks fail in that order; a success moves the amount buyer to seller, completes the QR and writes one COMPLETED QR_PAYMENT; an expired QR is marked EXPIRED; only a failing withdrawal writes a FAILED row |
| QrPaymentService.PaidQrIsNotPaidAgain | src/main/java/com/study/moneygo/qrpayment/service/QrPaymentService.java:85-88 | a QR once paid refuses every later payment and moves nothing |
| QrPaymentService.ExpiredQrIsNotPaid | src/main/java/com/study/moneygo/qrpayment/service/QrPaymentService.java:85-95 | a QR once marked expired refuses every later payment and moves nothing |
| QrPaymentService.Charge | src/main/java/com/study/moneygo/qrpayment/service/QrPaymentService.java:130-195 | the money-moving block withdraws from the buyer and deposits to the seller exactly when the withdrawal succeeds; the transaction is written COMPLETED, or FAILED with the error; the QR is completed with it only on success |
| QrPaymentService.PayLiveQr | src/main/java/com/study/moneygo/qrpayment/service/QrPaymentService.java:97-195 | for a live QR, the call has the effect `Pay` gives: result, receipt, PIN counter, balances, QR and log |
| QrPaymentService.PayFoundQr | src/main/java/com/study/moneygo/qrpayment/service/QrPaymentService.java:85-195 | once the QR is found, the call has the effect `Pay` gives, marking an expired QR EXPIRED |
| QrPaymentService.PayWithQrCode | src/main/java/com/study/moneygo/qrpayment/service/QrPaymentService.java:72-196 | on the tables the call has the effect `Pay` gives: the result and receipt, the PIN counter moved only when the check is reached, only the two accounts' balances changed, by the amount moved, other QRs untouched, and the log grown by the row written, if any |
| NotificationSettings.SwitchOf | src/main/java/com/study/moneygo/notification/entity/NotificationSetting.java:88-95 | every notification type has its own switch except ACCOUNT_LOCKED, which has none |
| NotificationSettings.Turned | src/main/java/com/study/moneygo/notification/entity/NotificationSetting.java:56-81 | a setter turns its own switch to the value given and leaves every other switch, the master switch and the threshold as they were |
| NotificationSettings.ShouldNotifyBySwitch | src/main/java/com/study/moneygo/notification/entity/NotificationSetting.java:83-96 | a type is notified exactly when the master switch and the type's own switch are on; with the master switch off nothing is, and ACCOUNT_LOCKED never is; this is the `ShouldNotify` that `NotificationSetting.ShouldNotifyFor` applies to the row |
| NotificationSettings.TurningOneSwitch | src/main/java/com/study/moneygo/notification/entity/NotificationSetting.java:56-96 | turning one switch changes the decision only for the types that switch governs, which then follows the master switch and the new value |
| NotificationSettings.SharedSwitches | src/main/java/com/study/moneygo/notification/entity/NotificationSetting.java:91-92 | the two scheduled-transfer types, and the two QR types, are always decided alike |
| NotificationSettings.LargeAmountThreshold | src/main/java/com/study/moneygo/notification/entity/NotificationSetting.java:98-101 | an amount at least as large as a large one is large; with the alert off none is; under the defaults an amount is large exactly from 500,000 won on; this is the `IsLargeAmount` that `NotificationSetting.IsLargeAmountFor` applies to the row |
| NotificationSettings.NotificationSetting.View | src/main/java/com/study/moneygo/notification/entity/NotificationSetting.java:29-50 | the row's preference columns |
| NotificationSettings.NotificationSetting.constructor | src/main/java/com/study/moneygo/notification/service/NotificationSettingService.java:79-88 | a row for the user with exactly the preferences given |
| NotificationSettings.NotificationSetting.UpdateEmailEnabled | src/main/java/com/study/moneygo/notification/entity/NotificationSetting.java:56-58 | only the master switch changes, to the value given; switching it off makes `ShouldNotifyFor` false for every type |
| NotificationSettings.NotificationSetting.UpdateTransferReceivedEmail | src/main/java/com/study/moneygo/notification/entity/NotificationSetting.java:60-62 | only the received-transfer switch changes, to the value given |
| NotificationSettings.NotificationSetting.UpdateTransferSentEmail | src/main/java/com/study/moneygo/notification/entity/NotificationSetting.java:64-66 | only the sent-transfer switch changes, to the value given |
| NotificationSettings.NotificationSetting.UpdateScheduledTransferEmail | src/main/java/com/study/moneygo/notification/entity/NotificationSetting.java:68-70 | only the scheduled-transfer switch changes, to the value given |
| NotificationSettings.NotificationSetting.UpdateQrPaymentEmail | src/main/java/com/study/moneygo/notification/entity/NotificationSetting.java:72-74 | only the QR switch changes, to the value given |
| NotificationSettings.NotificationSetting.UpdateLargeAmountAlert | src/main/java/com/study/moneygo/notification/entity/NotificationSetting.java:76-81 | the alert switch takes the value given; the threshold changes only when one is given; switching it off makes `IsLargeAmountFor` false for every amount |
| NotificationSettings.FindByUser | src/main/java/com/study/moneygo/notification/repository/NotificationSettingRepository.java:12 | the user's row, or none when no row is the user's |
| NotificationSettings.SettingTable.Save | src/main/java/com/study/moneygo/notification/service/NotificationSettingService.java:71 | a new row is appended; a row already stored stays where it is |
| NotificationSettingService.NoChangeKeeps | src/main/java/com/study/moneygo/notification/service/NotificationSettingService.java:47-69 | a request with every field null changes no preference |
| NotificationSettingService.UpdateIsIdempotent | src/main/java/com/study/moneygo/notification/service/NotificationSettingService.java:47-69 | sending the same update twice leaves what sending it once leaves |
| NotificationSettingService.GivenFieldsWin | src/main/java/com/study/moneygo/notification/service/NotificationSettingService.java:47-69 | every field the request gives ends up with the given value in `Updated` of the preferences |
| NotificationSettingService.AbsentFieldsKept | src/main/java/com/study/moneygo/notification/service/NotificationSettingService.java:47-69 | every field the request leaves null keeps its current value, the alert switch included when only a threshold is given |
| NotificationSettingService.SettingFor | src/main/java/com/study/moneygo/notification/service/NotificationSettingService.java:44-45 | the user's row when there is one, the table unchanged; otherwise a fresh row with the defaults appended to the table |
| NotificationSettingService.GetMySetting | src/main/java/com/study/moneygo/notification/service/NotificationSettingService.java:26-36 | an unknown e-mail is refused with the table unchanged; otherwise the user's preferences, or the defaults, with a default row created when there was none |
| NotificationSettingService.ApplySwitches | src/main/java/com/study/moneygo/notification/service/NotificationSettingService.java:48-62 | each of the five e-mail switches takes the request's value when given and keeps its own otherwise |
| NotificationSettingService.ApplyLargeAmount | src/main/java/com/study/moneygo/notification/service/NotificationSettingService.java:63-69 | the alert switch and the threshold each take the request's value when given and keep their own otherwise |
| NotificationSettingService.Apply | src/main/java/com/study/moneygo/notification/service/NotificationSettingService.java:47-69 | the row's preferences afterwards are `Updated` of the preferences before |
| NotificationSettingService.UpdateMySetting | src/main/java/com/study/moneygo/notification/service/NotificationSettingService.java:38-75 | an unknown e-mail is refused with the table unchanged; otherwise the user's row, or a new default row appended, ends with `Updated` of its preferences, which is the result; no other row changes |
| Favorites.Favorite.View | src/main/java/com/study/moneygo/favorite/entity/Favorite.java:23-44 | the favorite's columns as the response shows them |
| Favorites.Favorite.constructor | src/main/java/com/study/moneygo/favorite/service/FavoriteService.java:64-72 | a favorite for the owner with exactly the number, owner name, nickname and memo given |
| Favorites.Favorite.UpdateNickname | src/main/java/com/study/moneygo/favorite/entity/Favorite.java:50-52 | only the nickname changes, to the value given |
| Favorites.Favorite.UpdateMemo | src/main/java/com/study/moneygo/favorite/entity/Favorite.java:54-56 | only the memo changes, to the value given |
| Favorites.CountOf | src/main/java/com/study/moneygo/favorite/repository/FavoriteRepository.java:30 | a user never has more favorites than the table has rows |
| Favorites.MyFavorites | src/main/java/com/study/moneygo/favorite/repository/FavoriteRepository.java:16-17 | exactly the user's favorites, as many as `countByUserId` counts (the order is stated by `MyFavoritesNewestFirst`) |
| Favorites.MyFavoritesNewestFirst | src/main/java/com/study/moneygo/favorite/repository/FavoriteRepository.java:16-17 | `ORDER BY createdAt DESC`: the listing is the user's favorites in table (creation) order, reversed, so the k-th listed is the k-th newest |
| Favorites.FindFavorite | src/main/java/com/study/moneygo/favorite/service/FavoriteService.java:97-98 | a row with the id, or none when no row has it |
| Favorites.CountAppend | src/main/java/com/study/moneygo/favorite/repository/FavoriteRepository.java:30 | appending a favorite adds one to its owner's count and nothing to anybody else's |
| Favorites.AddKeepsConsistent | src/main/java/com/study/moneygo/favorite/service/FavoriteService.java:52-61 | a favorite the user does not yet have, added below the limit, keeps every (user, number) pair unique and every user within 50 |
| Favorites.Without | src/main/java/com/study/moneygo/favorite/service/FavoriteService.java:167 | every row except the one deleted, and nothing else |
| Favorites.WithoutCounts | src/main/java/com/study/moneygo/favorite/service/FavoriteService.java:167 | a deletion lowers its owner's count by at most one and leaves everybody else's |
| Favorites.WithoutKeepsConsistent | src/main/java/com/study/moneygo/favorite/service/FavoriteService.java:167 | a deletion keeps the pairs unique and the counts within 50 |
| Favorites.WithoutKeepsOrder | src/main/java/com/study/moneygo/favorite/repository/FavoriteRepository.java:16-17 | a deletion keeps the remaining favorites in their order |
| Favorites.FavoriteTable.Save | src/main/java/com/study/moneygo/favorite/service/FavoriteService.java:72 | a new favorite is appended; one already stored stays where it is |
| Favorites.FavoriteTable.Delete | src/main/java/com/study/moneygo/favorite/service/FavoriteService.java:167 | the favorite leaves the table, the rest stay in order |
| Favorites.AddCheck | src/main/java/com/study/moneygo/favorite/service/FavoriteService.java:33-61 | a favorite may be added exactly when the user and their account exist, the number is not their own, it names an existing account, the user has not bookmarked it yet and has fewer than 50 favorites |
| Favorites.AddFavorite | src/main/java/com/study/moneygo/favorite/service/FavoriteService.java:33-77 | an addition succeeds exactly when `AddCheck` passes and then appends one favorite with the request's fields and the target account owner's name; a refusal reports the first failing check and changes nothing; the table stays consistent |
| Favorites.OwnedFavorite | src/main/java/com/study/moneygo/favorite/service/FavoriteService.java:91-106 | a favorite is handed out exactly when the user is known, the favorite exists and is the user's; otherwise the unknown user, the missing favorite and someone else's favorite each get their own error |
| Favorites.Views | src/main/java/com/study/moneygo/favorite/service/FavoriteService.java:85-88 | one response per favorite, in order |
| Favorites.GetMyFavorites | src/main/java/com/study/moneygo/favorite/service/FavoriteService.java:79-89 | an unknown e-mail is refused; otherwise exactly the user's favorites, as many as they have |
| Favorites.FavoriteDetail | src/main/java/com/study/moneygo/favorite/service/FavoriteService.java:91-106 | a favorite is shown only to its owner, and refused exactly when `OwnedFavorite` refuses it |
| Favorites.Edited | src/main/java/com/study/moneygo/favorite/service/FavoriteService.java:131-138 | a nickname or memo is replaced only by a non-null, non-empty value and otherwise kept |
| Favorites.UpdateFavorite | src/main/java/com/study/moneygo/favorite/service/FavoriteService.java:108-151 | only the owner's own favorite changes, and only in its nickname and memo as `Edited` says; every refusal of `OwnedFavorite` is passed on and changes nothing |
| Favorites.DeleteFavorite | src/main/java/com/study/moneygo/favorite/service/FavoriteService.java:153-170 | exactly the owner's favorite leaves the table, every other row stays, and the table stays consistent; every refusal of `OwnedFavorite` is passed on and changes nothing |
| Base.EndOfDay | src/main/java/com/study/moneygo/transaction/service/TransactionService.java:45 | the end of a day is its last instant, one before the next day starts |
| Base.LastSecondOfDay | src/main/java/com/study/moneygo/transaction/service/TransactionService.java:110-111 | 23:59:59 of a day lies inside the day, one second less one nanosecond before its end |
| TransactionQueries.CounterpartyName | src/main/java/com/study/moneygo/transaction/service/TransactionService.java:149-162 | for a transaction I sent, the receiver's name; for one I only received, the sender's; "시스템" when that side is missing; "알 수 없음" for one that is not mine; `Sent` means my account is the sender, `Received` that it is the receiver |
| TransactionQueries.FilteredCounterpartyName | src/main/java/com/study/moneygo/transaction/service/TransactionService.java:135-146 | a name exactly when one side is another account than mine, the sender's name first |
| TransactionQueries.CounterpartyRules | src/main/java/com/study/moneygo/transaction/service/TransactionService.java:135-162 | the two counterparty rules agree on a transfer between two different accounts, and differ on a top-up or withdrawal, where one says "시스템" and the other nothing |
| TransactionQueries.MyAccount | src/main/java/com/study/moneygo/transaction/service/TransactionService.java:34-38 | an unknown e-mail and a user without an account are refused with their own errors; otherwise the user's account |
| TransactionQueries.FindEntry | src/main/java/com/study/moneygo/transaction/service/TransactionService.java:74-75 | a transaction with the id, or none when no transaction has it |
| TransactionQueries.Listing | src/main/java/com/study/moneygo/transaction/repository/TransactionRepository.java:20-40 | exactly the transactions the query keeps, no more than there are |
| TransactionQueries.ListingIsNewestFirst | src/main/java/com/study/moneygo/transaction/repository/TransactionRepository.java:20-40 | a listing of a table in creation order comes out newest first |
| TransactionQueries.Upper | src/main/java/com/study/moneygo/transaction/service/TransactionService.java:118 | one upper-cased character per character |
| TransactionQueries.Dispatch | src/main/java/com/study/moneygo/transaction/service/TransactionService.java:42-58 | both dates pick the date range from the start of the first day to the end of the last; otherwise "SENT" in any case picks the sent listing, "RECEIVED" the received one, anything else every transaction; `EqualsIgnoreCase` compares a given type with the word ignoring case, and no type matches neither word |
| TransactionQueries.QueriesListMine | src/main/java/com/study/moneygo/transaction/service/TransactionService.java:42-58 | every query lists only transactions of my account; the full listing is exactly the sent and the received ones together; the type's case does not matter, and a single date does not pick the date range |
| TransactionQueries.Lines | src/main/java/com/study/moneygo/transaction/service/TransactionService.java:59-63 | one line per transaction, in order, each with its counterparty name |
| TransactionQueries.GetTransactions | src/main/java/com/study/moneygo/transaction/service/TransactionService.java:33-64 | a listing is refused exactly when the caller's account is not found; otherwise every line is a transaction the dispatched query selects, with its counterparty, and every transaction it selects is listed; on a table in creation order the lines run newest first |
| TransactionQueries.LinesCover | src/main/java/com/study/moneygo/transaction/service/TransactionService.java:60-63 | the response lines are the listed transactions, each listed once, each with its counterparty name |
| TransactionQueries.GetTransactionDetail | src/main/java/com/study/moneygo/transaction/service/TransactionService.java:66-92 | a detail is shown exactly when the caller's account and the transaction are found and the account sent or received it; a missing transaction and someone else's transaction are refused with their own errors |
| TransactionQueries.FilterWindow | src/main/java/com/study/moneygo/transaction/service/TransactionService.java:107-112 | the window defaults to the year before now and now; a given start is the start of its day; a given end is inside its day, before its end |
| TransactionQueries.FilteredEndDateStopsAtLastSecond | src/main/java/com/study/moneygo/transaction/service/TransactionService.java:107-112 | a transaction in the last second of the end day is listed by the plain date-range listing and left out by the filtered one |
| TransactionQueries.ParseType | src/main/java/com/study/moneygo/account/entity/Transaction.java:74-79 | exactly the four type names parse, each to its own type |
| TransactionQueries.TypeFilter | src/main/java/com/study/moneygo/transaction/service/TransactionService.java:115-134 | a type filter applies exactly when the type is non-empty and its upper-cased form names a type |
| TransactionQueries.UnknownTypeFallsBack | src/main/java/com/study/moneygo/transaction/service/TransactionService.java:124-128 | a type name that does not parse filters nothing, as if none were given |
| TransactionQueries.FilteredLines | src/main/java/com/study/moneygo/transaction/service/TransactionService.java:135-146 | one line per transaction, in order, with the filtered counterparty rule |
| TransactionQueries.GetFilteredTransactions | src/main/java/com/study/moneygo/transaction/service/TransactionService.java:94-147 | a listing is refused exactly when the caller's account is not found; otherwise exactly the COMPLETED transactions of the account inside the window and of the type filtered for (`FilterKeeps` in both directions), each with the filtered counterparty; the refusal carries the lookup's own error; on a table in creation order the lines run newest first |
| TransactionQueries.FilteredLinesCover | src/main/java/com/study/moneygo/transaction/service/TransactionService.java:135-146 | the response lines are the listed transactions, each listed once, each with the filtered counterparty name |
| AccountTransactionQueries.ListedLinesNameAParty | src/main/java/com/study/moneygo/account/service/TransactionService.java:58-61 | every line a listing returns names one of its own transaction's parties, or "시스템" for a missing side: the "알 수 없음" fallback of lines 92-105 never reaches a listing |
| AccountTransactionQueries.FindsUniqueEntry | src/main/java/com/study/moneygo/account/service/TransactionService.java:72-73 | with transaction ids unique, `findById` returns the row that carries the id |
| AccountTransactionQueries.DetailIsTheListedLine | src/main/java/com/study/moneygo/account/service/TransactionService.java:64-90 | with ids unique, a transaction's detail is shown exactly when the full listing lists it, and the detail is that listing's line, counterparty included |
| AccountTransactionQueries.DispatchOrder | src/main/java/com/study/moneygo/account/service/TransactionService.java:40-56 | the type is ignored once both dates are given; a type that is neither SENT nor RECEIVED with one date lists everything |
| PdfStatements.WholeWon | src/main/java/com/study/moneygo/pdf/service/PdfService.java:294-296 | the whole won of an amount, its cents dropped toward zero |
| PdfStatements.Decimal | src/main/java/com/study/moneygo/pdf/service/PdfService.java:294-296 | at least one digit |
| PdfStatements.Group | src/main/java/com/study/moneygo/pdf/service/PdfService.java:294-296 | exactly three digits |
| PdfStatements.DecimalReadsBack | src/main/java/com/study/moneygo/pdf/service/PdfService.java:157-159 | a number printed with `%d` reads back as itself |
| PdfStatements.ValueOfDigit | src/main/java/com/study/moneygo/pdf/service/PdfService.java:294-296 | one more digit reads back as ten times the value plus the digit |
| PdfStatements.GroupReadsBack | src/main/java/com/study/moneygo/pdf/service/PdfService.java:294-296 | a comma and a three-digit group read back as a thousand times the value plus the group |
| PdfStatements.GroupedReadsBack | src/main/java/com/study/moneygo/pdf/service/PdfService.java:294-296 | the thousands separators change nothing: a number printed with `%,d` reads back as itself |
| PdfStatements.FormatCurrencyShowsWholeWon | src/main/java/com/study/moneygo/pdf/service/PdfService.java:294-296 | a printed amount ends in "원" and shows the amount's whole won, with a leading minus when negative; a whole-won amount prints without loss (`FormatCurrency`) |
| PdfStatements.KoreanTypeLabel | src/main/java/com/study/moneygo/pdf/service/PdfService.java:284-292 | the four type names get their Korean labels, and any other name is kept as it is |
| PdfStatements.KoreanLabelsDistinct | src/main/java/com/study/moneygo/pdf/service/PdfService.java:284-292 | no two types share a label |
| PdfStatements.YearPeriodReadsBack | src/main/java/com/study/moneygo/pdf/service/PdfService.java:157-159 | a year caption is the year's digits followed by "년" (`Period` with no month) |
| PdfStatements.MonthPeriodReadsBack | src/main/java/com/study/moneygo/pdf/service/PdfService.java:157-159 | a month caption is the year caption, a space, the month's digits and "월" (`Period` with a month) |
| PdfStatements.TotalsSplitAmounts | src/main/java/com/study/moneygo/pdf/service/PdfService.java:161-173 | every amount lands in exactly one of the two totals, so they add up to the sum of all amounts |
| PdfStatements.OwnStatementSplit | src/main/java/com/study/moneygo/pdf/service/PdfService.java:166-173 | when the statement's account receives every transaction, everything is a deposit and nothing a withdrawal |
| PdfStatements.TotalsStep | src/main/java/com/study/moneygo/pdf/service/PdfService.java:165-190 | one more transaction adds one row and its amount to exactly one total |
| PdfStatements.RowOf | src/main/java/com/study/moneygo/pdf/service/PdfService.java:166-190 | a row is marked as a deposit exactly when the statement's account receives it, its amount printed with "+", and otherwise with "-" |
| PdfStatements.RowsOf | src/main/java/com/study/moneygo/pdf/service/PdfService.java:164-191 | one row per transaction, in order |
| PdfStatements.Tally | src/main/java/com/study/moneygo/pdf/service/PdfService.java:161-191 | the loop builds one row per transaction and the deposit and withdrawal totals |
| PdfStatements.BuildStatement | src/main/java/com/study/moneygo/pdf/service/PdfService.java:150-282 | the statement shows the holder, the account, the period caption, one row per transaction, the two totals printed as currency and the number of transactions |

## Left out

- Concurrency is not modelled: pessimistic row locks, the `@Version` column and the lack of a lock order. Each service call is one atomic sequential step.
- Rollback and persistence are not modelled. Spring's `@Transactional` rollback is outside the model. Where the code changes an entity and then throws, the change is kept. This applies to:
  - a booking refused for its time after the reservation was taken;
  - a QR marked expired;
  - a PIN failure counted before the error.

  Repositories are in-memory sequences. `save` of a row already stored changes nothing.
- The JWT token, the `SecurityContextHolder` lookup, controllers, response DTO factories and pagination are left out. Listings are whole lists.
- The signed-in user's lookup by e-mail is not modelled in:
  - the two transfer services;
  - `ScheduledTransferService`;
  - `QrPaymentService`;
  - `SimplePasswordService`.

  These take the user (or the user's id) directly, so their "user not found" error is not modelled. The favorites, notification-setting and history services do model the lookup and its error.
- AuthService.Signup: the new user's PIN failure counter starts at 0, the corrected initial state. The source's builder (AuthService.java:40-47) sets only `failedLoginAttempts(0)`, and Lombok's builder skips the `= 0` initialiser at User.java:42, so the source stores null there. "## Findings" shows what that null does to the PIN lock.
- Schedules.SchedulesOf: states which schedules are listed, not the `ORDER BY scheduledAt DESC` order.
- Notification creation, e-mail sending and PDF rendering are left out: `NotificationService`, `EmailService`, the HTML template and the HTML-to-PDF conversion. A notification failure appears only as the `notificationFails` parameter of the PIN transfer. The notifications of scheduled transfers and QR payments are left out, because their failures are swallowed.
- Bean-validation annotations on request DTOs are not assumed. Every service handles non-positive amounts through the entities' own errors instead.
- The `phone` column of a user is left out: no rule reads it.
- `Random`, `UUID.randomUUID` and `LocalDateTime.now` are parameters. The retry loops of account-number and QR-code generation require that some draw is free; the models do not capture the chance of drawing a taken value forever.
- One clock reading per call. Where the code reads the clock more than once in one call, the model uses the same `now` for all of them. This applies to:
  - the scheduled execution: `ScheduledTransfer.execute` and `fail` read the clock again (ScheduledTransfer.java:70 and :76), after the poller's own reading (ScheduledTransferExecutor.java:25). `ScheduledTransferExecutor.ExecuteOne` and `ExecuteScheduledTransfers` record the poll's `now` as the attempt time;
  - the filtered history's default window: the two ends are read separately (transaction/service/TransactionService.java:107-112), and `FilterWindow` computes both from one `now`.

  The readings a real call makes differ by the time the call takes, and the model does not capture that difference.
- A year (for the one-year booking horizon and the one-year default history window) is 365 days; leap years are not modelled.
- Case folding in the history filter (`equalsIgnoreCase`, `toUpperCase`) covers ASCII letters only. Type names and the SENT/RECEIVED keywords are ASCII.
- PdfStatements.FormatCurrency: uses ',' as the grouping separator regardless of the JVM locale, and does not model the 64-bit overflow of `longValue` for amounts beyond its range.
- PdfStatements.BuildStatement: the transaction dates, the issue date and the HTML markup of the statement are left out. Only the figures are stated. A null year is not modelled.
- NotificationSettingService.GetMySetting: when a default row is created, the method states the new row count and the defaults returned, not the new row itself. `SettingFor` states the row. The creation inside a read-only transaction is kept as an in-memory effect.
- ScheduledTransferExecutor.ExecuteScheduledTransfers: states the statuses every due schedule ends in, and that the transaction log only grows. It does not restate the balances each execution moves; `ScheduledTransferService.ExecuteScheduledTransfer` states those for one call.
- The account-package `TransactionService` is covered by the functions of `TransactionQueries`. It repeats the transaction-package service line for line, without the filtered listing. `AccountTransactionQueries` states its rules over them.
- Entity setters of `Notification` and the `Notification` entity itself are left out. `Favorite`'s setters are modelled.

## Findings

| source | as written | input that shows it | evidently intended | confidence | as-written member | corrected member |
|---|---|---|---|---|---|---|
| src/main/java/com/study/moneygo/user/service/AuthService.java:40-47 | the sign-up builder sets `failedLoginAttempts(0)` but not the PIN counter. Lombok's builder ignores the field initialiser, so a new user's `failedSimplePasswordAttempts` is null. The first wrong PIN then fails on the null increment (User.java:60-61) before anything is counted, so the user is never locked by wrong PINs | a user who signs up, registers a PIN, then enters a wrong PIN five times | a new user starts with a PIN counter of 0 and is locked by the fifth wrong PIN | not executed | SimplePasswords.SignedUpUserNeverLocksAsWritten | SimplePasswords.NewUserLocksAtFifthWrongPin |
| src/main/java/com/study/moneygo/scheduled/transfer/service/ScheduledTransferService.java:176-181 | when either account is inactive at execution, the try block refunds the reserved amount and throws. The handler (lines 226-244) then refunds it a second time | a booking of 10,000 won to an account that is frozen before the booking's time comes: the sender ends 10,000 won richer than before booking | the reservation is handed back once, by the handler | not executed | ScheduledTransferService.InactiveReceiverRefundsTwice | ScheduledTransferService.ExecuteRefundingOnce |

The scheduled-execution methods (`ScheduledTransferService.ExecuteScheduledTransfer`, `ScheduledTransferExecutor.ExecuteScheduledTransfers`) model the code as written, double refund included. `ScheduledTransferService.ExecuteRefundingOnce` is the corrected rule. `ScheduledTransferService.RefundingOnceConservesReservation` proves that it pays each reservation out exactly once. Sign-up (`AuthService.Signup`) uses the corrected initial state.
