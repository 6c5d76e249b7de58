/**
 * The `Account` entity (account/entity/Account.java) and the lookups the
 * services make in the accounts table.
 *
 * A balance is an integer number of cents.  The table is a sequence of
 * account objects; account ids, account numbers and owners are unique in it
 * (the primary key and the two `unique` columns).
 */
module Accounts {
  import opened Base
  import Users

  datatype AccountStatus = ACTIVE | FROZEN | CLOSED

  /** `deposit` on a balance: only a positive amount is accepted, and it is added. */
  function Credit(balance: int, amount: int): (r: Result<int>)
    ensures r.Ok? <==> amount > 0
    ensures r.Err? ==> r.error == NonPositiveDeposit
    ensures r.Ok? ==> r.value - balance == amount && r.value > balance
  {
    if amount <= 0 then Err(NonPositiveDeposit) else Ok(balance + amount)
  }

  /** `withdraw` on a balance: the amount must be positive and covered by the balance. */
  function Debit(balance: int, amount: int): (r: Result<int>)
    ensures r.Ok? <==> 0 < amount <= balance
    ensures amount <= 0 ==> r == Err(NonPositiveWithdraw)
    ensures 0 < amount && balance < amount ==> r == Err(InsufficientBalance)
    ensures r.Ok? ==> balance - r.value == amount && 0 <= r.value < balance
  {
    if amount <= 0 then Err(NonPositiveWithdraw)
    else if balance < amount then Err(InsufficientBalance)
    else Ok(balance - amount)
  }

  /** A withdrawal refunded by a deposit of the same amount leaves the balance as it was. */
  lemma DebitThenCreditRestores(balance: int, amount: int)
    requires Debit(balance, amount).Ok?
    ensures Credit(Debit(balance, amount).value, amount) == Ok(balance)
  {
  }

  /** On a non-negative balance a deposit can always be taken back out by a
      withdrawal of the same amount. */
  lemma CreditThenDebitRestores(balance: int, amount: int)
    requires balance >= 0 && Credit(balance, amount).Ok?
    ensures Debit(Credit(balance, amount).value, amount) == Ok(balance)
  {
  }

  /** The columns of an account row a service reads before it acts. */
  datatype AccountView = AccountView(id: AccountId, balance: int, status: AccountStatus)

  class Account {
    const id: AccountId
    const user: Users.User
    const accountNumber: string
    var balance: int
    var status: AccountStatus

    function View(): (v: AccountView)
      reads this
      ensures v.id == id && v.balance == balance && v.status == status
    {
      AccountView(id, balance, status)
    }

    /** A new account row; the source opens accounts with balance 0 and ACTIVE. */
    constructor (id: AccountId, user: Users.User, accountNumber: string, balance: int, status: AccountStatus)
      ensures this.id == id && this.user == user && this.accountNumber == accountNumber
      ensures this.balance == balance && this.status == status
    {
      this.id := id;
      this.user := user;
      this.accountNumber := accountNumber;
      this.balance := balance;
      this.status := status;
    }

    method Deposit(amount: int) returns (o: Outcome)
      modifies this`balance
      ensures o == Credit(old(balance), amount).ToOutcome()
      ensures balance == Credit(old(balance), amount).GetOr(old(balance))
    {
      if amount <= 0 {
        return Fail(NonPositiveDeposit);
      }
      balance := balance + amount;
      o := Pass;
    }

    method Withdraw(amount: int) returns (o: Outcome)
      modifies this`balance
      ensures o == Debit(old(balance), amount).ToOutcome()
      ensures balance == Debit(old(balance), amount).GetOr(old(balance))
      ensures o.Pass? <==> amount > 0 && old(HasEnoughBalance(amount))
    {
      if amount <= 0 {
        return Fail(NonPositiveWithdraw);
      }
      if balance < amount {
        return Fail(InsufficientBalance);
      }
      balance := balance - amount;
      o := Pass;
    }

    predicate HasEnoughBalance(amount: int)
      reads this
    {
      balance >= amount
    }

    method Freeze()
      modifies this`status
      ensures status == FROZEN && !IsActive()
    {
      status := FROZEN;
    }

    method Activate()
      modifies this`status
      ensures status == ACTIVE && IsActive()
    {
      status := ACTIVE;
    }

    predicate IsActive()
      reads this
    {
      status == ACTIVE
    }
  }

  /** The row a lookup found, as a value. */
  function ViewOf(a: Option<Account>): (v: Option<AccountView>)
    reads if a.Some? then {a.value} else {}
    ensures v.Some? <==> a.Some?
    ensures a.Some? ==> v.value == a.value.View()
  {
    if a.Some? then Some(a.value.View()) else None
  }

  // ------------------------------------------------------------ the table

  /** Primary key, `account_number` and `user_id` are each unique. */
  predicate UniqueAccounts(rows: seq<Account>)
  {
    forall i, j :: 0 <= i < j < |rows| ==>
      rows[i].id != rows[j].id
      && rows[i].accountNumber != rows[j].accountNumber
      && rows[i].user.id != rows[j].user.id
  }

  /** `findById` / `findByIdForUpdate` */
  function FindById(rows: seq<Account>, id: AccountId): (r: Option<Account>)
    ensures r.Some? ==> r.value in rows && r.value.id == id
    ensures r.None? ==> forall a :: a in rows ==> a.id != id
  {
    if |rows| == 0 then None
    else if rows[0].id == id then Some(rows[0])
    else FindById(rows[1..], id)
  }

  /** `findByAccountNumber` / `findByAccountNumberForUpdate` */
  function FindByNumber(rows: seq<Account>, accountNumber: string): (r: Option<Account>)
    ensures r.Some? ==> r.value in rows && r.value.accountNumber == accountNumber
    ensures r.None? ==> forall a :: a in rows ==> a.accountNumber != accountNumber
  {
    if |rows| == 0 then None
    else if rows[0].accountNumber == accountNumber then Some(rows[0])
    else FindByNumber(rows[1..], accountNumber)
  }

  /** `findByUserId` / `findByUserIdForUpdate` */
  function FindByUserId(rows: seq<Account>, userId: UserId): (r: Option<Account>)
    ensures r.Some? ==> r.value in rows && r.value.user.id == userId
    ensures r.None? ==> forall a :: a in rows ==> a.user.id != userId
  {
    if |rows| == 0 then None
    else if rows[0].user.id == userId then Some(rows[0])
    else FindByUserId(rows[1..], userId)
  }

  /** `existsByAccountNumber` */
  predicate NumberTaken(rows: seq<Account>, accountNumber: string)
  {
    exists a :: a in rows && a.accountNumber == accountNumber
  }

  /** With unique keys, every row is the one its own id, number and owner find. */
  lemma {:induction false} FindsTheRow(rows: seq<Account>, a: Account)
    requires UniqueAccounts(rows) && a in rows
    ensures FindById(rows, a.id) == Some(a)
    ensures FindByNumber(rows, a.accountNumber) == Some(a)
    ensures FindByUserId(rows, a.user.id) == Some(a)
  {
    if rows[0] != a {
      assert rows[0].id != a.id by {
        var k :| 0 <= k < |rows| && rows[k] == a;
      }
      assert UniqueAccounts(rows[1..]) by {
        forall i, j | 0 <= i < j < |rows[1..]|
          ensures rows[1..][i].id != rows[1..][j].id
          ensures rows[1..][i].accountNumber != rows[1..][j].accountNumber
          ensures rows[1..][i].user.id != rows[1..][j].user.id
        {
          assert rows[1..][i] == rows[i + 1] && rows[1..][j] == rows[j + 1];
        }
      }
      FindsTheRow(rows[1..], a);
    }
  }

  /** No account holds a negative balance. */
  predicate NonNegativeBalances(rows: seq<Account>)
    reads set a | a in rows
  {
    forall a :: a in rows ==> a.balance >= 0
  }

  /** A row whose id, number and owner are all new keeps the keys unique. */
  lemma AppendKeepsUnique(rows: seq<Account>, a: Account)
    requires UniqueAccounts(rows)
    requires forall b :: b in rows ==> b.id != a.id && b.accountNumber != a.accountNumber && b.user.id != a.user.id
    ensures UniqueAccounts(rows + [a])
  {
    var all := rows + [a];
    forall i, j | 0 <= i < j < |all|
      ensures all[i].id != all[j].id && all[i].accountNumber != all[j].accountNumber
              && all[i].user.id != all[j].user.id
    {
      assert all[i] == rows[i] && all[i] in rows;
    }
  }

  /** The `accounts` table. */
  class AccountTable {
    var rows: seq<Account>

    constructor (rows: seq<Account>)
      ensures this.rows == rows
    {
      this.rows := rows;
    }

    /** `save`: a new row is appended; saving a row again changes nothing here. */
    method Save(a: Account)
      modifies this
      ensures rows == if a in old(rows) then old(rows) else old(rows) + [a]
    {
      if a !in rows {
        rows := rows + [a];
      }
    }
  }
}
