/**
 * The administrator's top-up and withdrawal (admin/service/AdminService.java).
 * Neither looks at the account's status.  A top-up wraps every error,
 * including a missing account, and writes no transaction when it fails; a
 * withdrawal checks the balance before it builds its transaction, and marks
 * that transaction FAILED if the withdrawal itself throws.
 */
module AdminService {
  import opened Base
  import opened Accounts
  import opened Ledger

  /** The description used when the request carries none. */
  const DefaultDepositDescription: string := "관리자 충전"
  const DefaultWithdrawDescription: string := "관리자 인출"

  function DescriptionOr(description: Option<string>, default: string): string
  {
    if description.Some? then description.value else default
  }

  /** `result` is the balance afterwards; `saved` the transaction row written, if any. */
  datatype AdminEffect = AdminEffect(result: Result<int>, saved: Option<TxRecord>)

  /** `deposit` on the account found (if any). */
  function Deposit(found: Option<AccountView>, amount: int, description: Option<string>): (e: AdminEffect)
    ensures e.result.Ok? <==> found.Some? && amount > 0
    ensures e.result.Ok? ==> e.result.value == found.value.balance + amount
    ensures found.None? ==> e == AdminEffect(Err(DepositFailed(AccountIdNotFound)), None)
    ensures found.Some? && amount <= 0 ==> e == AdminEffect(Err(DepositFailed(NonPositiveDeposit)), None)
    ensures e.saved.Some? <==> e.result.Ok?
    ensures e.saved.Some? ==> e.saved.value == TxRecord(None, Some(found.value.id), amount, DEPOSIT, COMPLETED,
                                                        DescriptionOr(description, DefaultDepositDescription), None, None)
  {
    if found.None? then AdminEffect(Err(DepositFailed(AccountIdNotFound)), None)
    else
      var credited := Credit(found.value.balance, amount);
      if credited.Err? then AdminEffect(Err(DepositFailed(credited.error)), None)
      else AdminEffect(Ok(credited.value),
                       Some(TxRecord(None, Some(found.value.id), amount, DEPOSIT, COMPLETED,
                                     DescriptionOr(description, DefaultDepositDescription), None, None)))
  }

  /** `withdraw` on the account found (if any). */
  function Withdraw(found: Option<AccountView>, amount: int, description: Option<string>): (e: AdminEffect)
    ensures e.result.Ok? <==> found.Some? && 0 < amount <= found.value.balance
    ensures e.result.Ok? ==> e.result.value == found.value.balance - amount >= 0
    ensures found.None? ==> e == AdminEffect(Err(AccountIdNotFound), None)
    ensures found.Some? && found.value.balance < amount ==> e == AdminEffect(Err(InsufficientBalance), None)
    ensures found.Some? && amount <= 0 <= found.value.balance ==>
      e.result == Err(WithdrawFailed(NonPositiveWithdraw))
    ensures e.saved.Some? <==> found.Some? && found.value.balance >= amount
    ensures e.saved.Some? ==>
      e.saved.value == TxRecord(Some(found.value.id), None, amount, WITHDRAW,
                                if e.result.Ok? then COMPLETED else FAILED,
                                DescriptionOr(description, DefaultWithdrawDescription), None,
                                if e.result.Ok? then None else Some(NonPositiveWithdraw))
  {
    if found.None? then AdminEffect(Err(AccountIdNotFound), None)
    else if found.value.balance < amount then AdminEffect(Err(InsufficientBalance), None)
    else
      var record := TxRecord(Some(found.value.id), None, amount, WITHDRAW, PENDING,
                             DescriptionOr(description, DefaultWithdrawDescription), None, None);
      var debited := Debit(found.value.balance, amount);
      if debited.Err? then
        AdminEffect(Err(WithdrawFailed(debited.error)), Some(record.(status := FAILED, errorMessage := Some(debited.error))))
      else AdminEffect(Ok(debited.value), Some(record.(status := COMPLETED)))
  }

  /** A top-up taken back out by a withdrawal of the same amount leaves the
      balance where it was. */
  lemma DepositThenWithdrawRestores(a: AccountView, amount: int, d1: Option<string>, d2: Option<string>)
    requires a.balance >= 0 && Deposit(Some(a), amount, d1).result.Ok?
    ensures Withdraw(Some(a.(balance := Deposit(Some(a), amount, d1).result.value)), amount, d2).result
         == Ok(a.balance)
  {
  }

  /** What the response reports. */
  datatype AdminReceipt = AdminReceipt(accountNumber: string, balanceBefore: int, balanceAfter: int, amount: int)

  /**
   * The part of `deposit` after the account is found: the PENDING row, the
   * credit, and the row saved COMPLETED; a failed credit saves nothing.
   */
  method CreditAndRecord(account: Account, log: TransactionLog, amount: int, description: Option<string>)
    returns (r: Result<int>)
    modifies account`balance, log
    ensures
      var e := Deposit(Some(old(account.View())), amount, description);
      r == e.result
      && account.balance == (if r.Ok? then r.value else old(account.balance))
      && (e.saved.None? ==> log.entries == old(log.entries))
      && (e.saved.Some? ==>
            |log.entries| == |old(log.entries)| + 1
            && log.entries[..|old(log.entries)|] == old(log.entries)
            && fresh(log.entries[|old(log.entries)|])
            && log.entries[|old(log.entries)|].Record() == e.saved.value)
  {
    var tx := new Transaction(None, Some(account.id), amount, DEPOSIT, PENDING,
                              DescriptionOr(description, DefaultDepositDescription), None);
    var o := account.Deposit(amount);
    if o.Fail? {
      return Err(DepositFailed(o.error));
    }
    tx.Complete();
    log.Save(tx);
    r := Ok(account.balance);
  }

  method AdminDeposit(accounts: seq<Account>, log: TransactionLog, accountId: AccountId,
                      amount: int, description: Option<string>)
    returns (r: Result<AdminReceipt>)
    modifies accounts, log
    ensures
      var found := FindById(accounts, accountId);
      var e := Deposit(old(ViewOf(found)), amount, description);
      (r.Ok? <==> e.result.Ok?)
      && (r.Err? ==> r.error == e.result.error)
      && (r.Ok? ==> r.value == AdminReceipt(found.value.accountNumber, old(found.value.balance),
                                             e.result.value, amount))
      && (forall a :: a in accounts ==>
            a.status == old(a.status)
            && a.balance == (if Some(a) == found && e.result.Ok? then e.result.value else old(a.balance)))
      && (e.saved.None? ==> log.entries == old(log.entries))
      && (e.saved.Some? ==>
            |log.entries| == |old(log.entries)| + 1
            && log.entries[..|old(log.entries)|] == old(log.entries)
            && fresh(log.entries[|old(log.entries)|])
            && log.entries[|old(log.entries)|].Record() == e.saved.value)
  {
    // the whole body sits in one try block
    var found := FindById(accounts, accountId);
    if found.None? {
      return Err(DepositFailed(AccountIdNotFound));
    }
    var account := found.value;
    var balanceBefore := account.balance;
    var balance := CreditAndRecord(account, log, amount, description);
    if balance.Err? {
      return Err(balance.error);
    }
    r := Ok(AdminReceipt(account.accountNumber, balanceBefore, balance.value, amount));
  }

  /**
   * The part of `withdraw` after the balance check: the PENDING row, the debit,
   * and the row saved COMPLETED, or FAILED with the debit's error.
   */
  method DebitAndRecord(account: Account, log: TransactionLog, amount: int, description: Option<string>)
    returns (r: Result<int>)
    requires account.balance >= amount
    modifies account`balance, log
    ensures
      var e := Withdraw(Some(old(account.View())), amount, description);
      r == e.result
      && account.balance == (if r.Ok? then r.value else old(account.balance))
      && e.saved.Some?
      && |log.entries| == |old(log.entries)| + 1
      && log.entries[..|old(log.entries)|] == old(log.entries)
      && fresh(log.entries[|old(log.entries)|])
      && log.entries[|old(log.entries)|].Record() == e.saved.value
  {
    var tx := new Transaction(Some(account.id), None, amount, WITHDRAW, PENDING,
                              DescriptionOr(description, DefaultWithdrawDescription), None);
    var o := account.Withdraw(amount);
    if o.Fail? {
      tx.Fail(o.error);
      log.Save(tx);
      return Err(WithdrawFailed(o.error));
    }
    tx.Complete();
    log.Save(tx);
    r := Ok(account.balance);
  }

  method AdminWithdraw(accounts: seq<Account>, log: TransactionLog, accountId: AccountId,
                       amount: int, description: Option<string>)
    returns (r: Result<AdminReceipt>)
    modifies accounts, log
    ensures
      var found := FindById(accounts, accountId);
      var e := Withdraw(old(ViewOf(found)), amount, description);
      (r.Ok? <==> e.result.Ok?)
      && (r.Err? ==> r.error == e.result.error)
      && (r.Ok? ==> r.value == AdminReceipt(found.value.accountNumber, old(found.value.balance),
                                             e.result.value, amount))
      && (forall a :: a in accounts ==>
            a.status == old(a.status)
            && a.balance == (if Some(a) == found && e.result.Ok? then e.result.value else old(a.balance)))
      && (e.saved.None? ==> log.entries == old(log.entries))
      && (e.saved.Some? ==>
            |log.entries| == |old(log.entries)| + 1
            && log.entries[..|old(log.entries)|] == old(log.entries)
            && fresh(log.entries[|old(log.entries)|])
            && log.entries[|old(log.entries)|].Record() == e.saved.value)
  {
    var found := FindById(accounts, accountId);
    if found.None? {
      return Err(AccountIdNotFound);
    }
    var account := found.value;
    var balanceBefore := account.balance;
    if !account.HasEnoughBalance(amount) {
      return Err(InsufficientBalance);
    }
    var balance := DebitAndRecord(account, log, amount, description);
    if balance.Err? {
      return Err(balance.error);
    }
    r := Ok(AdminReceipt(account.accountNumber, balanceBefore, balance.value, amount));
  }
}
