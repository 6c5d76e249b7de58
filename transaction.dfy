/**
 * The `Transaction` entity (account/entity/Transaction.java): one money
 * movement with its parties, amount, kind and life-cycle status, and the
 * transactions table the services append to.
 */
module Ledger {
  import opened Base

  datatype TransactionType = TRANSFER | DEPOSIT | WITHDRAW | QR_PAYMENT
  datatype TransactionStatus = PENDING | COMPLETED | FAILED | CANCELLED

  /** A transaction row as a value.  A missing sender is a top-up, a missing
      receiver a withdrawal. */
  datatype TxRecord = TxRecord(
    fromAccount: Option<AccountId>,
    toAccount: Option<AccountId>,
    amount: int,
    txType: TransactionType,
    status: TransactionStatus,
    description: string,
    idempotencyKey: Option<string>,
    errorMessage: Option<Error>)

  class Transaction {
    const fromAccount: Option<AccountId>
    const toAccount: Option<AccountId>
    const amount: int
    const txType: TransactionType
    const description: string
    const idempotencyKey: Option<string>
    var status: TransactionStatus
    var errorMessage: Option<Error>

    function Record(): TxRecord
      reads this
    {
      TxRecord(fromAccount, toAccount, amount, txType, status, description, idempotencyKey, errorMessage)
    }

    /** The builder call of a service: the given columns, no error message. */
    constructor (fromAccount: Option<AccountId>, toAccount: Option<AccountId>, amount: int,
                 txType: TransactionType, status: TransactionStatus, description: string,
                 idempotencyKey: Option<string>)
      ensures Record() == TxRecord(fromAccount, toAccount, amount, txType, status, description, idempotencyKey, None)
    {
      this.fromAccount := fromAccount;
      this.toAccount := toAccount;
      this.amount := amount;
      this.txType := txType;
      this.description := description;
      this.idempotencyKey := idempotencyKey;
      this.status := status;
      errorMessage := None;
    }

    method Complete()
      modifies this`status
      ensures Record() == old(Record()).(status := COMPLETED)
      ensures IsCompleted()
    {
      status := COMPLETED;
    }

    /** `fail(message)`: FAILED, keeping the message of the error that caused it. */
    method Fail(message: Error)
      modifies this`status, this`errorMessage
      ensures Record() == old(Record()).(status := FAILED, errorMessage := Some(message))
      ensures !IsCompleted()
    {
      status := FAILED;
      errorMessage := Some(message);
    }

    method Cancel()
      modifies this`status
      ensures Record() == old(Record()).(status := CANCELLED)
      ensures !IsCompleted()
    {
      status := CANCELLED;
    }

    predicate IsCompleted()
      reads this
    {
      status == COMPLETED
    }
  }

  /** The `transactions` table. */
  class TransactionLog {
    var entries: seq<Transaction>

    constructor (entries: seq<Transaction>)
      ensures this.entries == entries
    {
      this.entries := entries;
    }

    /** `save`: a new row is appended; saving a row again changes nothing here. */
    method Save(t: Transaction)
      modifies this
      ensures entries == if t in old(entries) then old(entries) else old(entries) + [t]
    {
      if t !in entries {
        entries := entries + [t];
      }
    }
  }
}
