/**
 * The `QrPayment` entity (qrpayment/entity/QrPayment.java): a seller's
 * payment request behind a QR code, with its expiry instant and its life
 * cycle PENDING -> COMPLETED, EXPIRED or CANCELLED, and the table of them.
 */
module QrPayments {
  import opened Base
  import opened Accounts
  import Ledger

  datatype QrStatus = PENDING | COMPLETED | EXPIRED | CANCELLED

  /** A QR payment row as a value. */
  datatype QrRecord = QrRecord(
    id: nat,
    sellerAccount: AccountId,
    amount: int,
    qrCode: string,
    status: QrStatus,
    description: Option<string>,
    transaction: Option<Ledger.Transaction>,
    expiresAt: Instant)

  /** `isExpired`, at the clock reading `now`: strictly past the expiry instant. */
  predicate Expired(r: QrRecord, now: Instant)
  {
    now > r.expiresAt
  }

  class QrPayment {
    const id: nat
    const sellerAccount: Account
    const amount: int
    const qrCode: string
    const description: Option<string>
    const expiresAt: Instant
    var status: QrStatus
    var transaction: Option<Ledger.Transaction>

    function Record(): (r: QrRecord)
      reads this
      ensures r.id == id && r.sellerAccount == sellerAccount.id && r.amount == amount && r.qrCode == qrCode
      ensures r.status == status && r.transaction == transaction && r.expiresAt == expiresAt
    {
      QrRecord(id, sellerAccount.id, amount, qrCode, status, description, transaction, expiresAt)
    }

    /** The builder call of `generateQrCode`: PENDING, no transaction yet. */
    constructor (id: nat, sellerAccount: Account, amount: int, qrCode: string,
                 description: Option<string>, expiresAt: Instant)
      ensures this.sellerAccount == sellerAccount
      ensures Record() == QrRecord(id, sellerAccount.id, amount, qrCode, PENDING, description, None, expiresAt)
      ensures IsPending()
    {
      this.id := id;
      this.sellerAccount := sellerAccount;
      this.amount := amount;
      this.qrCode := qrCode;
      this.description := description;
      this.expiresAt := expiresAt;
      status := PENDING;
      transaction := None;
    }

    predicate IsExpired(now: Instant)
      reads this
    {
      Expired(Record(), now)
    }

    predicate IsPending()
      reads this
    {
      status == PENDING
    }

    /** `complete(transaction)`: no guard on the status. */
    method Complete(t: Ledger.Transaction)
      modifies this
      ensures Record() == old(Record()).(status := COMPLETED, transaction := Some(t))
      ensures !IsPending()
    {
      status := COMPLETED;
      transaction := Some(t);
    }

    /** `expire`: no guard on the status. */
    method Expire()
      modifies this`status
      ensures Record() == old(Record()).(status := EXPIRED)
      ensures !IsPending()
    {
      status := EXPIRED;
    }

    /** `cancel`: no guard on the status. */
    method Cancel()
      modifies this`status
      ensures Record() == old(Record()).(status := CANCELLED)
      ensures !IsPending()
    {
      status := CANCELLED;
    }
  }

  /** `findByQrCode` */
  function FindByCode(rows: seq<QrPayment>, qrCode: string): (r: Option<QrPayment>)
    ensures r.Some? ==> r.value in rows && r.value.qrCode == qrCode
    ensures r.None? ==> forall q :: q in rows ==> q.qrCode != qrCode
  {
    if rows == [] then None
    else if rows[0].qrCode == qrCode then Some(rows[0])
    else FindByCode(rows[1..], qrCode)
  }

  /** `existsByQrCode` */
  predicate CodeTaken(rows: seq<QrPayment>, qrCode: string)
  {
    exists q :: q in rows && q.qrCode == qrCode
  }

  /** The `qr_payments` table. */
  class QrTable {
    var rows: seq<QrPayment>

    constructor (rows: seq<QrPayment>)
      ensures this.rows == rows
    {
      this.rows := rows;
    }

    /** `save`: a new row is appended; saving a row again changes nothing here. */
    method Save(q: QrPayment)
      modifies this
      ensures rows == if q in old(rows) then old(rows) else old(rows) + [q]
    {
      if q !in rows {
        rows := rows + [q];
      }
    }
  }
}
