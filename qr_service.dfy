/**
 * qrpayment/service/QrPaymentService.java: a seller generates a QR payment
 * request valid for ten minutes; a buyer pays it with their PIN.  Paying
 * moves the amount from the buyer's account to the seller's, records a
 * QR_PAYMENT transaction and completes the QR.  No transfer limit applies,
 * and a failing notification does not undo the payment.
 */
module QrPaymentService {
  import opened Base
  import opened Accounts
  import opened Ledger
  import opened QrPayments
  import opened SimplePasswords
  import Users

  /** `QR_EXPIRATION_MINUTES` */
  const QrExpirationMinutes: int := 10
  const QrExpiration: int := QrExpirationMinutes * Minute

  // ---------------------------------------------------------- generation

  /** `"QR_" + yyyyMMdd + "_" + the first 8 characters of a UUID`. */
  function QrCode(date: string, suffix: string): (c: string)
    ensures |c| == 4 + |date| + |suffix|
    ensures c[..3] == "QR_" && c[3..3 + |date|] == date && c[3 + |date|] == '_' && c[4 + |date|..] == suffix
  {
    "QR_" + date + "_" + suffix
  }

  /** Two codes of one day are equal only when their suffixes are. */
  lemma QrCodeInjective(date: string, s1: string, s2: string)
    requires QrCode(date, s1) == QrCode(date, s2)
    ensures s1 == s2
  {
    assert s1 == QrCode(date, s1)[4 + |date|..];
  }

  /**
   * One pass of the retry loop: the day the clock reads at that pass, as
   * yyyyMMdd, and the random suffix drawn.
   */
  datatype CodeDraw = CodeDraw(date: string, suffix: string)

  function CodeOf(d: CodeDraw): string
  {
    QrCode(d.date, d.suffix)
  }

  /**
   * `generateUniqueQrCode`: draws codes until one is not in use.  Each pass
   * reads the clock again, so each draw carries its own day; the requirement
   * says the draws do eventually hit an unused code.
   */
  method GenerateUniqueQrCode(rows: seq<QrPayment>, draws: seq<CodeDraw>)
    returns (code: string, drawn: nat)
    requires exists k :: 0 <= k < |draws| && !CodeTaken(rows, CodeOf(draws[k]))
    ensures drawn < |draws| && code == CodeOf(draws[drawn])
    ensures !CodeTaken(rows, code)
    ensures forall k :: 0 <= k < drawn ==> CodeTaken(rows, CodeOf(draws[k]))
  {
    ghost var free :| 0 <= free < |draws| && !CodeTaken(rows, CodeOf(draws[free]));
    drawn := 0;
    code := CodeOf(draws[0]);
    while CodeTaken(rows, code)
      invariant drawn <= free && code == CodeOf(draws[drawn])
      invariant forall k :: 0 <= k < drawn ==> CodeTaken(rows, CodeOf(draws[k]))
      decreases free - drawn
    {
      drawn := drawn + 1;
      code := CodeOf(draws[drawn]);
    }
  }

  datatype QrGenerateRequest = QrGenerateRequest(amount: int, description: Option<string>)

  /**
   * `generateQrCode` for the seller `seller`.  `now` is the clock reading,
   * `draws` the successive code draws and `newId` the
   * identity the table gives the new row.
   */
  method GenerateQrCode(table: QrTable, accounts: seq<Account>, seller: UserId, request: QrGenerateRequest,
                        now: Instant, draws: seq<CodeDraw>, newId: nat)
    returns (r: Result<QrPayment>)
    requires exists k :: 0 <= k < |draws| && !CodeTaken(table.rows, CodeOf(draws[k]))
    modifies table
    ensures
      var found := FindByUserId(accounts, seller);
      (r.Ok? <==> found.Some?)
      && (r.Err? ==> r.error == AccountNotFound && table.rows == old(table.rows))
      && (r.Ok? ==>
            fresh(r.value)
            && r.value.sellerAccount == found.value
            && r.value.Record() == QrRecord(newId, found.value.id, request.amount, r.value.qrCode, QrStatus.PENDING,
                                            request.description, None, now + QrExpiration)
            && (exists k :: 0 <= k < |draws| && r.value.qrCode == CodeOf(draws[k]))
            && !CodeTaken(old(table.rows), r.value.qrCode)
            && table.rows == old(table.rows) + [r.value])
  {
    var found := FindByUserId(accounts, seller);
    if found.None? {
      return Err(AccountNotFound);
    }
    var code, drawn := GenerateUniqueQrCode(table.rows, draws);
    var qr := new QrPayment(newId, found.value, request.amount, code, request.description, now + QrExpiration);
    table.Save(qr);
    r := Ok(qr);
  }

  /** A QR generated at `now` can be paid up to and including `now` plus ten minutes. */
  lemma ValidForTenMinutes(r: QrRecord, now: Instant, t: Instant)
    requires r.expiresAt == now + QrExpiration
    ensures Expired(r, t) <==> t > now + 10 * 60 * NanosPerSecond
  {
  }

  // ------------------------------------------------------------- payment

  datatype QrPayRequest = QrPayRequest(qrCode: string, simplePassword: string)

  /**
   * What `payWithQrCode` works on: the QR found by code, the clock reading,
   * the buyer's account (by user id), the seller's account (by id), the
   * outcome of the buyer's PIN check and the fresh UUID.
   */
  datatype QrPayInput = QrPayInput(
    qr: Option<QrRecord>,
    now: Instant,
    buyer: Option<AccountView>,
    seller: Option<AccountView>,
    credential: Outcome,
    idempotencyKey: string)

  /** The transaction's description. */
  function QrDescription(description: Option<string>): string
  {
    if description.Some? then "QR결제 : " + description.value else "QR결제"
  }

  /** The QR checks pass: it is found, PENDING and not expired. */
  predicate QrLive(i: QrPayInput)
  {
    i.qr.Some? && i.qr.value.status == QrStatus.PENDING && !Expired(i.qr.value, i.now)
  }

  /** The PIN is checked (and counted) once the QR is live and both distinct accounts are found. */
  predicate ReachesPin(i: QrPayInput)
  {
    QrLive(i) && i.buyer.Some? && i.seller.Some? && i.buyer.value.id != i.seller.value.id
  }

  /** Every check before the money moves passes except, possibly, the amount's sign. */
  predicate ReachesDebit(i: QrPayInput)
  {
    ReachesPin(i) && i.credential.Pass? && i.buyer.value.status == ACTIVE && i.seller.value.status == ACTIVE
    && i.qr.value.amount <= i.buyer.value.balance
  }

  /**
   * `result` is the buyer's balance afterwards; `moved` what went from the
   * buyer to the seller; `status` the QR's new status (none: unchanged);
   * `saved` the transaction row written.
   */
  datatype QrPayEffect = QrPayEffect(result: Result<int>, moved: int, status: Option<QrStatus>,
                                     saved: Option<TxRecord>)

  function Pay(i: QrPayInput): (e: QrPayEffect)
    ensures e.result.Ok? <==>
              ReachesPin(i) && i.credential.Pass? && i.buyer.value.status == ACTIVE
              && i.seller.value.status == ACTIVE && 0 < i.qr.value.amount <= i.buyer.value.balance
    ensures e.result.Ok? ==>
              e.result.value == i.buyer.value.balance - i.qr.value.amount >= 0
              && e.moved == i.qr.value.amount
              && e.status == Some(QrStatus.COMPLETED)
              && e.saved == Some(TxRecord(Some(i.buyer.value.id), Some(i.seller.value.id), i.qr.value.amount,
                                          QR_PAYMENT, TransactionStatus.COMPLETED,
                                          QrDescription(i.qr.value.description), Some(i.idempotencyKey), None))
    ensures e.result.Err? ==> e.moved == 0
    // the checks in order, before any account is touched
    ensures i.qr.None? ==> e == QrPayEffect(Err(QrNotFound), 0, None, None)
    ensures i.qr.Some? && i.qr.value.status != QrStatus.PENDING ==> e == QrPayEffect(Err(QrNotPending), 0, None, None)
    ensures i.qr.Some? && i.qr.value.status == QrStatus.PENDING && Expired(i.qr.value, i.now) ==>
              e == QrPayEffect(Err(QrExpired), 0, Some(EXPIRED), None)
    ensures QrLive(i) && i.buyer.None? ==> e == QrPayEffect(Err(AccountNotFound), 0, None, None)
    ensures QrLive(i) && i.buyer.Some? && i.seller.None? ==>
              e == QrPayEffect(Err(SellerAccountNotFound), 0, None, None)
    ensures QrLive(i) && i.buyer.Some? && i.seller.Some? && i.buyer.value.id == i.seller.value.id ==>
              e == QrPayEffect(Err(SelfQrPayment), 0, None, None)
    ensures ReachesPin(i) && i.credential.Fail? ==> e == QrPayEffect(Err(i.credential.error), 0, None, None)
    ensures ReachesPin(i) && i.credential.Pass?
            && (i.buyer.value.status != ACTIVE || i.seller.value.status != ACTIVE) ==>
              e == QrPayEffect(Err(AccountsNotActive), 0, None, None)
    ensures ReachesPin(i) && i.credential.Pass? && i.buyer.value.status == ACTIVE && i.seller.value.status == ACTIVE
            && i.buyer.value.balance < i.qr.value.amount ==>
              e == QrPayEffect(Err(InsufficientBalance), 0, None, None)
    // the withdrawal itself refuses a non-positive amount, after the row is built
    ensures ReachesDebit(i) && i.qr.value.amount <= 0 ==>
              e == QrPayEffect(Err(NonPositiveWithdraw), 0, None,
                               Some(TxRecord(Some(i.buyer.value.id), Some(i.seller.value.id), i.qr.value.amount,
                                             QR_PAYMENT, TransactionStatus.FAILED,
                                             QrDescription(i.qr.value.description), Some(i.idempotencyKey),
                                             Some(NonPositiveWithdraw))))
    // only a success or the withdrawal itself failing writes a transaction; a failed one is marked FAILED
    ensures e.saved.Some? && e.result.Err? ==>
              e.result.error == NonPositiveWithdraw
              && e.saved.value.status == TransactionStatus.FAILED
              && e.saved.value.errorMessage == Some(NonPositiveWithdraw)
    // the QR changes only when it is paid or found expired
    ensures e.status.Some? ==> e.status == Some(QrStatus.COMPLETED) || e.status == Some(EXPIRED)
    ensures e.status == Some(QrStatus.COMPLETED) <==> e.result.Ok?
    ensures e.status == Some(EXPIRED) <==>
              i.qr.Some? && i.qr.value.status == QrStatus.PENDING && Expired(i.qr.value, i.now)
  {
    if i.qr.None? then QrPayEffect(Err(QrNotFound), 0, None, None)
    else if i.qr.value.status != QrStatus.PENDING then QrPayEffect(Err(QrNotPending), 0, None, None)
    else if Expired(i.qr.value, i.now) then QrPayEffect(Err(QrExpired), 0, Some(EXPIRED), None)
    else if i.buyer.None? then QrPayEffect(Err(AccountNotFound), 0, None, None)
    else if i.seller.None? then QrPayEffect(Err(SellerAccountNotFound), 0, None, None)
    else if i.buyer.value.id == i.seller.value.id then QrPayEffect(Err(SelfQrPayment), 0, None, None)
    else if i.credential.Fail? then QrPayEffect(Err(i.credential.error), 0, None, None)
    else if i.buyer.value.status != ACTIVE || i.seller.value.status != ACTIVE then
      QrPayEffect(Err(AccountsNotActive), 0, None, None)
    else if i.buyer.value.balance < i.qr.value.amount then QrPayEffect(Err(InsufficientBalance), 0, None, None)
    else
      var record := TxRecord(Some(i.buyer.value.id), Some(i.seller.value.id), i.qr.value.amount, QR_PAYMENT,
                             TransactionStatus.PENDING, QrDescription(i.qr.value.description),
                             Some(i.idempotencyKey), None);
      var debited := Debit(i.buyer.value.balance, i.qr.value.amount);
      if debited.Err? then
        QrPayEffect(Err(debited.error), 0, None,
                    Some(record.(status := TransactionStatus.FAILED, errorMessage := Some(debited.error))))
      else QrPayEffect(Ok(debited.value), i.qr.value.amount, Some(QrStatus.COMPLETED),
                       Some(record.(status := TransactionStatus.COMPLETED)))
  }

  /** The record of the QR after a payment attempt. */
  function QrAfter(r: QrRecord, e: QrPayEffect, t: Option<Transaction>): QrRecord
  {
    if e.status == Some(QrStatus.COMPLETED) then r.(status := QrStatus.COMPLETED, transaction := t)
    else if e.status == Some(EXPIRED) then r.(status := EXPIRED)
    else r
  }

  /** A paid QR is never paid again: the second attempt is refused and moves nothing. */
  lemma PaidQrIsNotPaidAgain(i: QrPayInput, t: Option<Transaction>, j: QrPayInput)
    requires Pay(i).result.Ok?
    requires j.qr == Some(QrAfter(i.qr.value, Pay(i), t))
    ensures Pay(j) == QrPayEffect(Err(QrNotPending), 0, None, None)
  {
  }

  /** An expired QR is never paid either, whatever the clock says afterwards. */
  lemma ExpiredQrIsNotPaid(i: QrPayInput, j: QrPayInput)
    requires Pay(i).status == Some(EXPIRED)
    requires j.qr == Some(QrAfter(i.qr.value, Pay(i), None))
    ensures Pay(j).result == Err(QrNotPending) && Pay(j).moved == 0
  {
  }

  /** What the response reports. */
  datatype QrReceipt = QrReceipt(qrPaymentId: nat, amount: int, description: Option<string>,
                                 sellerAccount: string, sellerName: string,
                                 status: TransactionStatus, balanceAfter: int)

  /**
   * The money-moving block of `payWithQrCode` once every check has passed:
   * withdraw, deposit, complete the transaction and the QR; on a failure the
   * transaction is saved FAILED and the error rethrown.
   */
  method Charge(qr: QrPayment, buyer: Account, seller: Account, log: TransactionLog, key: string)
    returns (r: Result<int>)
    requires buyer != seller
    modifies qr, buyer`balance, seller`balance, log
    ensures
      var d := Debit(old(buyer.balance), qr.amount);
      var record := TxRecord(Some(buyer.id), Some(seller.id), qr.amount, QR_PAYMENT,
                             if d.Ok? then TransactionStatus.COMPLETED else TransactionStatus.FAILED,
                             QrDescription(qr.description), Some(key), if d.Ok? then None else Some(d.error));
      r == d
      && buyer.balance == d.GetOr(old(buyer.balance))
      && seller.balance == old(seller.balance) + (if d.Ok? then qr.amount else 0)
      && |log.entries| == |old(log.entries)| + 1
      && log.entries[..|old(log.entries)|] == old(log.entries)
      && fresh(log.entries[|old(log.entries)|])
      && log.entries[|old(log.entries)|].Record() == record
      && qr.Record() == if d.Ok? then old(qr.Record()).(status := QrStatus.COMPLETED,
                                                        transaction := Some(log.entries[|old(log.entries)|]))
                        else old(qr.Record())
  {
    var tx := new Transaction(Some(buyer.id), Some(seller.id), qr.amount, QR_PAYMENT, TransactionStatus.PENDING,
                              QrDescription(qr.description), Some(key));
    var withdrawn := buyer.Withdraw(qr.amount);
    if withdrawn.Fail? {
      tx.Fail(withdrawn.error);
      log.Save(tx);
      return Err(withdrawn.error);
    }
    // the withdrawal succeeded, so the amount is positive and the deposit cannot throw
    var deposited := seller.Deposit(qr.amount);
    assert deposited.Pass?;
    tx.Complete();
    qr.Complete(tx);
    log.Save(tx);
    r := Ok(buyer.balance);
  }

  /**
   * `payWithQrCode` from the account lookups on, for a QR that is PENDING and
   * not expired.
   */
  method PayLiveQr(qr: QrPayment, accounts: seq<Account>, log: TransactionLog, buyer: Users.User,
                   pins: SimplePasswordService, request: QrPayRequest, now: Instant, idempotencyKey: string)
    returns (r: Result<QrReceipt>)
    requires qr.status == QrStatus.PENDING && !qr.IsExpired(now)
    modifies qr, accounts, log, buyer
    ensures
      var from := FindByUserId(accounts, buyer.id);
      var to := FindById(accounts, qr.sellerAccount.id);
      var check := Verify(old(buyer.State()), request.simplePassword, pins.matches);
      var i := QrPayInput(Some(old(qr.Record())), now, old(ViewOf(from)), old(ViewOf(to)), check.outcome,
                          idempotencyKey);
      var e := Pay(i);
      (r.Ok? <==> e.result.Ok?)
      && (r.Err? ==> r.error == e.result.error)
      && (r.Ok? ==> r.value == QrReceipt(qr.id, qr.amount, qr.description, to.value.accountNumber,
                                          to.value.user.name, TransactionStatus.COMPLETED, e.result.value))
      && buyer.State() == (if ReachesPin(i) then check.after else old(buyer.State()))
      && (forall a :: a in accounts ==>
            a.status == old(a.status)
            && a.balance == old(a.balance) - (if Some(a) == from then e.moved else 0)
                                           + (if Some(a) == to then e.moved else 0))
      && (e.saved.None? ==> log.entries == old(log.entries) && qr.Record() == old(qr.Record()))
      && (e.saved.Some? ==>
            |log.entries| == |old(log.entries)| + 1
            && log.entries[..|old(log.entries)|] == old(log.entries)
            && fresh(log.entries[|old(log.entries)|])
            && log.entries[|old(log.entries)|].Record() == e.saved.value
            && qr.Record() == QrAfter(old(qr.Record()), e, Some(log.entries[|old(log.entries)|])))
  {
    ghost var input := QrPayInput(Some(qr.Record()), now, ViewOf(FindByUserId(accounts, buyer.id)),
                                  ViewOf(FindById(accounts, qr.sellerAccount.id)),
                                  Verify(buyer.State(), request.simplePassword, pins.matches).outcome,
                                  idempotencyKey);
    var found := FindByUserId(accounts, buyer.id);
    if found.None? {
      return Err(AccountNotFound);
    }
    var from := found.value;
    found := FindById(accounts, qr.sellerAccount.id);
    if found.None? {
      return Err(SellerAccountNotFound);
    }
    var to := found.value;
    if from.id == to.id {
      return Err(SelfQrPayment);
    }
    var verified := pins.VerifySimplePasswordForUser(buyer, request.simplePassword);
    if verified.Fail? {
      return Err(verified.error);
    }
    if !from.IsActive() || !to.IsActive() {
      return Err(AccountsNotActive);
    }
    if !from.HasEnoughBalance(qr.amount) {
      return Err(InsufficientBalance);
    }
    assert input == QrPayInput(Some(qr.Record()), now, Some(from.View()), Some(to.View()), Pass, idempotencyKey);
    var balance := Charge(qr, from, to, log, idempotencyKey);
    if balance.Err? {
      return Err(balance.error);
    }
    r := Ok(QrReceipt(qr.id, qr.amount, qr.description, to.accountNumber, to.user.name,
                      TransactionStatus.COMPLETED, balance.value));
  }

  /** `payWithQrCode` once the QR has been found. */
  method PayFoundQr(qr: QrPayment, accounts: seq<Account>, log: TransactionLog, buyer: Users.User,
                    pins: SimplePasswordService, request: QrPayRequest, now: Instant, idempotencyKey: string)
    returns (r: Result<QrReceipt>)
    modifies qr, accounts, log, buyer
    ensures
      var from := FindByUserId(accounts, buyer.id);
      var to := FindById(accounts, qr.sellerAccount.id);
      var check := Verify(old(buyer.State()), request.simplePassword, pins.matches);
      var i := QrPayInput(Some(old(qr.Record())), now, old(ViewOf(from)), old(ViewOf(to)), check.outcome,
                          idempotencyKey);
      var e := Pay(i);
      (r.Ok? <==> e.result.Ok?)
      && (r.Err? ==> r.error == e.result.error)
      && (r.Ok? ==> r.value == QrReceipt(qr.id, qr.amount, qr.description, to.value.accountNumber,
                                          to.value.user.name, TransactionStatus.COMPLETED, e.result.value))
      && buyer.State() == (if ReachesPin(i) then check.after else old(buyer.State()))
      && (forall a :: a in accounts ==>
            a.status == old(a.status)
            && a.balance == old(a.balance) - (if Some(a) == from then e.moved else 0)
                                           + (if Some(a) == to then e.moved else 0))
      && (e.saved.None? ==> log.entries == old(log.entries) && qr.Record() == QrAfter(old(qr.Record()), e, None))
      && (e.saved.Some? ==>
            |log.entries| == |old(log.entries)| + 1
            && log.entries[..|old(log.entries)|] == old(log.entries)
            && fresh(log.entries[|old(log.entries)|])
            && log.entries[|old(log.entries)|].Record() == e.saved.value
            && qr.Record() == QrAfter(old(qr.Record()), e, Some(log.entries[|old(log.entries)|])))
  {
    ghost var e := Pay(QrPayInput(Some(qr.Record()), now, ViewOf(FindByUserId(accounts, buyer.id)),
                                  ViewOf(FindById(accounts, qr.sellerAccount.id)),
                                  Verify(buyer.State(), request.simplePassword, pins.matches).outcome,
                                  idempotencyKey));
    if !qr.IsPending() {
      assert e == QrPayEffect(Err(QrNotPending), 0, None, None);
      return Err(QrNotPending);
    }
    if qr.IsExpired(now) {
      assert e == QrPayEffect(Err(QrExpired), 0, Some(EXPIRED), None);
      qr.Expire();
      return Err(QrExpired);
    }
    r := PayLiveQr(qr, accounts, log, buyer, pins, request, now, idempotencyKey);
  }

  /**
   * `payWithQrCode` by the buyer `buyer`.  `pins` is the simple-password
   * service, `now` the clock reading and `idempotencyKey` the fresh UUID.
   */
  method PayWithQrCode(qrs: seq<QrPayment>, accounts: seq<Account>, log: TransactionLog, buyer: Users.User,
                       pins: SimplePasswordService, request: QrPayRequest, now: Instant, idempotencyKey: string)
    returns (r: Result<QrReceipt>)
    modifies qrs, accounts, log, buyer
    ensures
      var qr := FindByCode(qrs, request.qrCode);
      var from := FindByUserId(accounts, buyer.id);
      var to := if qr.Some? then FindById(accounts, qr.value.sellerAccount.id) else None;
      var check := Verify(old(buyer.State()), request.simplePassword, pins.matches);
      var i := QrPayInput(if qr.Some? then Some(old(qr.value.Record())) else None, now,
                          old(ViewOf(from)), old(ViewOf(to)), check.outcome, idempotencyKey);
      var e := Pay(i);
      (r.Ok? <==> e.result.Ok?)
      && (r.Err? ==> r.error == e.result.error)
      && (r.Ok? ==> r.value == QrReceipt(qr.value.id, qr.value.amount, qr.value.description,
                                          to.value.accountNumber, to.value.user.name,
                                          TransactionStatus.COMPLETED, e.result.value))
      // the PIN check runs, and counts, only when it is reached
      && buyer.State() == (if ReachesPin(i) then check.after else old(buyer.State()))
      && (forall a :: a in accounts ==>
            a.status == old(a.status)
            && a.balance == old(a.balance) - (if Some(a) == from then e.moved else 0)
                                           + (if Some(a) == to then e.moved else 0))
      && (forall q :: q in qrs && Some(q) != qr ==> q.Record() == old(q.Record()))
      && (qr.Some? && e.saved.None? ==> qr.value.Record() == QrAfter(old(qr.value.Record()), e, None))
      && (e.saved.None? ==> log.entries == old(log.entries))
      && (e.saved.Some? ==>
            |log.entries| == |old(log.entries)| + 1
            && log.entries[..|old(log.entries)|] == old(log.entries)
            && fresh(log.entries[|old(log.entries)|])
            && log.entries[|old(log.entries)|].Record() == e.saved.value
            && qr.value.Record() == QrAfter(old(qr.value.Record()), e, Some(log.entries[|old(log.entries)|])))
  {
    var foundQr := FindByCode(qrs, request.qrCode);
    if foundQr.None? {
      return Err(QrNotFound);
    }
    r := PayFoundQr(foundQr.value, accounts, log, buyer, pins, request, now, idempotencyKey);
  }
}
