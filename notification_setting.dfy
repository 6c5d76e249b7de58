/**
 * The `NotificationSetting` entity (notification/entity/NotificationSetting.java):
 * a user's e-mail preferences, which notification types they want, and the
 * large-amount alert with its threshold.
 */
module NotificationSettings {
  import opened Base

  datatype NotificationType =
    | TRANSFER_RECEIVED
    | TRANSFER_SENT
    | SCHEDULED_TRANSFER_EXECUTED
    | SCHEDULED_TRANSFER_FAILED
    | QR_PAYMENT_RECEIVED
    | QR_PAYMENT_SENT
    | ACCOUNT_LOCKED
    | LARGE_AMOUNT_ALERT

  /** The preference columns of a setting row. */
  datatype Preferences = Preferences(
    emailEnabled: bool,
    transferReceivedEmail: bool,
    transferSentEmail: bool,
    scheduledTransferEmail: bool,
    qrPaymentEmail: bool,
    largeAmountAlertEnabled: bool,
    largeAmountThreshold: int)

  /** 500,000 won, the default large-amount threshold. */
  const DefaultThreshold: int := Won(500_000)

  /** The preferences `createDefaultSetting` builds: everything on except sent-transfer mail. */
  const Defaults: Preferences := Preferences(true, true, false, true, true, true, DefaultThreshold)

  /** The single switch that governs a notification type, besides the master switch. */
  datatype Switch = TransferReceived | TransferSent | ScheduledTransfer | QrPayment | LargeAmount

  /** Which switch the `shouldNotify` switch expression consults; ACCOUNT_LOCKED has none. */
  function SwitchOf(t: NotificationType): (s: Option<Switch>)
    ensures s.None? <==> t == ACCOUNT_LOCKED
  {
    match t
    case TRANSFER_RECEIVED => Some(TransferReceived)
    case TRANSFER_SENT => Some(TransferSent)
    case SCHEDULED_TRANSFER_EXECUTED | SCHEDULED_TRANSFER_FAILED => Some(ScheduledTransfer)
    case QR_PAYMENT_RECEIVED | QR_PAYMENT_SENT => Some(QrPayment)
    case LARGE_AMOUNT_ALERT => Some(LargeAmount)
    case ACCOUNT_LOCKED => None
  }

  function SwitchValue(p: Preferences, s: Switch): bool
  {
    match s
    case TransferReceived => p.transferReceivedEmail
    case TransferSent => p.transferSentEmail
    case ScheduledTransfer => p.scheduledTransferEmail
    case QrPayment => p.qrPaymentEmail
    case LargeAmount => p.largeAmountAlertEnabled
  }

  /** The `update*` setter of a switch (the large-amount one with a null threshold). */
  function Turned(p: Preferences, s: Switch, on: bool): (q: Preferences)
    ensures SwitchValue(q, s) == on
    ensures forall s' :: s' != s ==> SwitchValue(q, s') == SwitchValue(p, s')
    ensures q.emailEnabled == p.emailEnabled && q.largeAmountThreshold == p.largeAmountThreshold
  {
    match s
    case TransferReceived => p.(transferReceivedEmail := on)
    case TransferSent => p.(transferSentEmail := on)
    case ScheduledTransfer => p.(scheduledTransferEmail := on)
    case QrPayment => p.(qrPaymentEmail := on)
    case LargeAmount => p.(largeAmountAlertEnabled := on)
  }

  /** `shouldNotify(type)`. */
  predicate ShouldNotify(p: Preferences, t: NotificationType)
  {
    if !p.emailEnabled then false
    else match t
      case TRANSFER_RECEIVED => p.transferReceivedEmail
      case TRANSFER_SENT => p.transferSentEmail
      case SCHEDULED_TRANSFER_EXECUTED | SCHEDULED_TRANSFER_FAILED => p.scheduledTransferEmail
      case QR_PAYMENT_RECEIVED | QR_PAYMENT_SENT => p.qrPaymentEmail
      case LARGE_AMOUNT_ALERT => p.largeAmountAlertEnabled
      case _ => false
  }

  /**
   * A type is notified exactly when the master switch and the type's own
   * switch are on; with the master switch off nothing is notified, and
   * ACCOUNT_LOCKED never is.
   */
  lemma ShouldNotifyBySwitch(p: Preferences, t: NotificationType)
    ensures ShouldNotify(p, t) <==> p.emailEnabled && SwitchOf(t).Some? && SwitchValue(p, SwitchOf(t).value)
    ensures !p.emailEnabled ==> !ShouldNotify(p, t)
  {
  }

  /** Turning one switch changes the decision for that switch's types only. */
  lemma TurningOneSwitch(p: Preferences, s: Switch, on: bool, t: NotificationType)
    ensures SwitchOf(t) != Some(s) ==> ShouldNotify(Turned(p, s, on), t) == ShouldNotify(p, t)
    ensures SwitchOf(t) == Some(s) ==> ShouldNotify(Turned(p, s, on), t) == (p.emailEnabled && on)
  {
    ShouldNotifyBySwitch(p, t);
    ShouldNotifyBySwitch(Turned(p, s, on), t);
  }

  /** The two scheduled-transfer types, and the two QR types, are always decided alike. */
  lemma SharedSwitches(p: Preferences)
    ensures ShouldNotify(p, SCHEDULED_TRANSFER_EXECUTED) == ShouldNotify(p, SCHEDULED_TRANSFER_FAILED)
    ensures ShouldNotify(p, QR_PAYMENT_RECEIVED) == ShouldNotify(p, QR_PAYMENT_SENT)
  {
  }

  /** `isLargeAmount(amount)`. */
  predicate IsLargeAmount(p: Preferences, amount: int)
  {
    p.largeAmountAlertEnabled && amount >= p.largeAmountThreshold
  }

  /**
   * Larger amounts stay large; with the alert off nothing is large; under the
   * defaults an amount is large exactly from 500,000 won on.
   */
  lemma LargeAmountThreshold(p: Preferences, a: int, b: int)
    ensures IsLargeAmount(p, a) && a <= b ==> IsLargeAmount(p, b)
    ensures !p.largeAmountAlertEnabled ==> !IsLargeAmount(p, a)
    ensures IsLargeAmount(Defaults, a) <==> a >= Won(500_000)
  {
  }

  class NotificationSetting {
    const id: nat
    const user: UserId
    var emailEnabled: bool
    var transferReceivedEmail: bool
    var transferSentEmail: bool
    var scheduledTransferEmail: bool
    var qrPaymentEmail: bool
    var largeAmountAlertEnabled: bool
    var largeAmountThreshold: int

    function View(): (p: Preferences)
      reads this
      ensures p.emailEnabled == emailEnabled && p.largeAmountAlertEnabled == largeAmountAlertEnabled
      ensures p.largeAmountThreshold == largeAmountThreshold
    {
      Preferences(emailEnabled, transferReceivedEmail, transferSentEmail,
                  scheduledTransferEmail, qrPaymentEmail,
                  largeAmountAlertEnabled, largeAmountThreshold)
    }

    /** The builder call: a row for `user` with the given preferences. */
    constructor (id: nat, user: UserId, p: Preferences)
      ensures this.id == id && this.user == user && View() == p
    {
      this.id := id;
      this.user := user;
      emailEnabled := p.emailEnabled;
      transferReceivedEmail := p.transferReceivedEmail;
      transferSentEmail := p.transferSentEmail;
      scheduledTransferEmail := p.scheduledTransferEmail;
      qrPaymentEmail := p.qrPaymentEmail;
      largeAmountAlertEnabled := p.largeAmountAlertEnabled;
      largeAmountThreshold := p.largeAmountThreshold;
    }

    method UpdateEmailEnabled(enabled: bool)
      modifies this`emailEnabled
      ensures emailEnabled == enabled
      ensures !enabled ==> forall t :: !ShouldNotifyFor(t)
    {
      emailEnabled := enabled;
    }

    method UpdateTransferReceivedEmail(enabled: bool)
      modifies this`transferReceivedEmail
      ensures transferReceivedEmail == enabled
    {
      transferReceivedEmail := enabled;
    }

    method UpdateTransferSentEmail(enabled: bool)
      modifies this`transferSentEmail
      ensures transferSentEmail == enabled
    {
      transferSentEmail := enabled;
    }

    method UpdateScheduledTransferEmail(enabled: bool)
      modifies this`scheduledTransferEmail
      ensures scheduledTransferEmail == enabled
    {
      scheduledTransferEmail := enabled;
    }

    method UpdateQrPaymentEmail(enabled: bool)
      modifies this`qrPaymentEmail
      ensures qrPaymentEmail == enabled
    {
      qrPaymentEmail := enabled;
    }

    /** `updateLargeAmountAlert(enabled, threshold)`: a null threshold keeps the old one. */
    method UpdateLargeAmountAlert(enabled: bool, threshold: Option<int>)
      modifies this`largeAmountAlertEnabled, this`largeAmountThreshold
      ensures largeAmountAlertEnabled == enabled
      ensures largeAmountThreshold == if threshold.Some? then threshold.value else old(largeAmountThreshold)
      ensures !enabled ==> forall a :: !IsLargeAmountFor(a)
    {
      largeAmountAlertEnabled := enabled;
      if threshold.Some? {
        largeAmountThreshold := threshold.value;
      }
    }

    predicate ShouldNotifyFor(t: NotificationType)
      reads this
    {
      ShouldNotify(View(), t)
    }

    predicate IsLargeAmountFor(amount: int)
      reads this
    {
      IsLargeAmount(View(), amount)
    }
  }

  /** `findByUserId` */
  function FindByUser(rows: seq<NotificationSetting>, user: UserId): (r: Option<NotificationSetting>)
    ensures r.Some? ==> r.value in rows && r.value.user == user
    ensures r.None? ==> forall s :: s in rows ==> s.user != user
  {
    if rows == [] then None
    else if rows[0].user == user then Some(rows[0])
    else FindByUser(rows[1..], user)
  }

  /** The `notification_settings` table. */
  class SettingTable {
    var rows: seq<NotificationSetting>

    constructor (rows: seq<NotificationSetting>)
      ensures this.rows == rows
    {
      this.rows := rows;
    }

    /** `save`: a new row is appended; saving a row again changes nothing here. */
    method Save(s: NotificationSetting)
      modifies this
      ensures rows == if s in old(rows) then old(rows) else old(rows) + [s]
    {
      if s !in rows {
        rows := rows + [s];
      }
    }
  }
}
