/**
 * notification/service/NotificationSettingService.java: reading a user's
 * notification preferences (a missing row is created with the defaults) and
 * the partial update, where every absent (null) request field keeps the
 * current value.  The signed-in user is the parameter `email`.
 */
module NotificationSettingService {
  import opened Base
  import opened NotificationSettings
  import Users

  /** `NotificationSettingUpdateRequest`: `None` is a null field. */
  datatype SettingUpdate = SettingUpdate(
    emailEnabled: Option<bool>,
    transferReceivedEmail: Option<bool>,
    transferSentEmail: Option<bool>,
    scheduledTransferEmail: Option<bool>,
    qrPaymentEmail: Option<bool>,
    largeAmountAlertEnabled: Option<bool>,
    largeAmountThreshold: Option<int>)

  const NoChange: SettingUpdate := SettingUpdate(None, None, None, None, None, None, None)

  /** A request flag: the given value, or the current one when null. */
  function Flag(given: Option<bool>, current: bool): bool
  {
    if given.Some? then given.value else current
  }

  /** The request threshold: the given value, or the current one when null. */
  function Amount(given: Option<int>, current: int): int
  {
    if given.Some? then given.value else current
  }

  /**
   * The preferences after `updateMySetting` applies `u` to `p`: every given
   * field overwrites its preference.  The source updates the large-amount pair
   * together when either of its fields is given, with the current value
   * standing in for the absent one, which comes to the same thing.
   */
  function Updated(p: Preferences, u: SettingUpdate): (q: Preferences)
  {
    Preferences(Flag(u.emailEnabled, p.emailEnabled),
                Flag(u.transferReceivedEmail, p.transferReceivedEmail),
                Flag(u.transferSentEmail, p.transferSentEmail),
                Flag(u.scheduledTransferEmail, p.scheduledTransferEmail),
                Flag(u.qrPaymentEmail, p.qrPaymentEmail),
                Flag(u.largeAmountAlertEnabled, p.largeAmountAlertEnabled),
                Amount(u.largeAmountThreshold, p.largeAmountThreshold))
  }

  /** An all-null request changes nothing. */
  lemma NoChangeKeeps(p: Preferences)
    ensures Updated(p, NoChange) == p
  {
  }

  /** Applying the same request twice is applying it once. */
  lemma UpdateIsIdempotent(p: Preferences, u: SettingUpdate)
    ensures Updated(Updated(p, u), u) == Updated(p, u)
  {
  }

  /** A field the request gives ends up with the given value. */
  lemma GivenFieldsWin(p: Preferences, u: SettingUpdate)
    ensures u.emailEnabled.Some? ==> Updated(p, u).emailEnabled == u.emailEnabled.value
    ensures u.transferReceivedEmail.Some? ==> Updated(p, u).transferReceivedEmail == u.transferReceivedEmail.value
    ensures u.transferSentEmail.Some? ==> Updated(p, u).transferSentEmail == u.transferSentEmail.value
    ensures u.scheduledTransferEmail.Some? ==> Updated(p, u).scheduledTransferEmail == u.scheduledTransferEmail.value
    ensures u.qrPaymentEmail.Some? ==> Updated(p, u).qrPaymentEmail == u.qrPaymentEmail.value
    ensures u.largeAmountAlertEnabled.Some? ==>
              Updated(p, u).largeAmountAlertEnabled == u.largeAmountAlertEnabled.value
    ensures u.largeAmountThreshold.Some? ==> Updated(p, u).largeAmountThreshold == u.largeAmountThreshold.value
  {
  }

  /** A field the request leaves null keeps its current value. */
  lemma AbsentFieldsKept(p: Preferences, u: SettingUpdate)
    ensures u.emailEnabled.None? ==> Updated(p, u).emailEnabled == p.emailEnabled
    ensures u.transferReceivedEmail.None? ==> Updated(p, u).transferReceivedEmail == p.transferReceivedEmail
    ensures u.transferSentEmail.None? ==> Updated(p, u).transferSentEmail == p.transferSentEmail
    ensures u.scheduledTransferEmail.None? ==> Updated(p, u).scheduledTransferEmail == p.scheduledTransferEmail
    ensures u.qrPaymentEmail.None? ==> Updated(p, u).qrPaymentEmail == p.qrPaymentEmail
    ensures u.largeAmountAlertEnabled.None? ==>
              Updated(p, u).largeAmountAlertEnabled == p.largeAmountAlertEnabled
    ensures u.largeAmountThreshold.None? ==> Updated(p, u).largeAmountThreshold == p.largeAmountThreshold
  {
  }

  /**
   * The user's setting row, created with the defaults (`createDefaultSetting`)
   * when there is none; `newId` is the identity a new row gets.
   */
  method SettingFor(table: SettingTable, user: UserId, newId: nat) returns (s: NotificationSetting)
    modifies table
    ensures s.user == user
    ensures old(FindByUser(table.rows, user)).Some? ==>
              s == old(FindByUser(table.rows, user)).value && table.rows == old(table.rows)
    ensures old(FindByUser(table.rows, user)).None? ==>
              fresh(s) && s.View() == Defaults && table.rows == old(table.rows) + [s]
  {
    var found := FindByUser(table.rows, user);
    if found.Some? {
      return found.value;
    }
    s := new NotificationSetting(newId, user, Defaults);
    table.Save(s);
  }

  /** `getMySetting`: the signed-in user's preferences. */
  method GetMySetting(table: SettingTable, users: seq<Users.User>, email: string, newId: nat)
    returns (r: Result<Preferences>)
    modifies table
    ensures Users.FindByEmail(users, email).None? ==> r == Err(UserNotFound) && table.rows == old(table.rows)
    ensures Users.FindByEmail(users, email).Some? ==>
              var found := old(FindByUser(table.rows, Users.FindByEmail(users, email).value.id));
              r.Ok? && (found.Some? ==> r.value == found.value.View() && table.rows == old(table.rows))
                    && (found.None? ==> r.value == Defaults && |table.rows| == |old(table.rows)| + 1)
  {
    var user := Users.FindByEmail(users, email);
    if user.None? {
      return Err(UserNotFound);
    }
    var setting := SettingFor(table, user.value.id, newId);
    r := Ok(setting.View());
  }

  /** The setter calls of `updateMySetting` for the five e-mail switches, each made only when given. */
  method ApplySwitches(setting: NotificationSetting, request: SettingUpdate)
    modifies setting`emailEnabled, setting`transferReceivedEmail, setting`transferSentEmail,
             setting`scheduledTransferEmail, setting`qrPaymentEmail
    ensures setting.emailEnabled == Flag(request.emailEnabled, old(setting.emailEnabled))
    ensures setting.transferReceivedEmail == Flag(request.transferReceivedEmail, old(setting.transferReceivedEmail))
    ensures setting.transferSentEmail == Flag(request.transferSentEmail, old(setting.transferSentEmail))
    ensures setting.scheduledTransferEmail == Flag(request.scheduledTransferEmail, old(setting.scheduledTransferEmail))
    ensures setting.qrPaymentEmail == Flag(request.qrPaymentEmail, old(setting.qrPaymentEmail))
  {
    if request.emailEnabled.Some? {
      setting.UpdateEmailEnabled(request.emailEnabled.value);
    }
    if request.transferReceivedEmail.Some? {
      setting.UpdateTransferReceivedEmail(request.transferReceivedEmail.value);
    }
    if request.transferSentEmail.Some? {
      setting.UpdateTransferSentEmail(request.transferSentEmail.value);
    }
    if request.scheduledTransferEmail.Some? {
      setting.UpdateScheduledTransferEmail(request.scheduledTransferEmail.value);
    }
    if request.qrPaymentEmail.Some? {
      setting.UpdateQrPaymentEmail(request.qrPaymentEmail.value);
    }
  }

  /**
   * The large-amount pair is updated when either of its fields is given, the
   * current flag standing in for a null one.
   */
  method ApplyLargeAmount(setting: NotificationSetting, request: SettingUpdate)
    modifies setting`largeAmountAlertEnabled, setting`largeAmountThreshold
    ensures setting.largeAmountAlertEnabled == Flag(request.largeAmountAlertEnabled, old(setting.largeAmountAlertEnabled))
    ensures setting.largeAmountThreshold == Amount(request.largeAmountThreshold, old(setting.largeAmountThreshold))
  {
    if request.largeAmountAlertEnabled.Some? || request.largeAmountThreshold.Some? {
      setting.UpdateLargeAmountAlert(Flag(request.largeAmountAlertEnabled, setting.largeAmountAlertEnabled),
                                     request.largeAmountThreshold);
    }
  }

  /** All the setter calls of `updateMySetting`. */
  method Apply(setting: NotificationSetting, request: SettingUpdate)
    modifies setting
    ensures setting.View() == Updated(old(setting.View()), request)
  {
    ApplySwitches(setting, request);
    ApplyLargeAmount(setting, request);
  }

  /**
   * `updateMySetting`: each given field overwrites its preference, through the
   * entity's setters; the result is the row's preferences afterwards.
   */
  method UpdateMySetting(table: SettingTable, users: seq<Users.User>, email: string,
                         request: SettingUpdate, newId: nat)
    returns (r: Result<Preferences>)
    modifies table, table.rows
    ensures Users.FindByEmail(users, email).None? ==> r == Err(UserNotFound) && table.rows == old(table.rows)
    ensures forall s :: s in old(table.rows) && (r.Err? || s.user != Users.FindByEmail(users, email).value.id) ==>
              s.View() == old(s.View())
    ensures Users.FindByEmail(users, email).Some? ==>
              var id := Users.FindByEmail(users, email).value.id;
              var found := old(FindByUser(table.rows, id));
              r.Ok?
              && (found.Some? ==> table.rows == old(table.rows) && found.value.View() == r.value
                                  && r.value == Updated(old(found.value.View()), request))
              && (found.None? ==> |table.rows| == |old(table.rows)| + 1
                                  && table.rows[..|old(table.rows)|] == old(table.rows)
                                  && fresh(table.rows[|old(table.rows)|])
                                  && table.rows[|old(table.rows)|].user == id
                                  && table.rows[|old(table.rows)|].View() == r.value
                                  && r.value == Updated(Defaults, request))
  {
    var user := Users.FindByEmail(users, email);
    if user.None? {
      return Err(UserNotFound);
    }
    var setting := SettingFor(table, user.value.id, newId);
    Apply(setting, request);
    table.Save(setting);
    r := Ok(setting.View());
  }
}
