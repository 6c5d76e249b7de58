/**
 * transaction/service/TransactionService.java: the read-only transaction
 * history of the signed-in user's account: the listing with its query
 * dispatch, the filtered listing with its defaults, the detail view with its
 * ownership check, and the two rules that name the other party.
 *
 * A transaction is seen here as the query joins it: its parties' account ids,
 * numbers and owner names, and its creation instant.  The rows are in
 * creation order; the queries list newest first.  Paging is not modelled.
 */
module TransactionQueries {
  import opened Base
  import opened Ledger
  import Users
  import Accounts

  /** One side of a transaction: the account and its owner's name. */
  datatype Party = Party(accountId: AccountId, accountNumber: string, ownerName: string)

  /** A transaction row with its joined accounts. */
  datatype Entry = Entry(
    id: nat,
    from: Option<Party>,
    to: Option<Party>,
    amount: int,
    txType: TransactionType,
    status: TransactionStatus,
    description: string,
    createdAt: Instant)

  /** A listed transaction with the counterparty name the service computed for it. */
  datatype Line = Line(entry: Entry, counterpartyName: Option<string>)

  const SystemName: string := "시스템"
  const UnknownName: string := "알 수 없음"

  predicate Sent(e: Entry, me: AccountId)
  {
    e.from.Some? && e.from.value.accountId == me
  }

  predicate Received(e: Entry, me: AccountId)
  {
    e.to.Some? && e.to.value.accountId == me
  }

  /** The account is a party of the transaction. */
  predicate Touches(e: Entry, me: AccountId)
  {
    Sent(e, me) || Received(e, me)
  }

  /**
   * `getCounterpartyName`: for a transaction I sent, the receiver's name; for
   * one I only received, the sender's name; a missing party (a top-up or a
   * withdrawal) is the system; a transaction not mine is unknown.
   */
  function CounterpartyName(e: Entry, me: AccountId): (name: string)
    ensures Sent(e, me) && e.to.Some? ==> name == e.to.value.ownerName
    ensures !Sent(e, me) && Received(e, me) && e.from.Some? ==> name == e.from.value.ownerName
    ensures Touches(e, me) && (e.from.None? || e.to.None?) ==> name == SystemName
    ensures !Touches(e, me) ==> name == UnknownName
  {
    if Sent(e, me) then
      if e.to.Some? then e.to.value.ownerName else SystemName
    else if Received(e, me) then
      if e.from.Some? then e.from.value.ownerName else SystemName
    else UnknownName
  }

  /**
   * The rule the filtered listing uses instead: the sender when it is not me,
   * else the receiver when it is not me, else null.
   */
  function FilteredCounterpartyName(e: Entry, me: AccountId): (name: Option<string>)
    ensures name.Some? <==> (e.from.Some? && e.from.value.accountId != me) || (e.to.Some? && e.to.value.accountId != me)
    ensures e.from.Some? && e.from.value.accountId != me ==> name == Some(e.from.value.ownerName)
  {
    if e.from.Some? && e.from.value.accountId != me then Some(e.from.value.ownerName)
    else if e.to.Some? && e.to.value.accountId != me then Some(e.to.value.ownerName)
    else None
  }

  /**
   * The two rules agree on a transfer between my account and another one, and
   * differ on a top-up or withdrawal, where one says "시스템" and the other null.
   */
  lemma CounterpartyRules(e: Entry, me: AccountId)
    requires Touches(e, me)
    ensures e.from.Some? && e.to.Some? && e.from.value.accountId != e.to.value.accountId ==>
              FilteredCounterpartyName(e, me) == Some(CounterpartyName(e, me))
    ensures e.from.None? || e.to.None? ==>
              CounterpartyName(e, me) == SystemName && FilteredCounterpartyName(e, me) == None
  {
  }

  // ------------------------------------------------------------- lookups

  /** The signed-in user's account id: the user, then their account, must exist. */
  function MyAccount(users: seq<Users.User>, accounts: seq<Accounts.Account>, email: string): (r: Result<AccountId>)
    ensures Users.FindByEmail(users, email).None? ==> r == Err(UserNotFound)
    ensures Users.FindByEmail(users, email).Some? ==>
              var a := Accounts.FindByUserId(accounts, Users.FindByEmail(users, email).value.id);
              r == if a.Some? then Ok(a.value.id) else Err(AccountNotFound)
  {
    var user := Users.FindByEmail(users, email);
    if user.None? then Err(UserNotFound)
    else
      var account := Accounts.FindByUserId(accounts, user.value.id);
      if account.None? then Err(AccountNotFound) else Ok(account.value.id)
  }

  /** `findById` */
  function FindEntry(rows: seq<Entry>, id: nat): (r: Option<Entry>)
    ensures r.Some? ==> r.value in rows && r.value.id == id
    ensures r.None? ==> forall e :: e in rows ==> e.id != id
  {
    if rows == [] then None
    else if rows[0].id == id then Some(rows[0])
    else FindEntry(rows[1..], id)
  }

  /** The rows `keep` selects, newest first. */
  function Listing(rows: seq<Entry>, keep: Entry -> bool): (r: seq<Entry>)
    ensures forall e :: e in r <==> e in rows && keep(e)
    ensures |r| <= |rows|
  {
    if rows == [] then []
    else
      var last := rows[|rows| - 1];
      (if keep(last) then [last] else []) + Listing(rows[..|rows| - 1], keep)
  }

  predicate OldestFirst(rows: seq<Entry>)
  {
    forall i, j :: 0 <= i < j < |rows| ==> rows[i].createdAt <= rows[j].createdAt
  }

  predicate NewestFirst(rows: seq<Entry>)
  {
    forall i, j :: 0 <= i < j < |rows| ==> rows[i].createdAt >= rows[j].createdAt
  }

  /** Lines whose transactions run from the newest to the oldest. */
  predicate LinesNewestFirst(lines: seq<Line>)
  {
    forall i, j :: 0 <= i < j < |lines| ==> lines[i].entry.createdAt >= lines[j].entry.createdAt
  }

  /** A row no older than any listed one goes in front of a newest-first listing. */
  lemma PrependNewest(last: Entry, rest: seq<Entry>)
    requires NewestFirst(rest)
    requires forall k :: 0 <= k < |rest| ==> rest[k].createdAt <= last.createdAt
    ensures NewestFirst([last] + rest)
  {
    var r := [last] + rest;
    forall i, j | 0 <= i < j < |r|
      ensures r[i].createdAt >= r[j].createdAt
    {
      assert r[j] == rest[j - 1];
      if i > 0 {
        assert r[i] == rest[i - 1];
      }
    }
  }

  /** Rows kept in creation order are listed newest first. */
  lemma {:induction false} ListingIsNewestFirst(rows: seq<Entry>, keep: Entry -> bool)
    requires OldestFirst(rows)
    ensures NewestFirst(Listing(rows, keep))
  {
    if rows != [] {
      var init := rows[..|rows| - 1];
      var last := rows[|rows| - 1];
      assert OldestFirst(init);
      ListingIsNewestFirst(init, keep);
      var rest := Listing(init, keep);
      if keep(last) {
        forall k | 0 <= k < |rest|
          ensures rest[k].createdAt <= last.createdAt
        {
          assert rest[k] in rest;
          var m :| 0 <= m < |init| && init[m] == rest[k];
          assert rows[m] == init[m];
        }
        PrependNewest(last, rest);
        assert Listing(rows, keep) == [last] + rest;
      } else {
        assert Listing(rows, keep) == rest;
      }
    }
  }

  // ------------------------------------------------------------ listing

  /** `String.equalsIgnoreCase`, over ASCII letters. */
  function UpperAscii(c: char): char
  {
    if 'a' <= c <= 'z' then (c as int - 32) as char else c
  }

  function Upper(s: string): (u: string)
    ensures |u| == |s| && forall k :: 0 <= k < |s| ==> u[k] == UpperAscii(s[k])
  {
    seq(|s|, k requires 0 <= k < |s| => UpperAscii(s[k]))
  }

  predicate EqualsIgnoreCase(s: Option<string>, t: string)
  {
    s.Some? && Upper(s.value) == Upper(t)
  }

  /** The repository query `getTransactions` picks. */
  datatype Query = DateRange(start: Instant, end: Instant) | SentOnly | ReceivedOnly | Everything

  /**
   * The dispatch of `getTransactions`: both dates select the date range (the
   * type is then ignored); otherwise "SENT" or "RECEIVED" in any letter case;
   * otherwise everything.
   */
  function Dispatch(txType: Option<string>, startDate: Option<Date>, endDate: Option<Date>): (q: Query)
    ensures q.DateRange? <==> startDate.Some? && endDate.Some?
    ensures q.DateRange? ==> q.start == StartOfDay(startDate.value) && q.end == EndOfDay(endDate.value)
    ensures q == SentOnly <==> !q.DateRange? && EqualsIgnoreCase(txType, "SENT")
    ensures q == ReceivedOnly <==> !q.DateRange? && !EqualsIgnoreCase(txType, "SENT")
                                   && EqualsIgnoreCase(txType, "RECEIVED")
  {
    if startDate.Some? && endDate.Some? then DateRange(StartOfDay(startDate.value), EndOfDay(endDate.value))
    else if EqualsIgnoreCase(txType, "SENT") then SentOnly
    else if EqualsIgnoreCase(txType, "RECEIVED") then ReceivedOnly
    else Everything
  }

  /** Whether the query lists the row, for account `me`. */
  predicate Selects(q: Query, e: Entry, me: AccountId)
  {
    match q
    case DateRange(start, end) => Touches(e, me) && start <= e.createdAt <= end
    case SentOnly => Sent(e, me)
    case ReceivedOnly => Received(e, me)
    case Everything => Touches(e, me)
  }

  /**
   * Every query lists only my transactions, of any status; the sent and the
   * received listings together make up the full one, and a lower-case type
   * selects like an upper-case one.
   */
  lemma QueriesListMine(q: Query, e: Entry, me: AccountId)
    ensures Selects(q, e, me) ==> Touches(e, me)
    ensures Selects(Everything, e, me) <==> Selects(SentOnly, e, me) || Selects(ReceivedOnly, e, me)
    ensures Dispatch(Some("sent"), None, None) == SentOnly
    ensures Dispatch(Some("Received"), Some(0), None) == ReceivedOnly
  {
    assert Upper("sent") == "SENT";
    assert Upper("Received") == Upper("RECEIVED");
  }

  function Lines(entries: seq<Entry>, me: AccountId): (r: seq<Line>)
    ensures |r| == |entries|
    ensures forall k :: 0 <= k < |r| ==> r[k] == Line(entries[k], Some(CounterpartyName(entries[k], me)))
  {
    seq(|entries|, k requires 0 <= k < |entries| => Line(entries[k], Some(CounterpartyName(entries[k], me))))
  }

  /** The lines are the entries, one each, with the counterparty rule applied. */
  lemma LinesCover(entries: seq<Entry>, me: AccountId)
    ensures var r := Lines(entries, me);
            (forall l :: l in r ==> l.entry in entries && l.counterpartyName == Some(CounterpartyName(l.entry, me)))
            && (forall e :: e in entries ==> exists l :: l in r && l.entry == e)
  {
    var r := Lines(entries, me);
    forall l | l in r
      ensures l.entry in entries && l.counterpartyName == Some(CounterpartyName(l.entry, me))
    {
      var k :| 0 <= k < |r| && r[k] == l;
    }
    forall e | e in entries
      ensures exists l :: l in r && l.entry == e
    {
      var k :| 0 <= k < |entries| && entries[k] == e;
      assert r[k].entry == e;
    }
  }

  /**
   * `getTransactions`: the rows the dispatched query selects, newest first,
   * each with its counterparty name.
   */
  function GetTransactions(users: seq<Users.User>, accounts: seq<Accounts.Account>, rows: seq<Entry>,
                           email: string, txType: Option<string>, startDate: Option<Date>, endDate: Option<Date>)
    : (r: Result<seq<Line>>)
    ensures r.Err? <==> MyAccount(users, accounts, email).Err?
    ensures r.Err? ==> r.error == MyAccount(users, accounts, email).error
    ensures r.Ok? ==>
              var me := MyAccount(users, accounts, email).value;
              var q := Dispatch(txType, startDate, endDate);
              (forall l :: l in r.value ==> l.entry in rows && Selects(q, l.entry, me)
                                            && l.counterpartyName == Some(CounterpartyName(l.entry, me)))
              && (forall e :: e in rows && Selects(q, e, me) ==> exists l :: l in r.value && l.entry == e)
    ensures r.Ok? && OldestFirst(rows) ==> LinesNewestFirst(r.value)
  {
    var me := MyAccount(users, accounts, email);
    if me.Err? then Err(me.error)
    else
      var q := Dispatch(txType, startDate, endDate);
      var keep := e => Selects(q, e, me.value);
      var listed := Listing(rows, keep);
      var lines := Lines(listed, me.value);
      LinesCover(listed, me.value);
      if OldestFirst(rows) then
        ListingIsNewestFirst(rows, keep);
        Ok(lines)
      else Ok(lines)
  }

  // ---------------------------------------------------------------- detail

  /** `getTransactionDetail`: only a transaction my account is a party of. */
  function GetTransactionDetail(users: seq<Users.User>, accounts: seq<Accounts.Account>, rows: seq<Entry>,
                                email: string, transactionId: nat)
    : (r: Result<Line>)
    ensures r.Ok? <==> MyAccount(users, accounts, email).Ok? && FindEntry(rows, transactionId).Some?
                       && Touches(FindEntry(rows, transactionId).value, MyAccount(users, accounts, email).value)
    ensures MyAccount(users, accounts, email).Ok? && FindEntry(rows, transactionId).None? ==>
              r == Err(TransactionNotFound)
    ensures MyAccount(users, accounts, email).Ok? && FindEntry(rows, transactionId).Some? && r.Err? ==>
              r.error == NotMyTransaction
    ensures r.Ok? ==> r.value.entry in rows && r.value.entry.id == transactionId
                      && r.value.counterpartyName
                         == Some(CounterpartyName(r.value.entry, MyAccount(users, accounts, email).value))
  {
    var me := MyAccount(users, accounts, email);
    if me.Err? then Err(me.error)
    else
      var found := FindEntry(rows, transactionId);
      if found.None? then Err(TransactionNotFound)
      else if !Touches(found.value, me.value) then Err(NotMyTransaction)
      else Ok(Line(found.value, Some(CounterpartyName(found.value, me.value))))
  }

  // ------------------------------------------------------- filtered listing

  /**
   * The instants `getFilteredTransactions` searches between: from the start
   * of the start date, else a year before now; to 23:59:59 of the end date,
   * else now.
   */
  datatype Window = Window(start: Instant, end: Instant)

  function FilterWindow(startDate: Option<Date>, endDate: Option<Date>, now: Instant): (w: Window)
    ensures startDate.None? ==> w.start == now - Year
    ensures endDate.None? ==> w.end == now
    ensures startDate.Some? ==> w.start == StartOfDay(startDate.value)
    ensures endDate.Some? ==> StartOfDay(endDate.value) < w.end < EndOfDay(endDate.value)
  {
    Window(if startDate.Some? then StartOfDay(startDate.value) else now - Year,
           if endDate.Some? then LastSecondOfDay(endDate.value) else now)
  }

  /**
   * Unlike the plain listing's date range, which runs to the last instant of
   * the end date, the filtered listing stops at 23:59:59 sharp: a
   * transaction later in that second is listed by one and not the other.
   */
  lemma FilteredEndDateStopsAtLastSecond(e: Entry, me: AccountId, d: Date, now: Instant)
    requires Touches(e, me) && e.createdAt == LastSecondOfDay(d) + 1
    ensures Selects(Dispatch(None, Some(d), Some(d)), e, me)
    ensures e.createdAt > FilterWindow(Some(d), Some(d), now).end
  {
  }

  /** `valueOf` of a type name (already upper-cased); any other name throws. */
  function ParseType(name: string): (t: Option<TransactionType>)
    ensures t == Some(TRANSFER) <==> name == "TRANSFER"
    ensures t == Some(QR_PAYMENT) <==> name == "QR_PAYMENT"
  {
    if name == "TRANSFER" then Some(TRANSFER)
    else if name == "DEPOSIT" then Some(DEPOSIT)
    else if name == "WITHDRAW" then Some(WITHDRAW)
    else if name == "QR_PAYMENT" then Some(QR_PAYMENT)
    else None
  }

  /**
   * The type filter: a non-empty type whose upper-case form names a type; a
   * missing, empty or unknown type filters nothing (the handler falls back to
   * the unfiltered query).
   */
  function TypeFilter(txType: Option<string>): (t: Option<TransactionType>)
    ensures t.Some? ==> txType.Some? && |txType.value| > 0 && ParseType(Upper(txType.value)) == t
    ensures txType.Some? && |txType.value| > 0 && ParseType(Upper(txType.value)).Some? ==> t.Some?
  {
    if txType.Some? && |txType.value| > 0 then ParseType(Upper(txType.value)) else None
  }

  /** What the two filtered repository queries keep: COMPLETED, mine, in the window, of the type if any. */
  predicate FilterKeeps(e: Entry, me: AccountId, w: Window, t: Option<TransactionType>)
  {
    e.status == COMPLETED && Touches(e, me) && w.start <= e.createdAt <= w.end
    && (t.None? || e.txType == t.value)
  }

  /** An unknown type name lists exactly what no type lists. */
  lemma UnknownTypeFallsBack(name: string)
    requires ParseType(Upper(name)).None?
    ensures TypeFilter(Some(name)) == TypeFilter(None)
  {
  }

  function FilteredLines(entries: seq<Entry>, me: AccountId): (r: seq<Line>)
    ensures |r| == |entries|
    ensures forall k :: 0 <= k < |r| ==> r[k] == Line(entries[k], FilteredCounterpartyName(entries[k], me))
  {
    seq(|entries|, k requires 0 <= k < |entries| => Line(entries[k], FilteredCounterpartyName(entries[k], me)))
  }

  /** The lines are the entries, one each, with the filtered counterparty rule applied. */
  lemma FilteredLinesCover(entries: seq<Entry>, me: AccountId)
    ensures var r := FilteredLines(entries, me);
            (forall l :: l in r ==> l.entry in entries && l.counterpartyName == FilteredCounterpartyName(l.entry, me))
            && (forall e :: e in entries ==> exists l :: l in r && l.entry == e)
  {
    var r := FilteredLines(entries, me);
    forall l | l in r
      ensures l.entry in entries && l.counterpartyName == FilteredCounterpartyName(l.entry, me)
    {
      var k :| 0 <= k < |r| && r[k] == l;
    }
    forall e | e in entries
      ensures exists l :: l in r && l.entry == e
    {
      var k :| 0 <= k < |entries| && entries[k] == e;
      assert r[k].entry == e;
    }
  }

  /**
   * `getFilteredTransactions`: my COMPLETED transactions in the window, of
   * the requested type when it names one, newest first, with the filtered
   * counterparty rule.
   */
  function GetFilteredTransactions(users: seq<Users.User>, accounts: seq<Accounts.Account>, rows: seq<Entry>,
                                   email: string, startDate: Option<Date>, endDate: Option<Date>,
                                   txType: Option<string>, now: Instant)
    : (r: Result<seq<Line>>)
    ensures r.Err? <==> MyAccount(users, accounts, email).Err?
    ensures r.Err? ==> r.error == MyAccount(users, accounts, email).error
    ensures r.Ok? ==>
              var me := MyAccount(users, accounts, email).value;
              var w := FilterWindow(startDate, endDate, now);
              (forall l :: l in r.value ==> l.entry in rows && FilterKeeps(l.entry, me, w, TypeFilter(txType))
                                            && l.counterpartyName == FilteredCounterpartyName(l.entry, me))
              && (forall e :: e in rows && FilterKeeps(e, me, w, TypeFilter(txType)) ==>
                                exists l :: l in r.value && l.entry == e)
    ensures r.Ok? && OldestFirst(rows) ==> LinesNewestFirst(r.value)
  {
    var me := MyAccount(users, accounts, email);
    if me.Err? then Err(me.error)
    else
      var w := FilterWindow(startDate, endDate, now);
      var t := TypeFilter(txType);
      var keep := e => FilterKeeps(e, me.value, w, t);
      var listed := Listing(rows, keep);
      var lines := FilteredLines(listed, me.value);
      FilteredLinesCover(listed, me.value);
      if OldestFirst(rows) then
        ListingIsNewestFirst(rows, keep);
        Ok(lines)
      else Ok(lines)
  }
}
