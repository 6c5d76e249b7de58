/**
 * account/service/TransactionService.java repeats the history queries of
 * transaction/service/TransactionService.java line for line, without the
 * filtered listing, so the functions of `TransactionQueries` model both.
 * The lemmas here state that file's rules over those functions.
 */
module AccountTransactionQueries {
  import opened Base
  import opened TransactionQueries
  import Users
  import Accounts

  /**
   * A listing never falls back to "알 수 없음": every line it returns names
   * one of its transaction's own parties, or the system for a missing side.
   */
  lemma ListedLinesNameAParty(users: seq<Users.User>, accounts: seq<Accounts.Account>, rows: seq<Entry>,
                              email: string, txType: Option<string>, startDate: Option<Date>, endDate: Option<Date>)
    ensures var r := GetTransactions(users, accounts, rows, email, txType, startDate, endDate);
            r.Ok? ==>
              forall l :: l in r.value ==>
                l.counterpartyName == Some(SystemName)
                || (l.entry.from.Some? && l.counterpartyName == Some(l.entry.from.value.ownerName))
                || (l.entry.to.Some? && l.counterpartyName == Some(l.entry.to.value.ownerName))
  {
    var r := GetTransactions(users, accounts, rows, email, txType, startDate, endDate);
    if r.Ok? {
      var me := MyAccount(users, accounts, email).value;
      var q := Dispatch(txType, startDate, endDate);
      forall l | l in r.value
        ensures l.counterpartyName == Some(SystemName)
                || (l.entry.from.Some? && l.counterpartyName == Some(l.entry.from.value.ownerName))
                || (l.entry.to.Some? && l.counterpartyName == Some(l.entry.to.value.ownerName))
      {
        QueriesListMine(q, l.entry, me);
      }
    }
  }

  /** With transaction ids unique, the row `findById` returns is the one that carries the id. */
  lemma {:induction false} FindsUniqueEntry(rows: seq<Entry>, x: Entry)
    requires forall i, j :: 0 <= i < j < |rows| ==> rows[i].id != rows[j].id
    requires x in rows
    ensures FindEntry(rows, x.id) == Some(x)
  {
    if rows[0] != x {
      var k :| 0 <= k < |rows| && rows[k] == x;
      assert rows[0].id != rows[k].id;
      assert rows[1..][k - 1] == x;
      FindsUniqueEntry(rows[1..], x);
    }
  }

  /**
   * The detail and the full listing agree: a transaction's detail is shown
   * exactly when the full listing (no type, no dates) lists it, and it is the
   * same line, counterparty included.  Transaction ids are the table's key.
   */
  lemma DetailIsTheListedLine(users: seq<Users.User>, accounts: seq<Accounts.Account>, rows: seq<Entry>,
                              email: string, transactionId: nat)
    requires forall i, j :: 0 <= i < j < |rows| ==> rows[i].id != rows[j].id
    ensures var d := GetTransactionDetail(users, accounts, rows, email, transactionId);
            var all := GetTransactions(users, accounts, rows, email, None, None, None);
            (d.Ok? ==> all.Ok? && d.value in all.value)
            && (all.Ok? ==> forall l :: l in all.value && l.entry.id == transactionId ==> d == Ok(l))
  {
    var d := GetTransactionDetail(users, accounts, rows, email, transactionId);
    var all := GetTransactions(users, accounts, rows, email, None, None, None);
    var me := MyAccount(users, accounts, email);
    if me.Ok? {
      assert Dispatch(None, None, None) == Everything;
      if d.Ok? {
        var e := d.value.entry;
        assert Selects(Everything, e, me.value);
        var l :| l in all.value && l.entry == e;
        assert l == d.value;
      }
      forall l | l in all.value && l.entry.id == transactionId
        ensures d == Ok(l)
      {
        FindsUniqueEntry(rows, l.entry);
        QueriesListMine(Everything, l.entry, me.value);
      }
    }
  }

  /**
   * The dispatch tries the date range first, then SENT, then RECEIVED, then
   * lists everything: a type is ignored once both dates are given, and an
   * unrecognised type lists everything.
   */
  lemma DispatchOrder(txType: Option<string>, startDate: Date, endDate: Date)
    ensures Dispatch(txType, Some(startDate), Some(endDate)) == Dispatch(None, Some(startDate), Some(endDate))
    ensures !EqualsIgnoreCase(txType, "SENT") && !EqualsIgnoreCase(txType, "RECEIVED") ==>
              Dispatch(txType, Some(startDate), None) == Everything
              && Dispatch(txType, None, Some(endDate)) == Everything
  {
  }
}
