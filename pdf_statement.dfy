/**
 * pdf/service/PdfService.java: the figures of a transaction statement: the
 * period caption, each row's sign and type label, the deposit and
 * withdrawal totals, the transaction count, and how amounts are printed
 * (whole won, grouped by thousands).  The HTML layout, the dates printed
 * and the PDF conversion are not modelled.
 */
module PdfStatements {
  import opened Base
  import opened Ledger
  import opened TransactionQueries

  // ------------------------------------------------------------ numbers

  /** `BigDecimal.longValue()` of an amount: whole won, the cents truncated toward zero. */
  function WholeWon(cents: int): (w: int)
    ensures 0 <= cents ==> 0 <= Won(w) <= cents < Won(w + 1)
    ensures cents < 0 ==> Won(w - 1) < cents <= Won(w) <= 0
  {
    if cents >= 0 then cents / CentsPerWon else -((-cents) / CentsPerWon)
  }

  function DigitChar(d: nat): char
    requires d < 10
  {
    ['0', '1', '2', '3', '4', '5', '6', '7', '8', '9'][d]
  }

  /** The decimal digits of `n`, without leading zeros. */
  function Decimal(n: nat): (s: string)
    ensures |s| >= 1
    decreases n
  {
    if n < 10 then [DigitChar(n)] else Decimal(n / 10) + [DigitChar(n % 10)]
  }

  /** `%d` */
  function IntText(n: int): string
  {
    if n < 0 then "-" + Decimal(-n) else Decimal(n)
  }

  /** The three digits of a group after the first, zero-padded. */
  function Group(n: nat): (s: string)
    requires n < 1000
    ensures |s| == 3
  {
    [DigitChar(n / 100), DigitChar(n / 10 % 10), DigitChar(n % 10)]
  }

  /** `%,d` of a non-negative number: its digits with a comma before every group of three. */
  function Grouped(n: nat): (s: string)
    decreases n
  {
    if n < 1000 then Decimal(n) else Grouped(n / 1000) + "," + Group(n % 1000)
  }

  /** `formatCurrency`: `%,d원` of the amount's whole won. */
  function FormatCurrency(cents: int): string
  {
    var w := WholeWon(cents);
    (if w < 0 then "-" + Grouped(-w) else Grouped(w)) + "원"
  }

  /** Reads back a number printed with `%d` or `%,d`: its digits, the commas skipped. */
  function ValueOf(s: string): int
  {
    if s == [] then 0
    else
      var c := s[|s| - 1];
      if '0' <= c <= '9' then ValueOf(s[..|s| - 1]) * 10 + (c as int - '0' as int)
      else ValueOf(s[..|s| - 1])
  }

  lemma ValueOfDigit(s: string, d: nat)
    requires d < 10
    ensures ValueOf(s + [DigitChar(d)]) == ValueOf(s) * 10 + d
  {
    assert (s + [DigitChar(d)])[..|s|] == s;
  }

  lemma {:induction false} DecimalReadsBack(n: nat)
    ensures ValueOf(Decimal(n)) == n
    decreases n
  {
    if n < 10 {
      ValueOfDigit([], n);
      assert [] + [DigitChar(n)] == [DigitChar(n)];
    } else {
      DecimalReadsBack(n / 10);
      ValueOfDigit(Decimal(n / 10), n % 10);
    }
  }

  /** The three digits of a group, and a number shifted by three digits. */
  lemma GroupDigits(v: int, n: nat)
    requires n < 1000
    ensures ((v * 10 + n / 100) * 10 + n / 10 % 10) * 10 + n % 10 == v * 1000 + n
  {
    assert n == n / 100 * 100 + n / 10 % 10 * 10 + n % 10;
  }

  lemma GroupReadsBack(s: string, n: nat)
    requires n < 1000
    ensures ValueOf(s + "," + Group(n)) == ValueOf(s) * 1000 + n
  {
    var h, t, u := DigitChar(n / 100), DigitChar(n / 10 % 10), DigitChar(n % 10);
    var c := s + ",";
    assert c[..|s|] == s;
    assert ValueOf(c) == ValueOf(s);
    ValueOfDigit(c, n / 100);
    ValueOfDigit(c + [h], n / 10 % 10);
    ValueOfDigit(c + [h] + [t], n % 10);
    assert s + "," + Group(n) == c + [h] + [t] + [u];
    GroupDigits(ValueOf(s), n);
  }

  /** The thousands separators change nothing: a grouped number reads back as itself. */
  lemma {:induction false} GroupedReadsBack(n: nat)
    ensures ValueOf(Grouped(n)) == n
    decreases n
  {
    if n < 1000 {
      DecimalReadsBack(n);
    } else {
      GroupedReadsBack(n / 1000);
      GroupReadsBack(Grouped(n / 1000), n % 1000);
    }
  }

  /**
   * A printed amount is its whole won followed by "원": the won figure reads
   * back exactly, and whole-won amounts print without loss.
   */
  lemma FormatCurrencyShowsWholeWon(cents: int)
    ensures var w := WholeWon(cents);
            var s := FormatCurrency(cents);
            |s| >= 2 && s[|s| - 1] == '원'
            && (w >= 0 ==> ValueOf(s[..|s| - 1]) == w)
            && (w < 0 ==> s[0] == '-' && ValueOf(s[1..|s| - 1]) == -w)
    ensures WholeWon(Won(cents)) == cents
  {
    var w := WholeWon(cents);
    var s := FormatCurrency(cents);
    if w >= 0 {
      GroupedReadsBack(w);
      assert s[..|s| - 1] == Grouped(w);
    } else {
      GroupedReadsBack(-w);
      assert s[1..|s| - 1] == Grouped(-w);
    }
  }

  // ------------------------------------------------------------- labels

  /** `name()` of a transaction type. */
  function TypeName(t: TransactionType): string
  {
    match t
    case TRANSFER => "TRANSFER"
    case DEPOSIT => "DEPOSIT"
    case WITHDRAW => "WITHDRAW"
    case QR_PAYMENT => "QR_PAYMENT"
  }

  /** `getTransactionTypeKorean`: the Korean label of a type name; any other name is kept. */
  function KoreanTypeLabel(name: string): (text: string)
    ensures name == "TRANSFER" ==> text == "송금"
    ensures name == "DEPOSIT" ==> text == "입금"
    ensures name == "WITHDRAW" ==> text == "출금"
    ensures name == "QR_PAYMENT" ==> text == "QR결제"
    ensures name !in {"TRANSFER", "DEPOSIT", "WITHDRAW", "QR_PAYMENT"} ==> text == name
  {
    match name
    case "TRANSFER" => "송금"
    case "DEPOSIT" => "입금"
    case "WITHDRAW" => "출금"
    case "QR_PAYMENT" => "QR결제"
    case _ => name
  }

  /** Every type gets its own Korean label, so a label tells the type. */
  lemma KoreanLabelsDistinct(t: TransactionType, u: TransactionType)
    ensures KoreanTypeLabel(TypeName(t)) == KoreanTypeLabel(TypeName(u)) ==> t == u
  {
  }

  /** The period caption: "Y년 M월" for a month, "Y년" for a whole year. */
  function Period(year: int, month: Option<int>): string
  {
    if month.Some? then IntText(year) + "년 " + IntText(month.value) + "월" else IntText(year) + "년"
  }

  /** A year caption is the year's digits followed by "년". */
  lemma YearPeriodReadsBack(year: nat)
    ensures var s := Period(year, None);
            s[|s| - 1] == '년' && ValueOf(s[..|s| - 1]) == year
  {
    var s := Period(year, None);
    assert s == Decimal(year) + "년";
    assert s[..|s| - 1] == Decimal(year);
    DecimalReadsBack(year);
  }

  lemma CaptionParts(x: string, d: string)
    ensures var s := x + "년 " + d + "월";
            s[..|x| + 1] == x + "년" && s[|x| + 1] == ' ' && s[|s| - 1] == '월'
            && s[|x| + 2..|s| - 1] == d
  {
    var s := x + "년 " + d + "월";
    assert s == (x + "년") + " " + d + "월";
  }

  /** A month caption is the year caption, a space, the month's digits and "월". */
  lemma MonthPeriodReadsBack(year: nat, month: nat)
    ensures var s := Period(year, Some(month));
            var y := |Decimal(year)|;
            s[..y + 1] == Period(year, None) && s[y + 1] == ' ' && s[|s| - 1] == '월'
            && ValueOf(s[y + 2..|s| - 1]) == month
  {
    assert Period(year, Some(month)) == Decimal(year) + "년 " + Decimal(month) + "월";
    assert Period(year, None) == Decimal(year) + "년";
    CaptionParts(Decimal(year), Decimal(month));
    DecimalReadsBack(month);
  }

  // ---------------------------------------------------------- statement

  /** A row is a deposit exactly when its receiver is the statement's account. */
  predicate IsDeposit(e: Entry, accountNumber: string)
  {
    e.to.Some? && e.to.value.accountNumber == accountNumber
  }

  function DepositTotal(txs: seq<Entry>, accountNumber: string): int
  {
    if txs == [] then 0
    else DepositTotal(txs[..|txs| - 1], accountNumber)
         + (if IsDeposit(txs[|txs| - 1], accountNumber) then txs[|txs| - 1].amount else 0)
  }

  function WithdrawTotal(txs: seq<Entry>, accountNumber: string): int
  {
    if txs == [] then 0
    else WithdrawTotal(txs[..|txs| - 1], accountNumber)
         + (if IsDeposit(txs[|txs| - 1], accountNumber) then 0 else txs[|txs| - 1].amount)
  }

  function AmountTotal(txs: seq<Entry>): int
  {
    if txs == [] then 0 else AmountTotal(txs[..|txs| - 1]) + txs[|txs| - 1].amount
  }

  /** Every amount lands in exactly one of the two totals. */
  lemma {:induction false} TotalsSplitAmounts(txs: seq<Entry>, accountNumber: string)
    ensures DepositTotal(txs, accountNumber) + WithdrawTotal(txs, accountNumber) == AmountTotal(txs)
  {
    if txs != [] {
      TotalsSplitAmounts(txs[..|txs| - 1], accountNumber);
    }
  }

  /**
   * A statement of my own transactions: everything I received (my account is
   * the receiver) is a deposit, everything I sent to another account or
   * withdrew is a withdrawal.
   */
  lemma {:induction false} OwnStatementSplit(txs: seq<Entry>, accountNumber: string)
    requires forall e :: e in txs ==> e.to.Some? && e.to.value.accountNumber == accountNumber
    ensures DepositTotal(txs, accountNumber) == AmountTotal(txs) && WithdrawTotal(txs, accountNumber) == 0
  {
    if txs != [] {
      assert txs[|txs| - 1] in txs;
      OwnStatementSplit(txs[..|txs| - 1], accountNumber);
    }
  }

  /** How the totals grow by one more row. */
  lemma TotalsStep(txs: seq<Entry>, i: nat, accountNumber: string)
    requires i < |txs|
    ensures RowsOf(txs[..i + 1], accountNumber) == RowsOf(txs[..i], accountNumber) + [RowOf(txs[i], accountNumber)]
    ensures DepositTotal(txs[..i + 1], accountNumber)
            == DepositTotal(txs[..i], accountNumber) + if IsDeposit(txs[i], accountNumber) then txs[i].amount else 0
    ensures WithdrawTotal(txs[..i + 1], accountNumber)
            == WithdrawTotal(txs[..i], accountNumber) + if IsDeposit(txs[i], accountNumber) then 0 else txs[i].amount
  {
    assert txs[..i + 1][..i] == txs[..i];
  }

  /** A statement table row, less its date. */
  datatype Row = Row(typeLabel: string, description: string, deposit: bool, amount: string, status: TransactionStatus)

  function RowOf(e: Entry, accountNumber: string): (r: Row)
    ensures r.deposit <==> IsDeposit(e, accountNumber)
    ensures r.amount == (if r.deposit then "+" else "-") + FormatCurrency(e.amount)
  {
    var deposit := IsDeposit(e, accountNumber);
    Row(KoreanTypeLabel(TypeName(e.txType)), e.description, deposit,
        (if deposit then "+" else "-") + FormatCurrency(e.amount), e.status)
  }

  /** The table rows of a statement, in the order of its transactions. */
  function RowsOf(txs: seq<Entry>, accountNumber: string): (rows: seq<Row>)
    ensures |rows| == |txs| && forall k :: 0 <= k < |txs| ==> rows[k] == RowOf(txs[k], accountNumber)
  {
    if txs == [] then [] else RowsOf(txs[..|txs| - 1], accountNumber) + [RowOf(txs[|txs| - 1], accountNumber)]
  }

  /** The figures a statement prints. */
  datatype Statement = Statement(
    holder: string,
    accountNumber: string,
    period: string,
    rows: seq<Row>,
    totalDeposit: string,
    totalWithdraw: string,
    count: nat)

  /** The loop of `buildStatementHtml`: the rows and the two running totals. */
  method Tally(txs: seq<Entry>, accountNumber: string)
    returns (rows: seq<Row>, totalDeposit: int, totalWithdraw: int)
    ensures rows == RowsOf(txs, accountNumber)
    ensures totalDeposit == DepositTotal(txs, accountNumber)
    ensures totalWithdraw == WithdrawTotal(txs, accountNumber)
  {
    rows := [];
    totalDeposit := 0;
    totalWithdraw := 0;
    for i := 0 to |txs|
      invariant rows == RowsOf(txs[..i], accountNumber)
      invariant totalDeposit == DepositTotal(txs[..i], accountNumber)
      invariant totalWithdraw == WithdrawTotal(txs[..i], accountNumber)
    {
      var tx := txs[i];
      TotalsStep(txs, i, accountNumber);
      var isDeposit := tx.to.Some? && tx.to.value.accountNumber == accountNumber;
      if isDeposit {
        totalDeposit := totalDeposit + tx.amount;
      } else {
        totalWithdraw := totalWithdraw + tx.amount;
      }
      rows := rows + [RowOf(tx, accountNumber)];
    }
    assert txs[..|txs|] == txs;
  }

  /** `buildStatementHtml`, less its markup. */
  method BuildStatement(txs: seq<Entry>, accountNumber: string, holder: string, year: int, month: Option<int>)
    returns (s: Statement)
    ensures s.holder == holder && s.accountNumber == accountNumber && s.period == Period(year, month)
    ensures |s.rows| == |txs| && forall k :: 0 <= k < |txs| ==> s.rows[k] == RowOf(txs[k], accountNumber)
    ensures s.totalDeposit == FormatCurrency(DepositTotal(txs, accountNumber))
    ensures s.totalWithdraw == FormatCurrency(WithdrawTotal(txs, accountNumber))
    ensures s.count == |txs|
  {
    var period := if month.Some? then IntText(year) + "년 " + IntText(month.value) + "월" else IntText(year) + "년";
    var rows, totalDeposit, totalWithdraw := Tally(txs, accountNumber);
    s := Statement(holder, accountNumber, period, rows,
                   FormatCurrency(totalDeposit), FormatCurrency(totalWithdraw), |txs|);
  }
}
