/**
 * CSV export of bills and transactions: a header line, then one line per record
 * whose fields are joined with commas, every line ending in "\n". Fields are not
 * quoted, so a field holding a comma or a line break spoils the table; the lemmas
 * below show that the export reads back field for field exactly when no field
 * holds either.
 *
 * Dates are written by `ISO8601DateFormatter` with its default options,
 * `yyyy-MM-ddTHH:mm:ssZ`. Amounts are written by Swift's `String(Double)`, whose
 * shortest round-trip digit generation is not modelled: the rendering is a
 * parameter `amountText`.
 */
module Export {
  import opened Wrappers
  import opened Text
  import opened Calendar
  import opened Bills
  import opened Transactions

  // ---------------------------------------------------------------------------
  // Fixed-width decimal fields and ISO 8601 dates
  // ---------------------------------------------------------------------------

  function DigitChar(n: nat): char
    requires n < 10
  {
    ('0' as int + n) as char
  }

  /** The last `width` decimal digits of `n`, zero-padded on the left. */
  function Padded(n: nat, width: nat): (r: string)
    ensures |r| == width && AllDigits(r)
    ensures DigitsValue(r) == n % Pow10(width)
  {
    if width == 0 then ""
    else
      var r := Padded(n / 10, width - 1) + [DigitChar(n % 10)];
      assert r[..|r| - 1] == Padded(n / 10, width - 1);
      PaddedStep(n, Pow10(width - 1));
      r
  }

  /** Dropping the last digit and taking the remainder commute with appending it again. */
  lemma PaddedStep(n: nat, p: nat)
    requires p >= 1
    ensures (n / 10 % p) * 10 + n % 10 == n % (10 * p)
  {
    var q, d := n / 10, n % 10;
    var a, b := q / p, q % p;
    assert n == 10 * q + d;
    assert q == p * a + b;
    assert n == (10 * p) * a + (10 * b + d);
    assert 0 <= 10 * b + d < 10 * p;
    ModUnique(n, 10 * p, a, 10 * b + d);
  }

  lemma ModUnique(n: int, m: int, a: int, k: int)
    requires m > 0 && 0 <= k < m && n == a * m + k
    ensures n % m == k
  {
    var q := n / m;
    assert n == q * m + n % m;
    assert (a - q) * m == n % m - k;
    if a > q {
      MulAtLeast(a - q, m);
    } else if a < q {
      MulAtLeast(q - a, m);
    }
  }

  lemma {:induction false} MulAtLeast(x: int, m: int)
    requires x >= 1 && m > 0
    ensures x * m >= m
  {
    if x > 1 {
      MulAtLeast(x - 1, m);
      assert x * m == (x - 1) * m + m;
    }
  }

  /** The last two decimal digits of `n`. */
  function TwoDigits(n: nat): (r: string)
    ensures |r| == 2
  {
    [DigitChar(n / 10 % 10), DigitChar(n % 10)]
  }

  /** A number below 100 reads back from its two digits. */
  lemma TwoDigitsValue(n: nat)
    requires n < 100
    ensures AllDigits(TwoDigits(n)) && DigitsValue(TwoDigits(n)) == n
  {
    var r := TwoDigits(n);
    assert r[..1] == [DigitChar(n / 10 % 10)];
    PaddedStep(n, 10);
  }

  /** Number of decimal digits of `n`, at least one. */
  function Width(n: nat): (w: nat)
    ensures w >= 1 && n < Pow10(w)
  {
    if n < 10 then 1 else Width(n / 10) + 1
  }

  /** The year field: four digits, more for years past 9999, a leading minus before year 0. */
  function YearText(y: int): string {
    var m := if y >= 0 then y else -y;
    var w := if Width(m) < 4 then 4 else Width(m);
    (if y >= 0 then "" else "-") + Padded(m, w)
  }

  /** `ISO8601DateFormatter().string(from:)`, writing the date's fields in the model's one time zone with the suffix "Z". */
  function IsoDate(d: Date): (r: string)
    ensures CleanText(r)
  {
    var r := YearText(d.year) + "-" + TwoDigits(d.month) + "-" + TwoDigits(d.day)
      + "T" + TwoDigits(d.hour) + ":" + TwoDigits(d.minute) + ":" + TwoDigits(d.second) + "Z";
    assert forall c :: c in r ==> c == '-' || c == 'T' || c == ':' || c == 'Z' || IsDigit(c);
    r
  }

  /** Reads back a date written in the four-digit-year form. */
  function ParseIsoDate(s: string): (r: Option<Civil>)
    ensures r.Some? ==> |s| == 20
  {
    if |s| == 20 && s[4] == '-' && s[7] == '-' && s[10] == 'T' && s[13] == ':' && s[16] == ':' && s[19] == 'Z'
       && AllDigits(s[0..4]) && AllDigits(s[5..7]) && AllDigits(s[8..10])
       && AllDigits(s[11..13]) && AllDigits(s[14..16]) && AllDigits(s[17..19])
    then Some(Civil(DigitsValue(s[0..4]), DigitsValue(s[5..7]), DigitsValue(s[8..10]),
                    DigitsValue(s[11..13]), DigitsValue(s[14..16]), DigitsValue(s[17..19])))
    else None
  }

  /** A date of the years 0 to 9999 is written in 20 characters and reads back unchanged. */
  lemma IsoDateRoundTrip(d: Date)
    requires 0 <= d.year < 10000
    ensures |IsoDate(d)| == 20
    ensures ParseIsoDate(IsoDate(d)) == Some(d)
  {
    var s := IsoDate(d);
    IsoDateLayout(d);
    assert Pow10(4) == 10000;
    PaddedValue(d.year, 4);
    TwoDigitsValue(d.month);
    TwoDigitsValue(d.day);
    TwoDigitsValue(d.hour);
    TwoDigitsValue(d.minute);
    TwoDigitsValue(d.second);
  }

  /** A number with at most `width` digits reads back from its padded form. */
  lemma PaddedValue(n: nat, width: nat)
    requires n < Pow10(width)
    ensures DigitsValue(Padded(n, width)) == n
  {
  }

  /** Where each field of a date of the years 0 to 9999 sits in its ISO 8601 text. */
  lemma IsoDateLayout(d: Date)
    requires 0 <= d.year < 10000
    ensures var s := IsoDate(d);
      && |s| == 20
      && s[4] == '-' && s[7] == '-' && s[10] == 'T' && s[13] == ':' && s[16] == ':' && s[19] == 'Z'
      && s[0..4] == Padded(d.year, 4) && s[5..7] == TwoDigits(d.month) && s[8..10] == TwoDigits(d.day)
      && s[11..13] == TwoDigits(d.hour) && s[14..16] == TwoDigits(d.minute) && s[17..19] == TwoDigits(d.second)
  {
    assert Width(d.year) <= 4 by {
      assert Pow10(4) == 10000;
      WidthBound(d.year, 4);
    }
    var y := Padded(d.year, 4);
    assert YearText(d.year) == y;
    var mo, da, h, mi, se := TwoDigits(d.month), TwoDigits(d.day), TwoDigits(d.hour), TwoDigits(d.minute), TwoDigits(d.second);
    FieldsLayout(y, mo, da, '-', 'T');
    FieldsLayout(h, mi, se, ':', 'Z');
    var front, back := y + "-" + mo + "-" + da + "T", h + ":" + mi + ":" + se + "Z";
    assert IsoDate(d) == front + back;
    AppendLayout(front, back);
  }

  /** `a`, `b` and `c` separated by `sep` and followed by `last`. */
  lemma FieldsLayout(a: string, b: string, c: string, sep: char, last: char)
    requires |b| == 2 && |c| == 2
    ensures var t := a + [sep] + b + [sep] + c + [last];
      && |t| == |a| + 7 && t[..|a|] == a && t[|a|] == sep && t[|a| + 1..|a| + 3] == b
      && t[|a| + 3] == sep && t[|a| + 4..|a| + 6] == c && t[|a| + 6] == last
  {
  }

  /** The date's text is the date part (11 characters) followed by the time part (9 characters). */
  lemma AppendLayout(front: string, back: string)
    requires |front| == 11 && |back| == 9
    requires front[4] == '-' && front[7] == '-' && front[10] == 'T'
    requires back[2] == ':' && back[5] == ':' && back[8] == 'Z'
    ensures var s := front + back;
      && |s| == 20
      && s[4] == '-' && s[7] == '-' && s[10] == 'T' && s[13] == ':' && s[16] == ':' && s[19] == 'Z'
      && s[0..4] == front[0..4] && s[5..7] == front[5..7] && s[8..10] == front[8..10]
      && s[11..13] == back[0..2] && s[14..16] == back[3..5] && s[17..19] == back[6..8]
  {
  }

  lemma {:induction false} WidthBound(n: nat, w: nat)
    requires n < Pow10(w) && w >= 1
    ensures Width(n) <= w
  {
    if n >= 10 {
      assert w >= 2;
      assert n / 10 < Pow10(w - 1);
      WidthBound(n / 10, w - 1);
    }
  }

  // ---------------------------------------------------------------------------
  // Lines and rows
  // ---------------------------------------------------------------------------

  /** Every line followed by "\n". */
  function Terminated(lines: seq<string>): string {
    if lines == [] then "" else lines[0] + "\n" + Terminated(lines[1..])
  }

  lemma {:induction false} TerminatedSnoc(lines: seq<string>, line: string)
    ensures Terminated(lines + [line]) == Terminated(lines) + line + "\n"
  {
    if lines == [] {
      assert lines + [line] == [line];
    } else {
      assert (lines + [line])[1..] == lines[1..] + [line];
      TerminatedSnoc(lines[1..], line);
    }
  }

  lemma TerminatedOne(line: string)
    ensures Terminated([line]) == line + "\n"
  {
    assert [line][1..] == [];
    assert line + "\n" + "" == line + "\n";
  }

  /** Terminated lines start with the first line and its newline, and end with a newline. */
  lemma {:induction false} TerminatedShape(lines: seq<string>)
    requires lines != []
    ensures lines[0] + "\n" <= Terminated(lines)
    ensures |Terminated(lines)| > 0 && Terminated(lines)[|Terminated(lines)| - 1] == '\n'
  {
    var t := Terminated(lines);
    assert t == (lines[0] + "\n") + Terminated(lines[1..]);
    if |lines| > 1 {
      TerminatedShape(lines[1..]);
    }
  }

  /** Terminating every line is joining the lines and one empty line after them with "\n". */
  lemma {:induction false} TerminatedIsJoin(lines: seq<string>)
    ensures Terminated(lines) == Join(lines + [""], '\n')
  {
    if lines != [] {
      TerminatedIsJoin(lines[1..]);
      assert (lines + [""])[1..] == lines[1..] + [""];
    }
  }

  /** Splitting a CSV text into lines, then every line into comma-separated fields. */
  function ParseCsv(text: string): (r: seq<seq<string>>)
    ensures |r| == |Split(text, '\n')|
  {
    var lines := Split(text, '\n');
    seq(|lines|, i requires 0 <= i < |lines| => Split(lines[i], ','))
  }

  /** No field holds a comma or a line break. */
  predicate Clean(fields: seq<string>) {
    forall k :: 0 <= k < |fields| ==> CleanText(fields[k])
  }

  /** A field that holds no comma and no line break. */
  predicate CleanText(s: string) {
    ',' !in s && '\n' !in s
  }

  /**
   * A table whose header and rows are clean reads back as the header, the rows,
   * and one empty trailing line.
   */
  lemma CsvRoundTrip(header: seq<string>, rows: seq<seq<string>>)
    requires header != [] && Clean(header)
    requires forall i :: 0 <= i < |rows| ==> rows[i] != [] && Clean(rows[i])
    ensures ParseCsv(Terminated([Join(header, ',')] + RowLines(rows))) == [header] + rows + [[""]]
  {
    var lines := [Join(header, ',')] + RowLines(rows);
    TerminatedIsJoin(lines);
    forall k | 0 <= k < |lines + [""]| ensures '\n' !in (lines + [""])[k] {
      if k == 0 {
        JoinClean(header);
      } else if k <= |rows| {
        JoinClean(rows[k - 1]);
      }
    }
    SplitJoin(lines + [""], '\n');
    var parsed := ParseCsv(Terminated(lines));
    assert |parsed| == |rows| + 2;
    forall i | 0 <= i < |parsed| ensures parsed[i] == ([header] + rows + [[""]])[i] {
      if i == 0 {
        SplitJoin(header, ',');
      } else if i <= |rows| {
        SplitJoin(rows[i - 1], ',');
      } else {
        assert Split("", ',') == [""];
      }
    }
  }

  /** Joining clean fields with commas introduces no line break. */
  lemma {:induction false} JoinClean(fields: seq<string>)
    requires Clean(fields)
    ensures '\n' !in Join(fields, ',')
  {
    if |fields| > 1 {
      JoinClean(fields[1..]);
    }
  }

  /** Each row's fields joined with commas. */
  function RowLines(rows: seq<seq<string>>): (r: seq<string>)
    ensures |r| == |rows|
    ensures forall i :: 0 <= i < |rows| ==> r[i] == Join(rows[i], ',')
  {
    seq(|rows|, i requires 0 <= i < |rows| => Join(rows[i], ','))
  }

  lemma RowLinesSnoc(rows: seq<seq<string>>, row: seq<string>)
    ensures RowLines(rows + [row]) == RowLines(rows) + [Join(row, ',')]
  {
  }

  /** A row reads back as one field per comma-free field plus one for every comma its fields hold. */
  lemma FieldCount(fields: seq<string>)
    requires fields != []
    ensures |Split(Join(fields, ','), ',')| == |fields| + CountInFields(fields, ',')
  {
    SplitCount(Join(fields, ','), ',');
    JoinSeparatorCount(fields, ',');
  }

  // ---------------------------------------------------------------------------
  // Bills
  // ---------------------------------------------------------------------------

  const BillColumns: seq<string> := ["ID", "Name", "Date", "Amount", "Category", "PaymentMode", "IsPaid"]

  /** The seven fields of a bill's row. */
  function BillFields(b: Bill, amountText: real -> string): (r: seq<string>)
    ensures |r| == |BillColumns|
  {
    [b.id.text, b.name, IsoDate(b.date), amountText(b.amount),
     b.categoryRaw.RawName(), b.paymentModeRaw.RawName(), if b.isPaid then "Yes" else "No"]
  }

  function BillRows(bills: seq<Bill>, amountText: real -> string): (r: seq<seq<string>>)
    ensures |r| == |bills|
    ensures forall i :: 0 <= i < |bills| ==> r[i] == BillFields(bills[i], amountText)
  {
    seq(|bills|, i requires 0 <= i < |bills| => BillFields(bills[i], amountText))
  }

  lemma BillRowsPrefix(bills: seq<Bill>, i: nat, amountText: real -> string)
    requires i < |bills|
    ensures BillRows(bills[..i + 1], amountText) == BillRows(bills[..i], amountText) + [BillFields(bills[i], amountText)]
  {
  }

  /** The header line, then one line per record. */
  function BillLines(bills: seq<Bill>, amountText: real -> string): (r: seq<string>)
    ensures |r| == |bills| + 1
  {
    [Join(BillColumns, ',')] + RowLines(BillRows(bills, amountText))
  }

  /** One more record adds its line at the end of the text. */
  lemma BillLinesStep(bills: seq<Bill>, i: nat, amountText: real -> string)
    requires i < |bills|
    ensures Terminated(BillLines(bills[..i + 1], amountText))
         == Terminated(BillLines(bills[..i], amountText)) + Join(BillFields(bills[i], amountText), ',') + "\n"
  {
    var lines := BillLines(bills[..i], amountText);
    var row := Join(BillFields(bills[i], amountText), ',');
    assert BillLines(bills[..i + 1], amountText) == lines + [row] by {
      BillRowsPrefix(bills, i, amountText);
      RowLinesSnoc(BillRows(bills[..i], amountText), BillFields(bills[i], amountText));
    }
    TerminatedSnoc(lines, row);
  }

  /** The export of `bills`. */
  function BillsCsv(bills: seq<Bill>, amountText: real -> string): (r: string)
    ensures Join(BillColumns, ',') + "\n" <= r
    ensures r[|r| - 1] == '\n'
  {
    TerminatedShape(BillLines(bills, amountText));
    Terminated(BillLines(bills, amountText))
  }

  /** `exportBills(_:)`. */
  method ExportBills(bills: seq<Bill>, amountText: real -> string) returns (csv: string)
    ensures csv == BillsCsv(bills, amountText)
  {
    csv := Join(BillColumns, ',') + "\n";
    var i := 0;
    assert BillLines(bills[..i], amountText) == [Join(BillColumns, ',')];
    while i < |bills|
      invariant 0 <= i <= |bills|
      invariant csv == Terminated(BillLines(bills[..i], amountText))
    {
      var bill := bills[i];
      var row := Join(BillFields(bill, amountText), ',');
      BillLinesStep(bills, i, amountText);
      csv := csv + row + "\n";
      i := i + 1;
    }
    assert bills[..i] == bills;
  }

  /** A bill whose identifier, name and amount text hold no comma or line break. */
  predicate CleanBill(b: Bill, amountText: real -> string) {
    CleanText(b.id.text) && CleanText(b.name) && CleanText(amountText(b.amount))
  }

  lemma BillFieldsClean(b: Bill, amountText: real -> string)
    requires CleanBill(b, amountText)
    ensures Clean(BillFields(b, amountText))
  {
    CategoryNameClean(b.categoryRaw);
    PaymentModeNameClean(b.paymentModeRaw);
  }

  /**
   * The bill export reads back as the column names, each bill's seven fields and a
   * trailing empty line, provided every bill is clean.
   */
  lemma BillsCsvRoundTrip(bills: seq<Bill>, amountText: real -> string)
    requires forall b :: b in bills ==> CleanBill(b, amountText)
    ensures ParseCsv(BillsCsv(bills, amountText)) == [BillColumns] + BillRows(bills, amountText) + [[""]]
  {
    var rows := BillRows(bills, amountText);
    forall i | 0 <= i < |rows| ensures rows[i] != [] && Clean(rows[i]) {
      BillFieldsClean(bills[i], amountText);
    }
    CsvRoundTrip(BillColumns, rows);
  }

  /** Exporting no bills writes the header line alone. */
  lemma BillsCsvEmpty(amountText: real -> string)
    ensures BillsCsv([], amountText) == Join(BillColumns, ',') + "\n"
  {
    assert BillLines([], amountText) == [Join(BillColumns, ',')];
    TerminatedOne(Join(BillColumns, ','));
  }

  /** Exporting one more bill appends exactly that bill's line to the text. */
  lemma BillsCsvAppend(bills: seq<Bill>, b: Bill, amountText: real -> string)
    ensures BillsCsv(bills + [b], amountText) == BillsCsv(bills, amountText) + Join(BillFields(b, amountText), ',') + "\n"
  {
    var all := bills + [b];
    var n := |bills|;
    assert all[..n + 1] == all && all[..n] == bills && all[n] == b;
    BillLinesStep(all, n, amountText);
    assert Terminated(BillLines(all, amountText))
        == Terminated(BillLines(bills, amountText)) + Join(BillFields(b, amountText), ',') + "\n";
  }

  /** The IsPaid column reads "Yes" exactly for a paid bill. */
  lemma IsPaidColumn(b: Bill, amountText: real -> string)
    ensures BillFields(b, amountText)[6] == "Yes" <==> b.isPaid
  {
    assert "No" != "Yes" by {
      assert "No"[0] != "Yes"[0];
    }
  }

  /** A bill's line reads back as seven fields exactly when its identifier, name and amount text hold no comma. */
  lemma BillRowFieldCount(b: Bill, amountText: real -> string)
    ensures |Split(Join(BillFields(b, amountText), ','), ',')| == |BillColumns|
        <==> ',' !in b.id.text && ',' !in b.name && ',' !in amountText(b.amount)
  {
    var fields := BillFields(b, amountText);
    FieldCount(fields);
    CountInFieldsZero(fields, ',');
    CategoryNameClean(b.categoryRaw);
    PaymentModeNameClean(b.paymentModeRaw);
    if ',' !in b.id.text && ',' !in b.name && ',' !in amountText(b.amount) {
      forall k | 0 <= k < |fields| ensures ',' !in fields[k] {
      }
    } else {
      assert ',' in fields[0] || ',' in fields[1] || ',' in fields[3];
    }
  }

  /** Raw names of categories hold no comma or line break. */
  lemma CategoryNameClean(c: Category)
    ensures CleanText(c.RawName())
  {
  }

  /** Raw names of payment modes hold no comma or line break. */
  lemma PaymentModeNameClean(p: PaymentMode)
    ensures CleanText(p.RawName())
  {
  }

  // ---------------------------------------------------------------------------
  // Transactions
  // ---------------------------------------------------------------------------

  const TxnColumns: seq<string> := ["ID", "Payee", "Date", "Amount", "Category"]

  /** The five fields of a transaction's row. */
  function TxnFields(t: Transaction, amountText: real -> string): (r: seq<string>)
    ensures |r| == |TxnColumns|
  {
    [t.id.text, t.payee, IsoDate(t.date), amountText(t.amount), TxnCategoryOf(t).RawName()]
  }

  function TxnRows(txns: seq<Transaction>, amountText: real -> string): (r: seq<seq<string>>)
    ensures |r| == |txns|
    ensures forall i :: 0 <= i < |txns| ==> r[i] == TxnFields(txns[i], amountText)
  {
    seq(|txns|, i requires 0 <= i < |txns| => TxnFields(txns[i], amountText))
  }

  lemma TxnRowsPrefix(txns: seq<Transaction>, i: nat, amountText: real -> string)
    requires i < |txns|
    ensures TxnRows(txns[..i + 1], amountText) == TxnRows(txns[..i], amountText) + [TxnFields(txns[i], amountText)]
  {
  }

  /** The header line, then one line per record. */
  function TxnLines(txns: seq<Transaction>, amountText: real -> string): (r: seq<string>)
    ensures |r| == |txns| + 1
  {
    [Join(TxnColumns, ',')] + RowLines(TxnRows(txns, amountText))
  }

  /** One more record adds its line at the end of the text. */
  lemma TxnLinesStep(txns: seq<Transaction>, i: nat, amountText: real -> string)
    requires i < |txns|
    ensures Terminated(TxnLines(txns[..i + 1], amountText))
         == Terminated(TxnLines(txns[..i], amountText)) + Join(TxnFields(txns[i], amountText), ',') + "\n"
  {
    var lines := TxnLines(txns[..i], amountText);
    var row := Join(TxnFields(txns[i], amountText), ',');
    assert TxnLines(txns[..i + 1], amountText) == lines + [row] by {
      TxnRowsPrefix(txns, i, amountText);
      RowLinesSnoc(TxnRows(txns[..i], amountText), TxnFields(txns[i], amountText));
    }
    TerminatedSnoc(lines, row);
  }

  /** The export of `txns`. */
  function TxnsCsv(txns: seq<Transaction>, amountText: real -> string): (r: string)
    ensures Join(TxnColumns, ',') + "\n" <= r
    ensures r[|r| - 1] == '\n'
  {
    TerminatedShape(TxnLines(txns, amountText));
    Terminated(TxnLines(txns, amountText))
  }

  /** `exportTransactions(_:)`. */
  method ExportTransactions(txns: seq<Transaction>, amountText: real -> string) returns (csv: string)
    ensures csv == TxnsCsv(txns, amountText)
  {
    csv := Join(TxnColumns, ',') + "\n";
    var i := 0;
    assert TxnLines(txns[..i], amountText) == [Join(TxnColumns, ',')];
    while i < |txns|
      invariant 0 <= i <= |txns|
      invariant csv == Terminated(TxnLines(txns[..i], amountText))
    {
      var txn := txns[i];
      var row := Join(TxnFields(txn, amountText), ',');
      TxnLinesStep(txns, i, amountText);
      csv := csv + row + "\n";
      i := i + 1;
    }
    assert txns[..i] == txns;
  }

  /** A transaction whose identifier, payee and amount text hold no comma or line break. */
  predicate CleanTxn(t: Transaction, amountText: real -> string) {
    CleanText(t.id.text) && CleanText(t.payee) && CleanText(amountText(t.amount))
  }

  lemma TxnFieldsClean(t: Transaction, amountText: real -> string)
    requires CleanTxn(t, amountText)
    ensures Clean(TxnFields(t, amountText))
  {
    TxnCategoryNameClean(TxnCategoryOf(t));
  }

  /** Exporting no transactions writes the header line alone. */
  lemma TxnsCsvEmpty(amountText: real -> string)
    ensures TxnsCsv([], amountText) == Join(TxnColumns, ',') + "\n"
  {
    assert TxnLines([], amountText) == [Join(TxnColumns, ',')];
    TerminatedOne(Join(TxnColumns, ','));
  }

  /** Exporting one more transaction appends exactly its line to the text. */
  lemma TxnsCsvAppend(txns: seq<Transaction>, t: Transaction, amountText: real -> string)
    ensures TxnsCsv(txns + [t], amountText) == TxnsCsv(txns, amountText) + Join(TxnFields(t, amountText), ',') + "\n"
  {
    var all := txns + [t];
    var n := |txns|;
    assert all[..n + 1] == all && all[..n] == txns && all[n] == t;
    TxnLinesStep(all, n, amountText);
    assert Terminated(TxnLines(all, amountText))
        == Terminated(TxnLines(txns, amountText)) + Join(TxnFields(t, amountText), ',') + "\n";
  }

  /** A transaction's line reads back as five fields exactly when its identifier, payee and amount text hold no comma. */
  lemma TxnRowFieldCount(t: Transaction, amountText: real -> string)
    ensures |Split(Join(TxnFields(t, amountText), ','), ',')| == |TxnColumns|
        <==> ',' !in t.id.text && ',' !in t.payee && ',' !in amountText(t.amount)
  {
    var fields := TxnFields(t, amountText);
    FieldCount(fields);
    CountInFieldsZero(fields, ',');
    TxnCategoryNameClean(TxnCategoryOf(t));
    if ',' !in t.id.text && ',' !in t.payee && ',' !in amountText(t.amount) {
      forall k | 0 <= k < |fields| ensures ',' !in fields[k] {
      }
    } else {
      assert ',' in fields[0] || ',' in fields[1] || ',' in fields[3];
    }
  }

  /** Raw names of transaction categories hold no comma or line break. */
  lemma TxnCategoryNameClean(c: TxnCategory)
    ensures CleanText(c.RawName())
  {
  }

  /** The transaction export reads back field for field when identifiers, payees and amounts are clean. */
  lemma TxnsCsvRoundTrip(txns: seq<Transaction>, amountText: real -> string)
    requires forall t :: t in txns ==> CleanTxn(t, amountText)
    ensures ParseCsv(TxnsCsv(txns, amountText)) == [TxnColumns] + TxnRows(txns, amountText) + [[""]]
  {
    var rows := TxnRows(txns, amountText);
    forall i | 0 <= i < |rows| ensures rows[i] != [] && Clean(rows[i]) {
      TxnFieldsClean(txns[i], amountText);
    }
    CsvRoundTrip(TxnColumns, rows);
  }
}
