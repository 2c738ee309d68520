/**
 * The receipt scanner's text heuristic (`createBillFromText()`): the recognised
 * text is cut into lines, and one pass over them keeps an amount and a name.
 *
 * - A line whose lower-cased text contains "total" or "amount" is an amount line;
 *   when it holds a digit, the amount becomes the first run of digits on it, read
 *   as a whole number ("12.50" gives 12).
 * - After that, a non-empty line that does not contain "total" or "amount" (checked
 *   case-sensitively) becomes the name, trimmed, provided the amount is still 0.
 * - The bill is due now, in category General; the name defaults to "Receipt" and
 *   the amount to 0.
 *
 * The date pattern the scanner looks for is matched but never used, so it leaves
 * no trace in the result and is not modelled.
 */
module Receipt {
  import opened Wrappers
  import opened Text
  import opened Calendar
  import opened Bills

  // ---------------------------------------------------------------------------
  // The first number on a line
  // ---------------------------------------------------------------------------

  predicate NotDigit(c: char) { !IsDigit(c) }

  /** The digits `line[i..j]` form the first maximal run of digits on the line. */
  predicate FirstRun(line: string, i: int, j: int) {
    && 0 <= i < j <= |line|
    && (forall k :: 0 <= k < i ==> !IsDigit(line[k]))
    && AllDigits(line[i..j])
    && (j == |line| || !IsDigit(line[j]))
  }

  /**
   * `line.components(separatedBy: CharacterSet.decimalDigits.inverted).compactMap { Double($0) }.first`:
   * every component is a run of digits or empty, and only the non-empty ones parse.
   */
  function FirstNumber(line: string): (r: Option<nat>)
    ensures r.None? <==> forall k :: 0 <= k < |line| ==> !IsDigit(line[k])
    ensures r.Some? ==> exists i, j :: FirstRun(line, i, j) && r.value == DigitsValue(line[i..j])
  {
    var i := LeadingDropped(line, NotDigit);
    if i == |line| then
      assert forall k :: 0 <= k < |line| ==> !IsDigit(line[k]) by {
        forall k | 0 <= k < |line| ensures !IsDigit(line[k]) {
          assert line[..i][k] == line[k];
        }
      }
      None
    else
      var n := LeadingDropped(line[i..], IsDigit);
      assert n >= 1 by {
        assert line[i..][0] == line[i];
      }
      var j := i + n;
      assert line[i..][..n] == line[i..j];
      assert j < |line| ==> line[i..][n] == line[j];
      assert forall k :: 0 <= k < i ==> !IsDigit(line[k]) by {
        forall k | 0 <= k < i ensures !IsDigit(line[k]) {
          assert line[..i][k] == line[k];
        }
      }
      assert FirstRun(line, i, j);
      Some(DigitsValue(line[i..j]))
  }

  /** The first run of digits on a line is unique. */
  lemma FirstRunUnique(line: string, i: int, j: int, i': int, j': int)
    requires FirstRun(line, i, j) && FirstRun(line, i', j')
    ensures i == i' && j == j'
  {
    assert line[i..j][0] == line[i] && line[i'..j'][0] == line[i'];
    assert forall k :: i <= k < j ==> IsDigit(line[k]) by {
      forall k | i <= k < j ensures IsDigit(line[k]) {
        assert line[i..j][k - i] == line[k];
      }
    }
    assert forall k :: i' <= k < j' ==> IsDigit(line[k]) by {
      forall k | i' <= k < j' ensures IsDigit(line[k]) {
        assert line[i'..j'][k - i'] == line[k];
      }
    }
  }

  // ---------------------------------------------------------------------------
  // One pass over the lines
  // ---------------------------------------------------------------------------

  /** The lower-cased line mentions a total or an amount. */
  predicate IsAmountLine(line: string) {
    var lower := Lowercased(line);
    Contains(lower, "total") || Contains(lower, "amount")
  }

  /** An amount line with a digit on it: the lines that set the amount. */
  predicate SetsAmount(line: string) {
    IsAmountLine(line) && FirstNumber(line).Some?
  }

  /** A line that may become the name: non-empty and without "total" or "amount" as written. */
  predicate IsNameCandidate(line: string) {
    line != [] && !Contains(line, "total") && !Contains(line, "amount")
  }

  /** The amount and the name kept so far. */
  datatype Scan = Scan(amount: real, name: string)

  /** One iteration of the loop body on `line`. */
  function Step(s: Scan, line: string): (r: Scan)
    ensures SetsAmount(line) ==> r.amount == FirstNumber(line).value as real
    ensures !SetsAmount(line) ==> r.amount == s.amount
    ensures IsNameCandidate(line) && r.amount == 0.0 ==> r.name == Trim(line, IsSpaceOrNewline)
    ensures !(IsNameCandidate(line) && r.amount == 0.0) ==> r.name == s.name
  {
    var amount := if SetsAmount(line) then FirstNumber(line).value as real else s.amount;
    var name := if IsNameCandidate(line) && amount == 0.0 then Trim(line, IsSpaceOrNewline) else s.name;
    Scan(amount, name)
  }

  /** The state after the loop has seen `lines`, starting from no amount and the name "Receipt". */
  function ScanLines(lines: seq<string>): Scan {
    if lines == [] then Scan(0.0, "Receipt")
    else Step(ScanLines(lines[..|lines| - 1]), lines[|lines| - 1])
  }

  /** The bill the scanner proposes for `text`, read at time `now`. */
  function ReceiptBill(text: string, now: Date, id: Uuid, receiptData: Option<seq<Byte>>): (b: Bill)
    ensures b.date == now && b.categoryRaw == General && b.paymentModeRaw == Cash
    ensures !b.isPaid && b.paidDate == None && b.receiptData == receiptData
  {
    var s := ScanLines(Lines(text));
    MakeBill(id, s.name, now, s.amount, General, receiptData := receiptData)
  }

  /** `createBillFromText()`: the loop over the lines of `text`. */
  method CreateBillFromText(text: string, now: Date, id: Uuid, receiptData: Option<seq<Byte>>) returns (bill: Bill)
    ensures bill == ReceiptBill(text, now, id, receiptData)
  {
    var lines := Lines(text);
    var amount := 0.0;
    var name := "Receipt";
    for i := 0 to |lines|
      invariant Scan(amount, name) == ScanLines(lines[..i])
    {
      var line := lines[i];
      ghost var before := Scan(amount, name);
      var lowercased := Lowercased(line);
      if Contains(lowercased, "total") || Contains(lowercased, "amount") {
        var first := FirstNumber(line);
        if first.Some? {
          amount := first.value as real;
        }
      }
      if line != [] && !Contains(line, "total") && !Contains(line, "amount") && amount == 0.0 {
        name := Trim(line, IsSpaceOrNewline);
      }
      assert Scan(amount, name) == Step(before, line);
      ScanLinesSnoc(lines, i);
    }
    assert lines[..|lines|] == lines;
    bill := MakeBill(id, name, now, amount, General, receiptData := receiptData);
  }

  /** One more line is one more step. */
  lemma ScanLinesSnoc(lines: seq<string>, i: int)
    requires 0 <= i < |lines|
    ensures ScanLines(lines[..i + 1]) == Step(ScanLines(lines[..i]), lines[i])
  {
    assert lines[..i + 1][..i] == lines[..i];
  }

  // ---------------------------------------------------------------------------
  // What the pass computes
  // ---------------------------------------------------------------------------

  /** `lines[k]` is the last line that sets the amount. */
  predicate LastAmountLine(lines: seq<string>, k: int) {
    && 0 <= k < |lines| && SetsAmount(lines[k])
    && forall m :: k < m < |lines| ==> !SetsAmount(lines[m])
  }

  /** The amount is the first number on the last amount line that holds a digit. */
  lemma {:induction false} ScanAmountLast(lines: seq<string>, k: int)
    requires LastAmountLine(lines, k)
    ensures ScanLines(lines).amount == FirstNumber(lines[k]).value as real
  {
    var n := |lines| - 1;
    if k == n {
      LastLineSetsAmount(lines);
    } else {
      LastLineKeepsAmount(lines);
      var prefix := lines[..n];
      assert LastAmountLine(prefix, k) by {
        forall m | k < m < n ensures !SetsAmount(prefix[m]) {
          assert prefix[m] == lines[m];
        }
      }
      ScanAmountLast(prefix, k);
    }
  }

  /** A last line that sets the amount decides it. */
  lemma LastLineSetsAmount(lines: seq<string>)
    requires lines != [] && SetsAmount(lines[|lines| - 1])
    ensures ScanLines(lines).amount == FirstNumber(lines[|lines| - 1]).value as real
  {
  }

  /** A last line that does not set the amount leaves it as it was. */
  lemma LastLineKeepsAmount(lines: seq<string>)
    requires lines != [] && !SetsAmount(lines[|lines| - 1])
    ensures ScanLines(lines).amount == ScanLines(lines[..|lines| - 1]).amount
  {
  }

  /** Without an amount line that holds a digit, the amount stays 0. */
  lemma {:induction false} ScanAmountDefault(lines: seq<string>)
    requires forall k :: 0 <= k < |lines| ==> !SetsAmount(lines[k])
    ensures ScanLines(lines).amount == 0.0
  {
    if lines != [] {
      var n := |lines| - 1;
      var prefix := lines[..n];
      LastLineKeepsAmount(lines);
      forall m | 0 <= m < n ensures !SetsAmount(prefix[m]) {
        assert prefix[m] == lines[m];
      }
      ScanAmountDefault(prefix);
    }
  }

  /** The amount is always a whole number of at least 0. */
  lemma {:induction false} ScanAmountWhole(lines: seq<string>)
    ensures ScanLines(lines).amount >= 0.0
    ensures ScanLines(lines).amount == ScanLines(lines).amount.Floor as real
  {
    if lines != [] {
      ScanAmountWhole(lines[..|lines| - 1]);
    }
  }

  /** `lines[k]` gives the name: a candidate read while the amount is still 0. */
  predicate NamesAt(lines: seq<string>, k: int) {
    0 <= k < |lines| && IsNameCandidate(lines[k]) && ScanLines(lines[..k + 1]).amount == 0.0
  }

  /** `lines[k]` is the last line that gives the name. */
  predicate LastNameLine(lines: seq<string>, k: int) {
    && 0 <= k < |lines| && NamesAt(lines, k)
    && forall m :: k < m < |lines| ==> !NamesAt(lines, m)
  }

  /** The name is the trimmed text of the last candidate line read while the amount was 0. */
  lemma {:induction false} ScanNameLast(lines: seq<string>, k: int)
    requires LastNameLine(lines, k)
    ensures ScanLines(lines).name == Trim(lines[k], IsSpaceOrNewline)
  {
    var n := |lines| - 1;
    if k == n {
      LastLineNames(lines);
    } else {
      assert !NamesAt(lines, n);
      LastLineKeepsName(lines);
      assert LastNameLine(lines[..n], k) by {
        NamesAtPrefix(lines, n, k);
        forall m | k < m < n ensures !NamesAt(lines[..n], m) {
          NamesAtPrefix(lines, n, m);
        }
      }
      ScanNameLast(lines[..n], k);
    }
  }

  /** Without a candidate line read while the amount was 0, the name stays "Receipt". */
  lemma {:induction false} ScanNameDefault(lines: seq<string>)
    requires forall k :: 0 <= k < |lines| ==> !NamesAt(lines, k)
    ensures ScanLines(lines).name == "Receipt"
  {
    if lines != [] {
      var n := |lines| - 1;
      assert !NamesAt(lines, n);
      LastLineKeepsName(lines);
      forall m | 0 <= m < n ensures !NamesAt(lines[..n], m) {
        NamesAtPrefix(lines, n, m);
      }
      ScanNameDefault(lines[..n]);
    }
  }

  /** A last line that gives the name sets it. */
  lemma LastLineNames(lines: seq<string>)
    requires lines != [] && NamesAt(lines, |lines| - 1)
    ensures ScanLines(lines).name == Trim(lines[|lines| - 1], IsSpaceOrNewline)
  {
    assert lines[..|lines|] == lines;
  }

  /** A last line that does not give the name leaves it as it was. */
  lemma LastLineKeepsName(lines: seq<string>)
    requires lines != [] && !NamesAt(lines, |lines| - 1)
    ensures ScanLines(lines).name == ScanLines(lines[..|lines| - 1]).name
  {
    assert lines[..|lines|] == lines;
  }

  /** Whether a line gives the name depends only on the lines up to it. */
  lemma NamesAtPrefix(lines: seq<string>, n: int, k: int)
    requires 0 <= k < n <= |lines|
    ensures NamesAt(lines[..n], k) == NamesAt(lines, k)
  {
    assert lines[..n][..k + 1] == lines[..k + 1];
  }

  /** A line that mentions "total" or "amount" in lower case never becomes the name. */
  lemma LowercaseKeywordNeverNames(lines: seq<string>, k: int)
    requires 0 <= k < |lines| && (Contains(lines[k], "total") || Contains(lines[k], "amount"))
    ensures !NamesAt(lines, k)
  {
  }

  /** Lower-casing keeps every occurrence of a pattern that has no capital letter. */
  lemma LowercasedKeepsPattern(s: string, pat: string)
    requires forall k :: 0 <= k < |pat| ==> !IsUpper(pat[k])
    requires Contains(s, pat)
    ensures Contains(Lowercased(s), pat)
  {
    var i :| OccursAt(s, pat, i);
    LowercasedKeepsOccurrence(s, pat, i);
  }

  lemma LowercasedKeepsOccurrence(s: string, pat: string, i: int)
    requires forall k :: 0 <= k < |pat| ==> !IsUpper(pat[k])
    requires OccursAt(s, pat, i)
    ensures OccursAt(Lowercased(s), pat, i)
  {
    var l := Lowercased(s);
    forall k | 0 <= k < |pat| ensures l[i..i + |pat|][k] == pat[k] {
      assert s[i..i + |pat|][k] == s[i + k];
    }
  }

  /** The amount test ignores case: a line mentioning "total" or "amount" as written is an amount line. */
  lemma KeywordLineIsAmountLine(line: string)
    requires Contains(line, "total") || Contains(line, "amount")
    ensures IsAmountLine(line)
  {
    if Contains(line, "total") {
      LowercasedKeepsPattern(line, "total");
    } else {
      LowercasedKeepsPattern(line, "amount");
    }
  }

  /** Text without an amount line holding a digit, and without a candidate line, gives the defaults. */
  lemma ReceiptDefaults(text: string, now: Date, id: Uuid, receiptData: Option<seq<Byte>>)
    requires forall k :: 0 <= k < |Lines(text)| ==> !SetsAmount(Lines(text)[k]) && !IsNameCandidate(Lines(text)[k])
    ensures var b := ReceiptBill(text, now, id, receiptData);
      b.name == "Receipt" && b.amount == 0.0 && b.categoryRaw == General && b.date == now
  {
    var lines := Lines(text);
    ScanAmountDefault(lines);
    ScanNameDefault(lines);
  }
}
