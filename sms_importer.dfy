/**
 * Importing a bank SMS: two message patterns tried in a fixed order, the captured
 * fields normalised into a transaction, and the transaction reconciled against the
 * card's open bill.
 *
 * The regular-expression engine is not modelled: the results of the two
 * `firstMatch(of:)` calls arrive as `Option<HnbMatch>` and `Option<CardMatch>`,
 * holding the captured groups as text. Everything after the match is modelled.
 */
module SmsImport {
  import opened Wrappers
  import opened Calendar
  import opened Text
  import opened Bills
  import opened Transactions
  import opened Storage

  /**
   * Captures of the HNB pattern
   * `**(dddd) :(payee)  (...) LKR (amount) (dd-Mon-yyyy) (HH:mm:ss) AM|PM`;
   * the AM/PM marker is matched but not captured.
   */
  datatype HnbMatch = HnbMatch(last4: string, payee: string, amount: string, day: string, time: string)

  /**
   * Captures of the card pattern
   * `card ending #(dddd) ... Purchase at (PAYEE) ... for LKR (amount) on (dd)/(MM)/(yy) (hh:mm) (AM|PM)`.
   */
  datatype CardMatch = CardMatch(
    last4: string, payee: string, amount: string,
    d: string, m: string, y: string, time: string, ampm: string)

  // ---------------------------------------------------------------------------
  // Field normalisation
  // ---------------------------------------------------------------------------

  /** `double(from:)`: commas removed, then read as a decimal number; 0 when that fails. */
  function ParseAmount(s: string): (r: real)
    ensures r >= 0.0
    ensures ParseDecimal(Remove(s, ',')).None? ==> r == 0.0
    ensures AllDigits(Remove(s, ',')) && Remove(s, ',') != [] ==> r == DigitsValue(Remove(s, ',')) as real
    ensures forall p: nat :: PointedDecimal(Remove(s, ','), p) ==> r == PointedValue(Remove(s, ','), p)
  {
    ParseDecimal(Remove(s, ',')).GetOr(0.0)
  }

  /** Commas anywhere in the captured amount are ignored. */
  lemma ParseAmountIgnoresCommas(a: string, b: string)
    ensures ParseAmount(a + [','] + b) == ParseAmount(a + b)
  {
    RemoveBetween(a, b, ',');
  }

  /** "12,345.67" reads as 12345.67. */
  lemma ParseAmountExample()
    ensures ParseAmount("12,345.67") == 12345.67
  {
    CommaRemovedExample();
    ParseDecimalExample();
  }

  lemma CommaRemovedExample()
    ensures Remove("12,345.67", ',') == "12345.67"
  {
    var a, b := "12", "345.67";
    assert a + [','] + b == "12,345.67";
    RemoveBetween(a, b, ',');
    assert a + b == "12345.67";
    assert ',' !in a + b;
    RemoveAbsent(a + b, ',');
  }

  lemma ParseDecimalExample()
    ensures ParseDecimal("12345.67") == Some(12345.67)
  {
    PointedExample();
  }

  lemma PointedExample()
    ensures PointedDecimal("12345.67", 5) && PointedValue("12345.67", 5) == 12345.67
  {
    var s := "12345.67";
    assert s[..5] == "12345" && s[6..] == "67";
    DigitsExample();
    assert Pow10(2) == 100;
  }

  lemma DigitsExample()
    ensures DigitsValue("12345") == 12345 && DigitsValue("67") == 67
  {
    assert "12345"[..4] == "1234" && "1234"[..3] == "123" && "123"[..2] == "12" && "12"[..1] == "1";
    assert "67"[..1] == "6";
  }

  /** Two decimal digits, read as a number. */
  function TwoDigits(s: string): (r: Option<nat>)
    ensures r.Some? <==> |s| == 2 && AllDigits(s)
    ensures r.Some? ==> r.value < 100
  {
    if |s| == 2 && AllDigits(s) then Some(DigitsValue(s)) else None
  }

  /** Four decimal digits, read as a number. */
  function FourDigits(s: string): (r: Option<nat>)
    ensures r.Some? <==> |s| == 4 && AllDigits(s)
    ensures r.Some? ==> r.value < 10000
  {
    if |s| == 4 && AllDigits(s) then Some(DigitsValue(s)) else None
  }

  /** The English month abbreviations, in calendar order. */
  const MonthAbbreviations: seq<string> :=
    ["jan", "feb", "mar", "apr", "may", "jun", "jul", "aug", "sep", "oct", "nov", "dec"]

  /** `MMM` in the `en_US_POSIX` locale, compared without regard to case. */
  function MonthFromAbbreviation(s: string): (r: Option<int>)
    ensures r.Some? ==> 1 <= r.value <= 12 && Lowercased(s) == MonthAbbreviations[r.value - 1]
    ensures r.None? ==> Lowercased(s) !in MonthAbbreviations
  {
    var l := Lowercased(s);
    if l in MonthAbbreviations then
      var k :| 0 <= k < 12 && MonthAbbreviations[k] == l;
      Some(k + 1)
    else None
  }

  /** The civil date-time with these fields, if they name one. */
  function CivilDate(year: int, month: int, day: int, hour: int, minute: int, second: int): (r: Option<Date>)
    ensures r.Some? <==> ValidCivil(Civil(year, month, day, hour, minute, second))
    ensures r.Some? ==> r.value == Civil(year, month, day, hour, minute, second)
  {
    var c := Civil(year, month, day, hour, minute, second);
    if ValidCivil(c) then Some(c) else None
  }

  /** "dd-MMM-yyyy" and "HH:mm:ss": separators in place and every field readable. */
  predicate HnbLayout(day: string, time: string) {
    && |day| == 11 && day[2] == '-' && day[6] == '-'
    && |time| == 8 && time[2] == ':' && time[5] == ':'
    && TwoDigits(day[0..2]).Some? && MonthFromAbbreviation(day[3..6]).Some? && FourDigits(day[7..11]).Some?
    && TwoDigits(time[0..2]).Some? && TwoDigits(time[3..5]).Some? && TwoDigits(time[6..8]).Some?
  }

  /** The fields an HNB date and time are read as, before the calendar checks them. */
  function HnbFields(day: string, time: string): Civil
    requires HnbLayout(day, time)
  {
    Civil(FourDigits(day[7..11]).value, MonthFromAbbreviation(day[3..6]).value, TwoDigits(day[0..2]).value,
      TwoDigits(time[0..2]).value, TwoDigits(time[3..5]).value, TwoDigits(time[6..8]).value)
  }

  /**
   * A `DateFormatter` with format "dd-MMM-yyyy HH:mm:ss" reading "<day> <time>":
   * the hour is read on the 24-hour clock.
   */
  function HnbDateOf(day: string, time: string): (r: Option<Date>)
    ensures r.Some? <==> HnbLayout(day, time) && ValidCivil(HnbFields(day, time))
    ensures r.Some? ==>
      && r.value.day == TwoDigits(day[0..2]).value
      && r.value.month == MonthFromAbbreviation(day[3..6]).value
      && r.value.year == FourDigits(day[7..11]).value
      && r.value.hour == TwoDigits(time[0..2]).value
      && r.value.minute == TwoDigits(time[3..5]).value
      && r.value.second == TwoDigits(time[6..8]).value
  {
    if |day| == 11 && day[2] == '-' && day[6] == '-' && |time| == 8 && time[2] == ':' && time[5] == ':' then
      var dd, mon, yyyy := TwoDigits(day[0..2]), MonthFromAbbreviation(day[3..6]), FourDigits(day[7..11]);
      var hh, mm, ss := TwoDigits(time[0..2]), TwoDigits(time[3..5]), TwoDigits(time[6..8]);
      if dd.Some? && mon.Some? && yyyy.Some? && hh.Some? && mm.Some? && ss.Some? then
        CivilDate(yyyy.value, mon.value, dd.value, hh.value, mm.value, ss.value)
      else None
    else None
  }

  /** `date(fromDay:time:)`: the parsed date, or `now` when parsing fails. */
  function HnbDate(day: string, time: string, now: Date): (r: Date)
    ensures HnbDateOf(day, time).None? ==> r == now
    ensures HnbDateOf(day, time).Some? ==> r == HnbDateOf(day, time).value
  {
    HnbDateOf(day, time).GetOr(now)
  }

  /**
   * The AM/PM marker of an HNB message is dropped before parsing, so an afternoon
   * time written on the 12-hour clock is read as a morning time.
   */
  lemma HnbAfternoonReadAsMorning(now: Date)
    ensures HnbDate("05-Jan-2024", "05:30:00", now) == Civil(2024, 1, 5, 5, 30, 0)
  {
    var day, time := "05-Jan-2024", "05:30:00";
    assert day[2] == '-' && day[6] == '-' && time[2] == ':' && time[5] == ':';
    HnbDayFieldsExample();
    HnbTimeFieldsExample();
  }

  lemma HnbDayFieldsExample()
    ensures var day := "05-Jan-2024";
      TwoDigits(day[0..2]) == Some(5) && MonthFromAbbreviation(day[3..6]) == Some(1) && FourDigits(day[7..11]) == Some(2024)
  {
    var day := "05-Jan-2024";
    assert day[0..2] == "05";
    assert day[3..6] == "Jan" by { assert day[3] == 'J' && day[4] == 'a' && day[5] == 'n'; }
    assert day[7..11] == "2024";
    assert DigitsValue("05") == 5 by { assert "05"[..1] == "0"; }
    assert DigitsValue("2024") == 2024 by {
      assert "2024"[..3] == "202" && "202"[..2] == "20" && "20"[..1] == "2";
    }
    assert Lowercased("Jan") == "jan";
  }

  lemma HnbTimeFieldsExample()
    ensures var time := "05:30:00";
      TwoDigits(time[0..2]) == Some(5) && TwoDigits(time[3..5]) == Some(30) && TwoDigits(time[6..8]) == Some(0)
  {
    var time := "05:30:00";
    assert time[0..2] == "05" && time[3..5] == "30" && time[6..8] == "00";
    assert DigitsValue("05") == 5 && DigitsValue("30") == 30 && DigitsValue("00") == 0 by {
      assert "05"[..1] == "0" && "30"[..1] == "3" && "00"[..1] == "0";
    }
  }

  /**
   * The year a two-digit `yy` stands for: the one within the hundred years that
   * start 80 years before `now`.
   */
  function TwoDigitYear(yy: nat, now: Date): (y: int)
    requires yy < 100
    ensures y % 100 == yy
    ensures now.year - 80 <= y < now.year + 20
  {
    var start := now.year - 80;
    var y := start - start % 100 + yy;
    if y < start then y + 100 else y
  }

  /** The 24-hour value of a 12-hour clock reading `h` (1 to 12) with its AM/PM marker. */
  function Hour24(h: int, ampm: string): (r: int)
    requires 1 <= h <= 12 && (ampm == "AM" || ampm == "PM")
    ensures 0 <= r < 24
    ensures ampm == "AM" <==> r < 12
    ensures r % 12 == h % 12
  {
    if ampm == "AM" then h % 12 else h % 12 + 12
  }

  /** "dd", "MM", "yy", "hh:mm" with the hour from 1 to 12, and an AM/PM marker. */
  predicate CardLayout(d: string, m: string, y: string, time: string, ampm: string) {
    && |time| == 5 && time[2] == ':' && (ampm == "AM" || ampm == "PM")
    && TwoDigits(d).Some? && TwoDigits(m).Some? && TwoDigits(y).Some?
    && TwoDigits(time[0..2]).Some? && TwoDigits(time[3..5]).Some? && 1 <= TwoDigits(time[0..2]).value <= 12
  }

  /** The fields a card date and time are read as, before the calendar checks them. */
  function CardFields(d: string, m: string, y: string, time: string, ampm: string, now: Date): Civil
    requires CardLayout(d, m, y, time, ampm)
  {
    Civil(TwoDigitYear(TwoDigits(y).value, now), TwoDigits(m).value, TwoDigits(d).value,
      Hour24(TwoDigits(time[0..2]).value, ampm), TwoDigits(time[3..5]).value, 0)
  }

  /** A `DateFormatter` with format "dd/MM/yy hh:mm a" reading "<d>/<m>/<y> <time> <ampm>". */
  function CardDateOf(d: string, m: string, y: string, time: string, ampm: string, now: Date): (r: Option<Date>)
    ensures r.Some? <==> CardLayout(d, m, y, time, ampm) && ValidCivil(CardFields(d, m, y, time, ampm, now))
    ensures r.Some? ==>
      && r.value.day == TwoDigits(d).value && r.value.month == TwoDigits(m).value
      && r.value.year == TwoDigitYear(TwoDigits(y).value, now)
      && r.value.hour == Hour24(TwoDigits(time[0..2]).value, ampm)
      && r.value.minute == TwoDigits(time[3..5]).value && r.value.second == 0
    ensures r.Some? ==> r.value.year % 100 == TwoDigits(y).value && (ampm == "PM" <==> r.value.hour >= 12)
  {
    if |time| == 5 && time[2] == ':' && (ampm == "AM" || ampm == "PM") then
      var dd, mm, yy := TwoDigits(d), TwoDigits(m), TwoDigits(y);
      var hh, mi := TwoDigits(time[0..2]), TwoDigits(time[3..5]);
      if dd.Some? && mm.Some? && yy.Some? && hh.Some? && mi.Some? && 1 <= hh.value <= 12 then
        CivilDate(TwoDigitYear(yy.value, now), mm.value, dd.value, Hour24(hh.value, ampm), mi.value, 0)
      else None
    else None
  }

  /** `date(d:m:y:time:ampm:)`: the parsed date, or `now` when parsing fails. */
  function CardDate(d: string, m: string, y: string, time: string, ampm: string, now: Date): (r: Date)
    ensures CardDateOf(d, m, y, time, ampm, now).None? ==> r == now
    ensures CardDateOf(d, m, y, time, ampm, now).Some? ==> r == CardDateOf(d, m, y, time, ampm, now).value
  {
    CardDateOf(d, m, y, time, ampm, now).GetOr(now)
  }

  // ---------------------------------------------------------------------------
  // Pattern priority and extraction
  // ---------------------------------------------------------------------------

  /** The fields the importer reads out of a matched message. */
  datatype Extracted = Extracted(payee: string, amount: real, date: Date, last4: string, channel: string)

  /**
   * The HNB pattern is tried first; the card pattern is consulted only when it does
   * not match; with neither, nothing is extracted.
   */
  function Extract(hnb: Option<HnbMatch>, card: Option<CardMatch>, now: Date): (r: Option<Extracted>)
    ensures r.None? <==> hnb.None? && card.None?
    ensures hnb.Some? ==>
      && r.value.channel == "VC" && r.value.last4 == hnb.value.last4
      && r.value.payee == Trim(hnb.value.payee, IsBlank)
      && r.value.amount == ParseAmount(hnb.value.amount)
      && r.value.date == HnbDate(hnb.value.day, hnb.value.time, now)
    ensures hnb.None? && card.Some? ==>
      && r.value.channel == "Card" && r.value.last4 == card.value.last4
      && r.value.payee == Capitalized(card.value.payee)
      && r.value.amount == ParseAmount(card.value.amount)
      && r.value.date == CardDate(card.value.d, card.value.m, card.value.y, card.value.time, card.value.ampm, now)
  {
    match hnb
    case Some(h) =>
      Some(Extracted(Trim(h.payee, IsBlank), ParseAmount(h.amount), HnbDate(h.day, h.time, now), h.last4, "VC"))
    case None =>
      match card
      case Some(c) =>
        Some(Extracted(Capitalized(c.payee), ParseAmount(c.amount),
                       CardDate(c.d, c.m, c.y, c.time, c.ampm, now), c.last4, "Card"))
      case None => None
  }

  /** When the HNB pattern matches, what the card pattern found makes no difference. */
  lemma HnbTakesPriority(h: HnbMatch, c1: Option<CardMatch>, c2: Option<CardMatch>, now: Date)
    ensures Extract(Some(h), c1, now) == Extract(Some(h), c2, now)
    ensures Extract(Some(h), c1, now).value.channel == "VC"
  {
  }

  /** The payee of an HNB message keeps no leading or trailing blank. */
  lemma HnbPayeeTrimmed(h: HnbMatch, card: Option<CardMatch>, now: Date)
    ensures var p := Extract(Some(h), card, now).value.payee;
      p != [] ==> !IsBlank(p[0]) && !IsBlank(p[|p| - 1])
  {
  }

  // ---------------------------------------------------------------------------
  // Reconciliation
  // ---------------------------------------------------------------------------

  /** The transaction inserted for a match: category "Other", the card's digits and the channel. */
  function ImportedTransaction(e: Extracted, id: Uuid): (t: Transaction)
    ensures t.date == e.date && t.payee == e.payee && t.amount == e.amount
    ensures t.cardLast4 == Some(e.last4) && t.channel == Some(e.channel)
    ensures TxnCategoryOf(t) == TxnOther
  {
    MakeTransaction(id, e.date, e.payee, e.amount, Some(e.last4), Some(e.channel), TxnOther)
  }

  /** The fetch predicate: an unpaid bill tied to the card ending in `last4`. */
  predicate OpenCardBill(b: Bill, last4: string) {
    b.cardLast4 == Some(last4) && !b.isPaid
  }

  /**
   * The bill opened for a card with no open bill: "Credit Card <last4>", due at 23:59
   * on the last day of the transaction's month, monthly, paid by card, under utilities.
   */
  function NewCardBill(e: Extracted, id: Uuid): (b: Bill)
    ensures b.name == "Credit Card " + e.last4 && b.amount == e.amount
    ensures SameMonth(b.date, e.date) && b.date.day == DaysInMonth(e.date.year, e.date.month)
    ensures b.date.hour == 23 && b.date.minute == 59 && b.date.second == 0
    ensures NotBefore(b.date, e.date) || (b.date.day == e.date.day && e.date.hour == 23 && e.date.minute == 59)
    ensures b.categoryRaw == Utilities && b.paymentModeRaw == Card && BillFrequency(b) == Monthly
    ensures OpenCardBill(b, e.last4) && b.paidDate == None && !HasReceipt(b)
  {
    var due := LastDayOfMonthAt(e.date, 23, 59);
    assert NotBefore(due, e.date) || (due.day == e.date.day && e.date.hour == 23 && e.date.minute == 59) by {
      if due.day > e.date.day {
        LaterDayIsLater(e.date, due);
      }
    }
    MakeBill(id, "Credit Card " + e.last4, due, e.amount, Utilities, Card, Monthly, cardLast4 := Some(e.last4))
  }

  /**
   * The effect `import(_:into:)` has on the stored bills and transactions, given
   * the fields extracted from the message (None when neither pattern matched) and
   * the index of the bill it added the amount to (None when it added a new bill).
   */
  predicate ImportEffect(bills: seq<Bill>, txns: seq<Transaction>, bills': seq<Bill>, txns': seq<Transaction>,
                         e: Option<Extracted>, matched: Option<nat>, txnId: Uuid, billId: Uuid)
  {
    && (e.None? ==> bills' == bills && txns' == txns && matched == None)
    && (e.Some? ==> txns' == txns + [ImportedTransaction(e.value, txnId)])
    && (e.Some? && matched.Some? ==>
          var j := matched.value;
          && j < |bills| && OpenCardBill(bills[j], e.value.last4)
          && bills' == bills[j := bills[j].(amount := bills[j].amount + e.value.amount)])
    && (e.Some? && matched.None? ==>
          && (forall j :: 0 <= j < |bills| ==> !OpenCardBill(bills[j], e.value.last4))
          && bills' == bills + [NewCardBill(e.value, billId)])
  }

  /**
   * `import(_:into:)`: extracts the fields (the match results, the current time and
   * the identifiers `UUID()` would generate are parameters), inserts the transaction,
   * and either adds its amount to an open bill of the same card — the one at the
   * returned position, any such bill, since the fetch is unordered — or opens a new
   * bill for the card. Without a match nothing changes.
   */
  method Import(ctx: ModelContext, hnb: Option<HnbMatch>, card: Option<CardMatch>, now: Date, txnId: Uuid, billId: Uuid)
    returns (matched: Option<nat>)
    modifies ctx
    ensures ImportEffect(old(ctx.bills), old(ctx.transactions), ctx.bills, ctx.transactions,
                         Extract(hnb, card, now), matched, txnId, billId)
  {
    matched := None;
    var payee := "Unknown";
    var amount := 0.0;
    var date := now;
    var last4: Option<string> := None;
    var channel: Option<string> := None;

    if hnb.Some? {
      var m := hnb.value;
      last4 := Some(m.last4);
      payee := Trim(m.payee, IsBlank);
      amount := ParseAmount(m.amount);
      date := HnbDate(m.day, m.time, now);
      channel := Some("VC");
    } else if card.Some? {
      var m := card.value;
      last4 := Some(m.last4);
      payee := Capitalized(m.payee);
      amount := ParseAmount(m.amount);
      date := CardDate(m.d, m.m, m.y, m.time, m.ampm, now);
      channel := Some("Card");
    } else {
      return;
    }

    matched := Record(ctx, Extracted(payee, amount, date, last4.value, channel.value), txnId, billId);
  }

  /**
   * The second half of `import(_:into:)`: inserts the transaction for the extracted
   * fields, then adds the amount to an open bill of the card or opens a new one.
   */
  method Record(ctx: ModelContext, e: Extracted, txnId: Uuid, billId: Uuid) returns (matched: Option<nat>)
    modifies ctx
    ensures ImportEffect(old(ctx.bills), old(ctx.transactions), ctx.bills, ctx.transactions,
                         Some(e), matched, txnId, billId)
  {
    matched := None;
    var txn := MakeTransaction(txnId, e.date, e.payee, e.amount, Some(e.last4), Some(e.channel), TxnOther);
    ctx.transactions := ctx.transactions + [txn];

    var digits := e.last4;
    if j :| 0 <= j < |ctx.bills| && OpenCardBill(ctx.bills[j], digits) {
      var bill := ctx.bills[j];
      ctx.bills := ctx.bills[j := bill.(amount := bill.amount + e.amount)];
      matched := Some(j);
    } else {
      var due := LastDayOfMonthAt(e.date, 23, 59);
      var newBill := MakeBill(billId, "Credit Card " + digits, due, e.amount,
                              Utilities, Card, Monthly, cardLast4 := Some(digits));
      ctx.bills := ctx.bills + [newBill];
    }
  }
}
