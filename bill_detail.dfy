/**
 * The bill detail screen: its status label and the "Mark Paid" / "Unpay" toggle,
 * which marks a recurring bill paid and files the next bill of the series.
 */
module BillDetail {
  import opened Wrappers
  import opened Calendar
  import opened Bills
  import opened Storage

  /** The status row: "Paid", else "Overdue", else "Unpaid". */
  function StatusLabel(b: Bill, now: Date): (r: string)
    ensures r == "Paid" <==> b.isPaid
    ensures r == "Overdue" <==> IsOverdue(b, now)
    ensures r == "Unpaid" <==> !b.isPaid && !Before(b.date, now)
  {
    if b.isPaid then "Paid" else if IsOverdue(b, now) then "Overdue" else "Unpaid"
  }

  /** The toggled bill: paid state flipped, paid date stamped with `now` or cleared. */
  function Toggled(b: Bill, now: Date): (r: Bill)
    ensures r.isPaid == !b.isPaid
    ensures r.isPaid <==> r.paidDate.Some?
    ensures r.isPaid ==> r.paidDate == Some(now)
    ensures r.(isPaid := b.isPaid, paidDate := b.paidDate) == b
  {
    var paid := !b.isPaid;
    b.(isPaid := paid, paidDate := if paid then Some(now) else None)
  }

  /** Toggling twice restores the paid state; an unpaid bill comes back with no paid date. */
  lemma ToggleTwice(b: Bill, t1: Date, t2: Date)
    ensures Toggled(Toggled(b, t1), t2).isPaid == b.isPaid
    ensures !b.isPaid ==> Toggled(Toggled(b, t1), t2) == b.(paidDate := None)
  {
  }

  /** Whether toggling `b` files a new bill: it becomes paid and recurs. */
  predicate Spawns(b: Bill) {
    !b.isPaid && NextDate(b).Some?
  }

  /**
   * The next bill of the series: same name, amount, category, payment mode and
   * frequency, due on the next date, unpaid, without a receipt or a card.
   */
  function Spawned(b: Bill, id: Uuid): (r: Bill)
    requires NextDate(b).Some?
    ensures r.id == id && r.date == NextDate(b).value && Before(b.date, r.date)
    ensures r.name == b.name && r.amount == b.amount
    ensures r.categoryRaw == b.categoryRaw && r.paymentModeRaw == b.paymentModeRaw
    ensures BillFrequency(r) == BillFrequency(b)
    ensures !r.isPaid && r.paidDate == None && !HasReceipt(r) && r.cardLast4 == None
  {
    MakeBill(id, b.name, NextDate(b).value, b.amount, b.categoryRaw, b.paymentModeRaw, BillFrequency(b))
  }

  /**
   * The spawned bill recurs in turn, and marking it paid later spawns the bill
   * after it: a series never stops by itself.
   */
  lemma SpawnedRecurs(b: Bill, id: Uuid)
    requires NextDate(b).Some?
    ensures NextDate(Spawned(b, id)).Some?
    ensures Spawns(Spawned(b, id))
    ensures Before(b.date, NextDate(Spawned(b, id)).value)
  {
    var r := Spawned(b, id);
    var n := NextDate(r).value;
    assert Before(r.date, n);
  }

  /** Toggling changes neither the series' date nor its frequency, so nor its next date. */
  lemma ToggledNextDate(b: Bill, now: Date)
    ensures NextDate(Toggled(b, now)) == NextDate(b)
  {
    var t := Toggled(b, now);
    assert t.date == b.date && t.frequencyRaw == b.frequencyRaw;
  }

  /**
   * `togglePaid()` on the bill stored at position `i`: flips it in place and, when it
   * has just become paid and has a next date, inserts the next bill of the series
   * (with identifier `newId`). Notification scheduling is not modelled.
   */
  method TogglePaid(ctx: ModelContext, i: nat, now: Date, newId: Uuid)
    requires i < |ctx.bills|
    modifies ctx
    ensures ctx.transactions == old(ctx.transactions)
    ensures |ctx.bills| == |old(ctx.bills)| + (if Spawns(old(ctx.bills[i])) then 1 else 0)
    ensures ctx.bills[..|old(ctx.bills)|] == old(ctx.bills)[i := Toggled(old(ctx.bills[i]), now)]
    ensures Spawns(old(ctx.bills[i])) ==> ctx.bills[|old(ctx.bills)|] == Spawned(old(ctx.bills[i]), newId)
  {
    var bill := ctx.bills[i];
    bill := bill.(isPaid := !bill.isPaid);
    bill := bill.(paidDate := if bill.isPaid then Some(now) else None);
    ctx.bills := ctx.bills[i := bill];
    if bill.isPaid {
      var next := NextDate(bill);
      if next.Some? {
        var newBill := MakeBill(newId, bill.name, next.value, bill.amount,
                                bill.categoryRaw, bill.paymentModeRaw, BillFrequency(bill));
        ctx.bills := ctx.bills + [newBill];
      }
    }
  }
}
