/**
 * The home dashboard's figures: the unpaid bills and their total, the overdue and
 * paid counts, the bills due this month and the per-category totals of the unpaid
 * bills and of the transactions, listed in increasing order of category name.
 * The older dashboard in `code/billMind/HomeDashboardView.swift` computes its
 * unpaid list, unpaid total, overdue count and category totals the same way.
 */
module Dashboard {
  import opened Calendar
  import opened Text
  import opened Seqs
  import opened Bills
  import opened Transactions
  import Predictor

  /** `unpaidBills`. */
  function UnpaidBills(bills: seq<Bill>): (r: seq<Bill>)
    ensures forall b :: b in r <==> b in bills && !b.isPaid
    ensures |r| <= |bills|
  {
    Filter(bills, (b: Bill) => !b.isPaid)
  }

  /** `unpaidTotal`. */
  function UnpaidTotal(bills: seq<Bill>): (r: real)
    ensures r + Predictor.TotalSpent(Filter(bills, (b: Bill) => b.isPaid)) == Predictor.TotalSpent(bills)
  {
    SumFilterPartition(bills, (b: Bill) => !b.isPaid, (b: Bill) => b.isPaid, Predictor.BillAmount);
    Predictor.TotalSpent(UnpaidBills(bills))
  }

  /** With non-negative amounts the unpaid total never exceeds the total of all bills. */
  lemma UnpaidTotalBounded(bills: seq<Bill>)
    requires forall b :: b in bills ==> b.amount >= 0.0
    ensures 0.0 <= UnpaidTotal(bills) <= Predictor.TotalSpent(bills)
  {
    SumFilterBounded(bills, (b: Bill) => !b.isPaid, Predictor.BillAmount);
    SumNonNegative(UnpaidBills(bills), Predictor.BillAmount);
  }

  /** `overdueCount`: the unpaid bills that are overdue at `now`. */
  function OverdueCount(bills: seq<Bill>, now: Date): (r: nat)
    ensures r <= |UnpaidBills(bills)|
  {
    |Filter(UnpaidBills(bills), (b: Bill) => IsOverdue(b, now))|
  }

  /** Only unpaid bills are overdue, so filtering the unpaid ones first changes nothing. */
  lemma OverdueCountOverAllBills(bills: seq<Bill>, now: Date)
    ensures OverdueCount(bills, now) == Predictor.OverdueCount(bills, now)
  {
    OverdueOfUnpaid(bills, now);
  }

  lemma {:induction false} OverdueOfUnpaid(bills: seq<Bill>, now: Date)
    ensures Filter(UnpaidBills(bills), (b: Bill) => IsOverdue(b, now)) == Filter(bills, (b: Bill) => IsOverdue(b, now))
  {
    var overdue := (b: Bill) => IsOverdue(b, now);
    if bills != [] {
      var b, rest := bills[0], bills[1..];
      OverdueOfUnpaid(rest, now);
      assert bills == [b] + rest;
      FilterCons(b, rest, overdue);
      FilterCons(b, rest, (b: Bill) => !b.isPaid);
      if !b.isPaid {
        assert UnpaidBills(bills) == [b] + UnpaidBills(rest);
        FilterCons(b, UnpaidBills(rest), overdue);
      } else {
        assert UnpaidBills(bills) == UnpaidBills(rest);
        assert !overdue(b);
      }
    }
  }

  /** `paidCount`. */
  function PaidCount(bills: seq<Bill>): (r: nat)
    ensures r <= |bills|
    ensures r == |bills| <==> UnpaidBills(bills) == []
  {
    FilterPartitionCount(bills, (b: Bill) => b.isPaid, (b: Bill) => !b.isPaid);
    |Filter(bills, (b: Bill) => b.isPaid)|
  }

  /** Every bill is either paid or unpaid. */
  lemma PaidAndUnpaidPartition(bills: seq<Bill>)
    ensures PaidCount(bills) + |UnpaidBills(bills)| == |bills|
  {
    FilterPartitionCount(bills, (b: Bill) => b.isPaid, (b: Bill) => !b.isPaid);
  }

  /** `billsThisMonth`: the bills due in the calendar month of `now`. */
  function BillsThisMonth(bills: seq<Bill>, now: Date): (r: nat)
    ensures r <= |bills|
    ensures r == |ByKey(bills, Predictor.MonthKey, StartOfMonth(now))|
  {
    ThisMonthBills(bills, now);
    |Filter(bills, (b: Bill) => SameMonth(b.date, now))|
  }

  /** The bills due this month are the month group of `now`, in order. */
  lemma {:induction false} ThisMonthBills(bills: seq<Bill>, now: Date)
    ensures Filter(bills, (b: Bill) => SameMonth(b.date, now)) == ByKey(bills, Predictor.MonthKey, StartOfMonth(now))
  {
    if bills != [] {
      ThisMonthBills(bills[1..], now);
      ThisMonthIsMonthGroup(bills[0], now);
    }
  }

  /** A bill is due this month exactly when it falls in the same month group as `now`. */
  lemma ThisMonthIsMonthGroup(b: Bill, now: Date)
    ensures SameMonth(b.date, now) <==> Predictor.MonthKey(b) == StartOfMonth(now)
  {
  }

  // ---------------------------------------------------------------------------
  // Category totals
  // ---------------------------------------------------------------------------

  /** `billCategoryTotals`: the unpaid bills grouped by category, in increasing order of category name. */
  function BillCategoryTotals(bills: seq<Bill>): (r: seq<Entry<Category>>)
    ensures forall e :: e in r ==>
      && Filter(UnpaidBills(bills), (b: Bill) => b.categoryRaw == e.key) != []
      && e.amount == Predictor.Spent(UnpaidBills(bills), e.key)
  {
    var r := GroupTotals(AllCategories, UnpaidBills(bills), Predictor.BillCategory, Predictor.BillAmount);
    forall e | e in r
      ensures Filter(UnpaidBills(bills), (b: Bill) => b.categoryRaw == e.key) != []
      ensures e.amount == Predictor.Spent(UnpaidBills(bills), e.key)
    {
      Predictor.SpentByKey(UnpaidBills(bills), e.key);
    }
    r
  }

  /**
   * The totals are listed in strictly increasing order of raw name, there is one
   * for each category of an unpaid bill, and they add up to the unpaid total.
   */
  lemma BillCategoryTotalsFacts(bills: seq<Bill>, c: Category)
    ensures var r := BillCategoryTotals(bills);
      forall i, j :: 0 <= i < j < |r| ==> LexLess(r[i].key.RawName(), r[j].key.RawName())
    ensures c in Keys(BillCategoryTotals(bills)) <==> exists b :: b in bills && !b.isPaid && b.categoryRaw == c
    ensures Total(BillCategoryTotals(bills)) == UnpaidTotal(bills)
  {
    var unpaid := UnpaidBills(bills);
    var r := BillCategoryTotals(bills);
    CategoriesRanked();
    GroupTotalsRanked(AllCategories, unpaid, Predictor.BillCategory, Predictor.BillAmount, CategoryRank);
    forall i, j | 0 <= i < j < |r| ensures LexLess(r[i].key.RawName(), r[j].key.RawName()) {
      assert Keys(r)[i] == r[i].key && Keys(r)[j] == r[j].key;
      CategoryRankIsRawNameOrder(r[i].key, r[j].key);
    }
    GroupTotalsKeys(AllCategories, unpaid, Predictor.BillCategory, Predictor.BillAmount, c);
    GroupTotalsConserve(AllCategories, unpaid, Predictor.BillCategory, Predictor.BillAmount, CategoryRank);
  }

  function TxnAmount(t: Transaction): real { t.amount }

  /** `txnCategoryTotals`: every transaction grouped by category, in increasing order of category name. */
  function TxnCategoryTotals(txns: seq<Transaction>): (r: seq<Entry<TxnCategory>>)
    ensures forall e :: e in r ==>
      && ByKey(txns, TxnCategoryOf, e.key) != []
      && e.amount == Sum(ByKey(txns, TxnCategoryOf, e.key), TxnAmount)
  {
    GroupTotals(AllTxnCategories, txns, TxnCategoryOf, TxnAmount)
  }

  /**
   * The totals are listed in strictly increasing order of raw name, there is one
   * for each category that occurs, and they add up to the sum of all transactions.
   */
  lemma TxnCategoryTotalsFacts(txns: seq<Transaction>, c: TxnCategory)
    ensures var r := TxnCategoryTotals(txns);
      forall i, j :: 0 <= i < j < |r| ==> LexLess(r[i].key.RawName(), r[j].key.RawName())
    ensures c in Keys(TxnCategoryTotals(txns)) <==> exists t :: t in txns && t.categoryRaw == c
    ensures Total(TxnCategoryTotals(txns)) == Sum(txns, TxnAmount)
  {
    var r := TxnCategoryTotals(txns);
    TxnCategoriesRanked();
    GroupTotalsRanked(AllTxnCategories, txns, TxnCategoryOf, TxnAmount, TxnCategoryRank);
    forall i, j | 0 <= i < j < |r| ensures LexLess(r[i].key.RawName(), r[j].key.RawName()) {
      assert Keys(r)[i] == r[i].key && Keys(r)[j] == r[j].key;
      TxnCategoryRankIsRawNameOrder(r[i].key, r[j].key);
    }
    GroupTotalsKeys(AllTxnCategories, txns, TxnCategoryOf, TxnAmount, c);
    GroupTotalsConserve(AllTxnCategories, txns, TxnCategoryOf, TxnAmount, TxnCategoryRank);
  }
}
