/**
 * The spending predictor: a heuristic forecast (next month's spending, the risk of
 * a bill going overdue, the savings available in high-spending categories), the
 * feature vector handed to the learned model, and `predict`, which lets the
 * learned model replace the overdue risk only.
 *
 * The learned model is a foreign component: it arrives as an optional oracle
 * `Features -> Option<real>` (absent when it failed to load, `None` when the
 * prediction throws).
 */
module Predictor {
  import opened Wrappers
  import opened Calendar
  import opened Seqs
  import opened DateGroups
  import opened Bills
  import opened Transactions

  datatype Output = Output(nextMonthSpending: real, overdueRisk: real, savingsPotential: real)

  function BillAmount(b: Bill): real { b.amount }

  function BillCategory(b: Bill): Category { b.categoryRaw }

  /** `bills.reduce(0) { $0 + $1.amount }`. */
  function TotalSpent(bills: seq<Bill>): (r: real)
    ensures bills == [] ==> r == 0.0
    ensures (forall b :: b in bills ==> b.amount >= 0.0) ==> r >= 0.0
  {
    NonNegativeTotal(bills);
    Sum(bills, BillAmount)
  }

  lemma NonNegativeTotal(bills: seq<Bill>)
    ensures (forall b :: b in bills ==> b.amount >= 0.0) ==> Sum(bills, BillAmount) >= 0.0
  {
    if forall b :: b in bills ==> b.amount >= 0.0 {
      SumNonNegative(bills, BillAmount);
    }
  }

  /** The mean bill amount, 0 for no bills. */
  function AverageBill(bills: seq<Bill>): (r: real)
    ensures bills == [] ==> r == 0.0
    ensures bills != [] ==> r * |bills| as real == TotalSpent(bills)
  {
    if bills == [] then 0.0 else TotalSpent(bills) / |bills| as real
  }

  // ---------------------------------------------------------------------------
  // Monthly totals and next month's spending
  // ---------------------------------------------------------------------------

  /** The month a bill falls in, as the first instant of that month. */
  function MonthKey(b: Bill): Date {
    StartOfMonth(b.date)
  }

  function Identity(x: real): real { x }

  /**
   * `calculateMonthlyAverages(from:)`: the bills grouped by calendar month, each
   * month's amounts summed, the sums sorted in increasing order.
   */
  function MonthlyTotals(bills: seq<Bill>): (r: seq<real>)
    ensures SortedBy(r, Identity)
    ensures multiset(r) == multiset(Amounts(GroupByDate(bills, MonthKey, BillAmount)))
    ensures |r| <= |bills|
    ensures bills == [] <==> r == []
  {
    var groups := GroupByDate(bills, MonthKey, BillAmount);
    assert bills != [] ==> groups != [] by {
      if bills != [] {
        assert KeysOf(bills, MonthKey)[0] in KeysOf(bills, MonthKey);
      }
    }
    SortBy(Amounts(groups), Identity)
  }

  /** The monthly totals add up to the total of all bills. */
  lemma MonthlyTotalsConserve(bills: seq<Bill>)
    ensures Sum(MonthlyTotals(bills), Identity) == TotalSpent(bills)
  {
    var groups := GroupByDate(bills, MonthKey, BillAmount);
    SumPermutation(MonthlyTotals(bills), Amounts(groups), Identity);
    AmountsSum(groups);
    GroupByDateTotal(bills, MonthKey, BillAmount);
  }

  lemma {:induction false} AmountsSum(es: seq<Entry<Date>>)
    ensures Sum(Amounts(es), Identity) == Total(es)
  {
    if es != [] {
      AmountsSum(es[1..]);
      assert Amounts(es)[1..] == Amounts(es[1..]);
    }
  }

  /** The last monthly total, or the total of all bills when there is none. */
  function NextMonthSpending(bills: seq<Bill>): (r: real)
    ensures bills == [] ==> r == 0.0
  {
    var totals := MonthlyTotals(bills);
    if totals == [] then TotalSpent(bills) else totals[|totals| - 1]
  }

  /** The spending of the calendar month of `b`, over all bills. */
  function MonthSpending(bills: seq<Bill>, b: Bill): real {
    Sum(ByKey(bills, MonthKey, MonthKey(b)), BillAmount)
  }

  /** No month in which a bill falls spends more than the forecast. */
  lemma NextMonthSpendingIsUpperBound(bills: seq<Bill>, b: Bill)
    requires b in bills
    ensures MonthSpending(bills, b) <= NextMonthSpending(bills)
  {
    var groups := GroupByDate(bills, MonthKey, BillAmount);
    var totals := MonthlyTotals(bills);
    var m := MonthSpending(bills, b);
    assert m in totals by {
      var i := MonthEntry(bills, b);
      assert Amounts(groups)[i] == m;
      assert m in multiset(Amounts(groups));
    }
    var last := totals[|totals| - 1];
    assert NextMonthSpending(bills) == last;
    SortedLastIsMax(totals, Identity);
    assert Identity(m) <= Identity(last);
  }

  /** For some bills, the forecast is exactly the spending of one month in which a bill falls. */
  lemma NextMonthSpendingIsAttained(bills: seq<Bill>) returns (b: Bill)
    requires bills != []
    ensures b in bills && MonthSpending(bills, b) == NextMonthSpending(bills)
  {
    var groups := GroupByDate(bills, MonthKey, BillAmount);
    var totals := MonthlyTotals(bills);
    var top := totals[|totals| - 1];
    assert NextMonthSpending(bills) == top;
    assert top in Amounts(groups) by {
      assert top in multiset(totals);
    }
    var i :| 0 <= i < |groups| && Amounts(groups)[i] == top;
    var k := groups[i].key;
    assert k in KeysOf(bills, MonthKey) by {
      assert Keys(groups)[i] == k;
    }
    var j :| 0 <= j < |bills| && KeysOf(bills, MonthKey)[j] == k;
    b := bills[j];
    assert Sum(ByKey(bills, MonthKey, k), BillAmount) == top by {
      EntryIsAmountFor(groups, i);
      GroupByDateAmounts(bills, MonthKey, BillAmount, k);
    }
  }

  /** The position of the month of `b` among the monthly groups, holding that month's spending. */
  lemma MonthEntry(bills: seq<Bill>, b: Bill) returns (i: nat)
    requires b in bills
    ensures i < |GroupByDate(bills, MonthKey, BillAmount)|
    ensures GroupByDate(bills, MonthKey, BillAmount)[i].amount == MonthSpending(bills, b)
  {
    var groups := GroupByDate(bills, MonthKey, BillAmount);
    var n :| 0 <= n < |bills| && bills[n] == b;
    assert KeysOf(bills, MonthKey)[n] == MonthKey(b);
    assert MonthKey(b) in Keys(groups);
    i :| 0 <= i < |groups| && Keys(groups)[i] == MonthKey(b);
    EntryIsAmountFor(groups, i);
    GroupByDateAmounts(bills, MonthKey, BillAmount, MonthKey(b));
  }

  // ---------------------------------------------------------------------------
  // Overdue risk and savings potential
  // ---------------------------------------------------------------------------

  /** The number of bills overdue at `now`. */
  function OverdueCount(bills: seq<Bill>, now: Date): (r: nat)
    ensures r <= |bills|
    ensures r == |Filter(bills, (b: Bill) => IsOverdue(b, now))|
  {
    |Filter(bills, (b: Bill) => IsOverdue(b, now))|
  }

  /** The share of the bills that are overdue at `now`, 0 for no bills. */
  function OverdueRisk(bills: seq<Bill>, now: Date): (r: real)
    ensures 0.0 <= r <= 1.0
    ensures bills == [] ==> r == 0.0
  {
    Share(OverdueCount(bills, now), |bills|)
  }

  /** `part / whole` as a fraction in [0, 1], and 0 for an empty whole. */
  function Share(part: nat, whole: nat): (r: real)
    requires part <= whole
    ensures 0.0 <= r <= 1.0
    ensures whole == 0 ==> r == 0.0
    ensures r * whole as real == part as real
  {
    if whole == 0 then 0.0 else part as real / whole as real
  }

  /** A tenth of a bill's amount. */
  function TenthOfAmount(b: Bill): real { b.amount * 0.1 }

  lemma SumTenth(s: seq<Bill>)
    ensures Sum(s, TenthOfAmount) == 0.1 * Sum(s, BillAmount)
  {
    forall b ensures TenthOfAmount(b) == 0.1 * BillAmount(b) {
    }
    SumScale(s, BillAmount, TenthOfAmount, 0.1);
  }

  /** A category group spends more than twice the average bill. */
  predicate HighSpending(g: seq<Bill>, avg: real) {
    Sum(g, BillAmount) > avg * 2.0
  }

  /** The bills of the high-spending categories, flattened. */
  function HighSpendingBills(bills: seq<Bill>): seq<Bill> {
    var avg := AverageBill(bills);
    Flatten(PickedGroups(AllCategories, bills, BillCategory, (g: seq<Bill>) => HighSpending(g, avg)))
  }

  /** A tenth of the spending in the high-spending categories. */
  function SavingsPotential(bills: seq<Bill>): real {
    Sum(HighSpendingBills(bills), TenthOfAmount)
  }

  /** The savings potential is a tenth of the total of the bills whose category qualifies. */
  lemma SavingsPotentialCharacterised(bills: seq<Bill>)
    ensures var avg := AverageBill(bills);
      SavingsPotential(bills)
        == 0.1 * Sum(Filter(bills, (b: Bill) => HighSpending(ByKey(bills, BillCategory, b.categoryRaw), avg)), BillAmount)
  {
    var avg := AverageBill(bills);
    var picked := HighSpendingBills(bills);
    var q := (b: Bill) => HighSpending(ByKey(bills, BillCategory, b.categoryRaw), avg);
    var kept := Filter(bills, q);
    SumTenth(picked);
    assert Sum(picked, BillAmount) == KeySums(AllCategories, kept, BillCategory, BillAmount) by {
      PickedGroupsSum(AllCategories, bills, BillCategory, (g: seq<Bill>) => HighSpending(g, avg), BillAmount, q);
    }
    assert KeySums(AllCategories, kept, BillCategory, BillAmount) == Sum(kept, BillAmount) by {
      CategoriesRanked();
      KeySumsCover(AllCategories, kept, BillCategory, BillAmount, CategoryRank);
    }
  }

  /**
   * With non-negative amounts the savings potential lies between 0 and a tenth of
   * the total spent; with no high-spending category it is 0.
   */
  lemma SavingsPotentialBounds(bills: seq<Bill>)
    requires forall b :: b in bills ==> b.amount >= 0.0
    ensures 0.0 <= SavingsPotential(bills) <= 0.1 * TotalSpent(bills)
  {
    var avg := AverageBill(bills);
    var q := (b: Bill) => HighSpending(ByKey(bills, BillCategory, b.categoryRaw), avg);
    SavingsPotentialCharacterised(bills);
    SumFilterBounded(bills, q, BillAmount);
    SumNonNegative(Filter(bills, q), BillAmount);
  }

  lemma NoHighSpendingNoSavings(bills: seq<Bill>)
    requires forall c :: !HighSpending(ByKey(bills, BillCategory, c), AverageBill(bills))
    ensures SavingsPotential(bills) == 0.0
  {
    var avg := AverageBill(bills);
    var q := (b: Bill) => HighSpending(ByKey(bills, BillCategory, b.categoryRaw), avg);
    SavingsPotentialCharacterised(bills);
    FilterAllOrNone(bills, q, false);
  }

  /** `heuristicPrediction(bills:)`. */
  function HeuristicPrediction(bills: seq<Bill>, now: Date): (o: Output)
    ensures o.nextMonthSpending == NextMonthSpending(bills)
    ensures o.overdueRisk == OverdueRisk(bills, now)
    ensures o.savingsPotential == SavingsPotential(bills)
  {
    Output(NextMonthSpending(bills), OverdueRisk(bills, now), SavingsPotential(bills))
  }

  // ---------------------------------------------------------------------------
  // The learned model's input and `predict`
  // ---------------------------------------------------------------------------

  /** `SpendingPatternsInput`. */
  datatype Features = Features(
    totalSpent: real, averageBill: real, overdueCount: int,
    groceriesSpent: real, utilitiesSpent: real, entertainmentSpent: real, transportationSpent: real,
    payDayImpact: int, month: int)

  /** `spent(for:)`: the total of the bills of one category. */
  function Spent(bills: seq<Bill>, c: Category): (r: real)
    ensures r == Sum(ByKey(bills, BillCategory, c), BillAmount)
    ensures (forall b :: b in bills ==> b.amount >= 0.0) ==> 0.0 <= r <= TotalSpent(bills)
  {
    SpentByKey(bills, c);
    FilteredTotalBounds(bills, (b: Bill) => b.categoryRaw == c);
    Sum(Filter(bills, (b: Bill) => b.categoryRaw == c), BillAmount)
  }

  /** With no negative amount, the total of any selection of the bills lies between 0 and the total. */
  lemma FilteredTotalBounds(bills: seq<Bill>, p: Bill -> bool)
    ensures (forall b :: b in bills ==> b.amount >= 0.0) ==>
      0.0 <= TotalSpent(Filter(bills, p)) <= TotalSpent(bills)
  {
    if forall b :: b in bills ==> b.amount >= 0.0 {
      SumFilterBounded(bills, p, BillAmount);
    }
  }

  /** `createTypedInput(bills:transactions:)`, with today's date as `now`. */
  function TypedInput(bills: seq<Bill>, now: Date): (f: Features)
    ensures f.totalSpent == TotalSpent(bills)
    ensures f.averageBill == AverageBill(bills) && (bills == [] ==> f.averageBill == 0.0)
    ensures f.overdueCount == OverdueCount(bills, now) && 0 <= f.overdueCount <= |bills|
    ensures f.groceriesSpent == Spent(bills, Groceries) && f.utilitiesSpent == Spent(bills, Utilities)
    ensures f.entertainmentSpent == Spent(bills, Entertainment)
    ensures f.transportationSpent == Spent(bills, Transportation)
    ensures f.payDayImpact == (if 22 <= now.day <= 28 then 1 else 0)
    ensures 1 <= f.month <= 12 && f.month == now.month
  {
    var day := now.day;
    Features(
      TotalSpent(bills), AverageBill(bills), OverdueCount(bills, now),
      Spent(bills, Groceries), Spent(bills, Utilities), Spent(bills, Entertainment), Spent(bills, Transportation),
      if 22 <= day <= 28 then 1 else 0, now.month)
  }

  /** A category's spending is the spending of its group. */
  lemma SpentIsGroupSum(bills: seq<Bill>, c: Category)
    ensures Spent(bills, c) == Sum(ByKey(bills, BillCategory, c), BillAmount)
  {
    SpentByKey(bills, c);
  }

  lemma {:induction false} SpentByKey(bills: seq<Bill>, c: Category)
    ensures Filter(bills, (b: Bill) => b.categoryRaw == c) == ByKey(bills, BillCategory, c)
  {
    if bills != [] {
      SpentByKey(bills[1..], c);
    }
  }

  /** The learned model's overdue risk: none when the model is not loaded or its prediction fails. */
  function ModelRisk(bills: seq<Bill>, now: Date, model: Option<Features -> Option<real>>): (r: Option<real>)
    ensures model.None? ==> r.None?
  {
    if model.Some? then model.value(TypedInput(bills, now)) else None
  }

  /**
   * `predict(bills:transactions:)`: the heuristic output, whose overdue risk the
   * learned model replaces when it is loaded and its prediction succeeds.
   */
  method Predict(
    bills: seq<Bill>, transactions: seq<Transaction>, now: Date, model: Option<Features -> Option<real>>)
    returns (o: Output)
    ensures o.nextMonthSpending == HeuristicPrediction(bills, now).nextMonthSpending
    ensures o.savingsPotential == HeuristicPrediction(bills, now).savingsPotential
    ensures ModelRisk(bills, now, model).None? ==> o == HeuristicPrediction(bills, now)
    ensures ModelRisk(bills, now, model).Some? ==> o.overdueRisk == ModelRisk(bills, now, model).value
  {
    o := HeuristicPrediction(bills, now);
    var risk := ModelRisk(bills, now, model);
    if risk.Some? {
      o := o.(overdueRisk := risk.value);
    }
  }
}
