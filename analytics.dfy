/**
 * The analytics screen's computations: the selected timeframe and the one before
 * it, the bills and transactions inside the timeframe, the key metrics and their
 * trends against the previous period, the daily spending series and the category
 * and payment-method breakdowns.
 *
 * The current time is a parameter `now`, and the locale's first day of the week a
 * parameter `firstWeekday` (1 = Sunday).
 */
module Analytics {
  import opened Wrappers
  import opened Calendar
  import opened Seqs
  import opened DateGroups
  import opened Bills
  import opened Transactions
  import opened Predictor

  // ---------------------------------------------------------------------------
  // Timeframes
  // ---------------------------------------------------------------------------

  datatype Timeframe = Week | Month | Quarter | Year {
    function DisplayName(): string {
      match this
      case Week => "Week"
      case Month => "Month"
      case Quarter => "Quarter"
      case Year => "Year"
    }
  }

  /** The picker's labels tell the timeframes apart. */
  lemma DisplayNamesDistinct(a: Timeframe, b: Timeframe)
    ensures a.DisplayName() == b.DisplayName() <==> a == b
  {
    if a != b {
      assert a.DisplayName()[0] != b.DisplayName()[0] || |a.DisplayName()| != |b.DisplayName()|;
    }
  }

  /** `startDate`: the start of the week, month, quarter or year containing `now`. */
  function StartDate(tf: Timeframe, now: Date, firstWeekday: int): (r: Date)
    requires 1 <= firstWeekday <= 7
    ensures NotBefore(now, r) && SecondOfDay(r) == 0
    ensures tf == Week ==> Weekday(r) == firstWeekday && DayNumber(now) - 6 <= DayNumber(r)
    ensures tf != Week ==> r.day == 1 && r.year == now.year
    ensures tf == Month ==> r.month == now.month
    ensures tf == Quarter ==> r.month in {1, 4, 7, 10} && r.month <= now.month < r.month + 3
    ensures tf == Year ==> r.month == 1
  {
    match tf
    case Week => StartOfWeek(now, firstWeekday)
    case Month => StartOfMonth(now)
    case Quarter => StartOfQuarter(now)
    case Year => StartOfYear(now)
  }

  /**
   * `previousStartDate`: the start of the timeframe before the current one, one
   * week, one month, three months or one year earlier.
   */
  function PreviousStartDate(tf: Timeframe, now: Date, firstWeekday: int): (r: Date)
    requires 1 <= firstWeekday <= 7
    ensures Before(r, StartDate(tf, now, firstWeekday)) && SecondOfDay(r) == 0
    ensures tf == Week ==> DayNumber(r) == DayNumber(StartDate(tf, now, firstWeekday)) - 7 && Weekday(r) == firstWeekday
    ensures tf != Week ==> r.day == 1
    ensures tf == Month ==> MonthIndex(r) == MonthIndex(StartDate(tf, now, firstWeekday)) - 1
    ensures tf == Quarter ==> MonthIndex(r) == MonthIndex(StartDate(tf, now, firstWeekday)) - 3 && r.month in {1, 4, 7, 10}
    ensures tf == Year ==> r.year == now.year - 1 && r.month == 1
  {
    var start := StartDate(tf, now, firstWeekday);
    match tf
    case Week =>
      var r := AddDays(start, -7);
      WeekBack(r, start);
      r
    case Month =>
      AddMonthsEarlier(start, -1);
      AddMonths(start, -1)
    case Quarter =>
      QuarterBack(start);
      AddMonths(start, -3)
    case Year =>
      AddYearsEarlier(start, -1);
      AddYears(start, -1)
  }

  /** A day seven days before another falls on the same weekday. */
  lemma WeekBack(r: Date, d: Date)
    requires DayNumber(r) == DayNumber(d) - 7
    ensures Weekday(r) == Weekday(d)
  {
    ModSeven(DayNumber(d) + 1);
  }

  lemma ModSeven(n: int)
    ensures (n - 7) % 7 == n % 7
  {
    assert n - 7 == (n / 7 - 1) * 7 + n % 7;
  }

  /** Three months back from the first month of a quarter is the first month of a quarter, strictly earlier. */
  lemma QuarterBack(d: Date)
    requires d.month in {1, 4, 7, 10}
    ensures AddMonths(d, -3).month in {1, 4, 7, 10}
    ensures Before(AddMonths(d, -3), d)
  {
    AddMonthsEarlier(d, -3);
    var r := AddMonths(d, -3);
    assert r.year * 12 + r.month == d.year * 12 + d.month - 3;
  }

  // ---------------------------------------------------------------------------
  // The bills and transactions on screen
  // ---------------------------------------------------------------------------

  /** A bill is shown when it is due at or after the timeframe's start and matches the category filter. */
  predicate Shown(b: Bill, start: Date, category: Option<Category>) {
    NotBefore(b.date, start) && (category.None? || b.categoryRaw == category.value)
  }

  /** `filteredBills`. */
  function FilteredBills(
    bills: seq<Bill>, tf: Timeframe, now: Date, firstWeekday: int, category: Option<Category>): (r: seq<Bill>)
    requires 1 <= firstWeekday <= 7
    ensures forall b :: b in r <==>
      b in bills && NotBefore(b.date, StartDate(tf, now, firstWeekday))
      && (category.None? || b.categoryRaw == category.value)
    ensures |r| <= |bills|
  {
    var start := StartDate(tf, now, firstWeekday);
    Filter(bills, (b: Bill) => Shown(b, start, category))
  }

  /** Choosing a category only narrows the bills shown for "All Categories". */
  lemma FilteredBillsNarrowed(
    bills: seq<Bill>, tf: Timeframe, now: Date, firstWeekday: int, c: Category)
    requires 1 <= firstWeekday <= 7
    ensures |FilteredBills(bills, tf, now, firstWeekday, Some(c))| <= |FilteredBills(bills, tf, now, firstWeekday, None)|
    ensures forall b :: b in FilteredBills(bills, tf, now, firstWeekday, Some(c)) ==>
      b in FilteredBills(bills, tf, now, firstWeekday, None) && b.categoryRaw == c
  {
    var start := StartDate(tf, now, firstWeekday);
    FilterWeakerCount(bills, (b: Bill) => Shown(b, start, Some(c)), (b: Bill) => Shown(b, start, None));
  }

  /** `filteredTransactions`: the transactions at or after the timeframe's start. */
  function FilteredTransactions(
    transactions: seq<Transaction>, tf: Timeframe, now: Date, firstWeekday: int): (r: seq<Transaction>)
    requires 1 <= firstWeekday <= 7
    ensures forall t :: t in r <==> t in transactions && NotBefore(t.date, StartDate(tf, now, firstWeekday))
    ensures |r| <= |transactions|
  {
    var start := StartDate(tf, now, firstWeekday);
    Filter(transactions, (t: Transaction) => NotBefore(t.date, start))
  }

  // ---------------------------------------------------------------------------
  // The previous period and the trends
  // ---------------------------------------------------------------------------

  /** A bill falls in the previous period: from its start up to, not including, the current start. */
  predicate InPreviousPeriod(b: Bill, previous: Date, start: Date) {
    NotBefore(b.date, previous) && Before(b.date, start)
  }

  /** The bills of the previous period, over every category. */
  function PreviousPeriodBills(bills: seq<Bill>, tf: Timeframe, now: Date, firstWeekday: int): (r: seq<Bill>)
    requires 1 <= firstWeekday <= 7
    ensures forall b :: b in r <==> (b in bills
      && NotBefore(b.date, PreviousStartDate(tf, now, firstWeekday))
      && Before(b.date, StartDate(tf, now, firstWeekday)))
  {
    var previous, start := PreviousStartDate(tf, now, firstWeekday), StartDate(tf, now, firstWeekday);
    Filter(bills, (b: Bill) => InPreviousPeriod(b, previous, start))
  }

  /** `calculatePreviousPeriodSpending()`. */
  function PreviousPeriodSpending(bills: seq<Bill>, tf: Timeframe, now: Date, firstWeekday: int): (r: real)
    requires 1 <= firstWeekday <= 7
    ensures (forall b :: b in bills ==> b.amount >= 0.0) ==> 0.0 <= r <= TotalSpent(bills)
    ensures (forall b :: b in bills ==>
      !InPreviousPeriod(b, PreviousStartDate(tf, now, firstWeekday), StartDate(tf, now, firstWeekday))) ==> r == 0.0
  {
    var previous, start := PreviousStartDate(tf, now, firstWeekday), StartDate(tf, now, firstWeekday);
    var shown := PreviousPeriodBills(bills, tf, now, firstWeekday);
    assert shown == Filter(bills, (b: Bill) => InPreviousPeriod(b, previous, start));
    FilteredTotalBounds(bills, (b: Bill) => InPreviousPeriod(b, previous, start));
    NoneKept(shown);
    TotalSpent(shown)
  }

  /** `calculatePreviousPeriodBillCount()`. */
  function PreviousPeriodBillCount(bills: seq<Bill>, tf: Timeframe, now: Date, firstWeekday: int): (r: nat)
    requires 1 <= firstWeekday <= 7
    ensures r <= |bills|
    ensures r == 0 <==> forall b :: b in bills ==>
      !InPreviousPeriod(b, PreviousStartDate(tf, now, firstWeekday), StartDate(tf, now, firstWeekday))
  {
    var shown := PreviousPeriodBills(bills, tf, now, firstWeekday);
    NoneKept(shown);
    |shown|
  }

  /** A sequence with no member is empty. */
  lemma NoneKept(s: seq<Bill>)
    ensures (forall b :: b !in s) <==> s == []
  {
    if s != [] {
      assert s[0] in s;
    }
  }

  /** The previous period and the current timeframe share no bill, whatever the category filter. */
  lemma PeriodsDisjoint(
    bills: seq<Bill>, tf: Timeframe, now: Date, firstWeekday: int, category: Option<Category>)
    requires 1 <= firstWeekday <= 7
    ensures forall b :: b in PreviousPeriodBills(bills, tf, now, firstWeekday) ==>
      b !in FilteredBills(bills, tf, now, firstWeekday, category)
  {
  }

  /**
   * `spendingTrend`: the percentage change from `previous` to `current`, 0 when
   * there was nothing before.
   */
  function Trend(current: real, previous: real): (r: real)
    ensures previous == 0.0 ==> r == 0.0
    ensures previous != 0.0 ==> previous * (1.0 + r / 100.0) == current
    ensures previous > 0.0 ==> (r > 0.0 <==> current > previous) && (r == 0.0 <==> current == previous)
  {
    if previous == 0.0 then 0.0
    else
      var r := (current - previous) / previous * 100.0;
      assert (current - previous) / previous * previous == current - previous;
      r
  }

  /** `billsTrend`: the same percentage change on bill counts, with the difference taken in `Int`. */
  function CountTrend(current: int, previous: int): (r: real)
    ensures r == Trend(current as real, previous as real)
  {
    if previous == 0 then 0.0 else (current - previous) as real / previous as real * 100.0
  }

  /** The spending trend of the screen: this timeframe's bills against the previous period's. */
  function SpendingTrend(
    bills: seq<Bill>, tf: Timeframe, now: Date, firstWeekday: int, category: Option<Category>): (r: real)
    requires 1 <= firstWeekday <= 7
    ensures PreviousPeriodSpending(bills, tf, now, firstWeekday) == 0.0 ==> r == 0.0
    ensures PreviousPeriodSpending(bills, tf, now, firstWeekday) > 0.0 ==>
      (r > 0.0 <==> TotalSpent(FilteredBills(bills, tf, now, firstWeekday, category)) > PreviousPeriodSpending(bills, tf, now, firstWeekday))
  {
    Trend(TotalSpent(FilteredBills(bills, tf, now, firstWeekday, category)),
          PreviousPeriodSpending(bills, tf, now, firstWeekday))
  }

  /** The bills-count trend of the screen. */
  function BillsTrend(
    bills: seq<Bill>, tf: Timeframe, now: Date, firstWeekday: int, category: Option<Category>): (r: real)
    requires 1 <= firstWeekday <= 7
    ensures PreviousPeriodBillCount(bills, tf, now, firstWeekday) == 0 ==> r == 0.0
    ensures PreviousPeriodBillCount(bills, tf, now, firstWeekday) > 0 ==>
      (r > 0.0 <==> |FilteredBills(bills, tf, now, firstWeekday, category)| > PreviousPeriodBillCount(bills, tf, now, firstWeekday))
  {
    CountTrend(|FilteredBills(bills, tf, now, firstWeekday, category)|, PreviousPeriodBillCount(bills, tf, now, firstWeekday))
  }

  /** With no bills in the previous period both trends read 0. */
  lemma TrendsWithoutHistory(
    bills: seq<Bill>, tf: Timeframe, now: Date, firstWeekday: int, category: Option<Category>)
    requires 1 <= firstWeekday <= 7
    requires PreviousPeriodBills(bills, tf, now, firstWeekday) == []
    ensures SpendingTrend(bills, tf, now, firstWeekday, category) == 0.0
    ensures BillsTrend(bills, tf, now, firstWeekday, category) == 0.0
  {
  }

  // ---------------------------------------------------------------------------
  // The daily series and the breakdowns
  // ---------------------------------------------------------------------------

  function DayKey(b: Bill): Date {
    StartOfDay(b.date)
  }

  /** `spendingData`: one point per day that has bills, in increasing date order. */
  function SpendingData(shown: seq<Bill>): (r: seq<Entry<Date>>)
    ensures Increasing(r)
    ensures forall k :: k in Keys(r) <==> exists b :: b in shown && DayKey(b) == k
  {
    var r := GroupByDate(shown, DayKey, BillAmount);
    assert forall k :: k in KeysOf(shown, DayKey) <==> exists b :: b in shown && DayKey(b) == k by {
      forall k ensures k in KeysOf(shown, DayKey) <==> exists b :: b in shown && DayKey(b) == k {
        if k in KeysOf(shown, DayKey) {
          var i :| 0 <= i < |shown| && KeysOf(shown, DayKey)[i] == k;
          assert shown[i] in shown;
        }
        if exists b :: b in shown && DayKey(b) == k {
          var b :| b in shown && DayKey(b) == k;
          var i :| 0 <= i < |shown| && shown[i] == b;
          assert KeysOf(shown, DayKey)[i] == k;
        }
      }
    }
    r
  }

  /** Each point holds the day's spending, and the points add up to the total spent. */
  lemma SpendingDataSums(shown: seq<Bill>, i: nat)
    requires i < |SpendingData(shown)|
    ensures SpendingData(shown)[i].amount == Sum(ByKey(shown, DayKey, SpendingData(shown)[i].key), BillAmount)
    ensures Total(SpendingData(shown)) == TotalSpent(shown)
  {
    var r := SpendingData(shown);
    EntryIsAmountFor(r, i);
    GroupByDateAmounts(shown, DayKey, BillAmount, r[i].key);
    GroupByDateTotal(shown, DayKey, BillAmount);
  }

  function NegAmount<K>(e: Entry<K>): real {
    -e.amount
  }

  /**
   * One entry per key that has bills, holding the sum of those bills' amounts,
   * sorted by decreasing amount.
   */
  function Breakdown<K(==,!new)>(keys: seq<K>, shown: seq<Bill>, keyOf: Bill -> K): (r: seq<Entry<K>>)
    ensures forall i, j :: 0 <= i < j < |r| ==> r[i].amount >= r[j].amount
    ensures forall e :: e in r ==> ByKey(shown, keyOf, e.key) != [] && e.amount == Sum(ByKey(shown, keyOf, e.key), BillAmount)
    ensures multiset(r) == multiset(GroupTotals(keys, shown, keyOf, BillAmount))
  {
    var g := GroupTotals(keys, shown, keyOf, BillAmount);
    var r := SortBy(g, NegAmount);
    forall e | e in r ensures e in g {
      assert e in multiset(r);
    }
    forall i, j | 0 <= i < j < |r| ensures r[i].amount >= r[j].amount {
      assert NegAmount(r[i]) <= NegAmount(r[j]);
    }
    r
  }

  /** A key has an entry exactly when it is listed and some bill has it. */
  lemma BreakdownKeys<K(!new)>(keys: seq<K>, shown: seq<Bill>, keyOf: Bill -> K, k: K)
    ensures k in Keys(Breakdown(keys, shown, keyOf)) <==> k in keys && exists b :: b in shown && keyOf(b) == k
  {
    var g := GroupTotals(keys, shown, keyOf, BillAmount);
    var r := Breakdown(keys, shown, keyOf);
    GroupTotalsKeys(keys, shown, keyOf, BillAmount, k);
    if k in Keys(r) {
      var i :| 0 <= i < |r| && Keys(r)[i] == k;
      assert r[i] in multiset(g);
      var j :| 0 <= j < |g| && g[j] == r[i];
      assert Keys(g)[j] == k;
    }
    if k in Keys(g) {
      var j :| 0 <= j < |g| && Keys(g)[j] == k;
      assert g[j] in multiset(r);
      var i :| 0 <= i < |r| && r[i] == g[j];
      assert Keys(r)[i] == k;
    }
  }

  /** When the keys cover every bill, the entries add up to the total spent. */
  lemma BreakdownTotal<K(!new)>(keys: seq<K>, shown: seq<Bill>, keyOf: Bill -> K, rank: K -> int)
    requires StrictlyRanked(keys, rank)
    requires forall b :: b in shown ==> keyOf(b) in keys
    ensures Total(Breakdown(keys, shown, keyOf)) == TotalSpent(shown)
  {
    SumPermutation(Breakdown(keys, shown, keyOf), GroupTotals(keys, shown, keyOf, BillAmount), EntryAmount);
    GroupTotalsConserve(keys, shown, keyOf, BillAmount, rank);
  }

  /** In a list of strictly ranked keys no entry occurs twice. */
  lemma {:induction false} RankedEntriesOnce<K>(es: seq<Entry<K>>, rank: K -> int, e: Entry<K>)
    requires StrictlyRanked(Keys(es), rank)
    ensures multiset(es)[e] <= 1
  {
    if es != [] {
      assert es == [es[0]] + es[1..];
      assert StrictlyRanked(Keys(es[1..]), rank) by {
        forall i, j | 0 <= i < j < |es[1..]| ensures rank(Keys(es[1..])[i]) < rank(Keys(es[1..])[j]) {
          assert Keys(es)[i + 1] == Keys(es[1..])[i] && Keys(es)[j + 1] == Keys(es[1..])[j];
        }
      }
      RankedEntriesOnce(es[1..], rank, e);
    }
  }

  /** Two equal members at distinct positions make a multiplicity of at least two. */
  lemma RepeatedMember<T>(s: seq<T>, i: nat, j: nat)
    requires i < j < |s| && s[i] == s[j]
    ensures multiset(s)[s[i]] >= 2
  {
    assert s == s[..j] + s[j..];
    assert s[i] in s[..j] && s[j] in s[j..];
    assert multiset(s) == multiset(s[..j]) + multiset(s[j..]);
  }

  /** No key has two entries in a breakdown. */
  lemma BreakdownKeysDistinct<K(!new)>(keys: seq<K>, shown: seq<Bill>, keyOf: Bill -> K, rank: K -> int)
    requires StrictlyRanked(keys, rank)
    ensures forall i, j :: 0 <= i < j < |Breakdown(keys, shown, keyOf)| ==>
      Breakdown(keys, shown, keyOf)[i].key != Breakdown(keys, shown, keyOf)[j].key
  {
    var g := GroupTotals(keys, shown, keyOf, BillAmount);
    var r := Breakdown(keys, shown, keyOf);
    GroupTotalsRanked(keys, shown, keyOf, BillAmount, rank);
    forall i, j | 0 <= i < j < |r| ensures r[i].key != r[j].key {
      if r[i].key == r[j].key {
        assert r[i] in r && r[j] in r;
        assert r[i] == r[j];
        RepeatedMember(r, i, j);
        RankedEntriesOnce(g, rank, r[i]);
        assert false;
      }
    }
  }

  function BillPaymentMode(b: Bill): PaymentMode {
    b.paymentModeRaw
  }

  /** `categoryData`: spending per category present, largest first. */
  function CategoryData(shown: seq<Bill>): (r: seq<Entry<Category>>)
    ensures forall i, j :: 0 <= i < j < |r| ==> r[i].amount >= r[j].amount
    ensures Total(r) == TotalSpent(shown)
  {
    CategoriesRanked();
    BreakdownTotal(AllCategories, shown, BillCategory, CategoryRank);
    Breakdown(AllCategories, shown, BillCategory)
  }

  /** `paymentMethodData`: spending per payment mode present, largest first. */
  function PaymentMethodData(shown: seq<Bill>): (r: seq<Entry<PaymentMode>>)
    ensures forall i, j :: 0 <= i < j < |r| ==> r[i].amount >= r[j].amount
    ensures Total(r) == TotalSpent(shown)
  {
    PaymentModesRanked();
    BreakdownTotal(AllPaymentModes, shown, BillPaymentMode, PaymentModeRank);
    Breakdown(AllPaymentModes, shown, BillPaymentMode)
  }

  /**
   * The category breakdown lists exactly the categories that occur, each once,
   * and adds up to the total spent.
   */
  lemma CategoryDataFacts(shown: seq<Bill>, c: Category)
    ensures c in Keys(CategoryData(shown)) <==> exists b :: b in shown && b.categoryRaw == c
    ensures forall i, j :: 0 <= i < j < |CategoryData(shown)| ==> CategoryData(shown)[i].key != CategoryData(shown)[j].key
    ensures Total(CategoryData(shown)) == TotalSpent(shown)
  {
    CategoriesRanked();
    BreakdownKeys(AllCategories, shown, BillCategory, c);
    BreakdownKeysDistinct(AllCategories, shown, BillCategory, CategoryRank);
    BreakdownTotal(AllCategories, shown, BillCategory, CategoryRank);
  }

  /**
   * The payment-method breakdown lists exactly the payment modes that occur, each
   * once, and adds up to the total spent.
   */
  lemma PaymentMethodDataFacts(shown: seq<Bill>, p: PaymentMode)
    ensures p in Keys(PaymentMethodData(shown)) <==> exists b :: b in shown && b.paymentModeRaw == p
    ensures forall i, j :: 0 <= i < j < |PaymentMethodData(shown)| ==>
      PaymentMethodData(shown)[i].key != PaymentMethodData(shown)[j].key
    ensures Total(PaymentMethodData(shown)) == TotalSpent(shown)
  {
    PaymentModesRanked();
    BreakdownKeys(AllPaymentModes, shown, BillPaymentMode, p);
    BreakdownKeysDistinct(AllPaymentModes, shown, BillPaymentMode, PaymentModeRank);
    BreakdownTotal(AllPaymentModes, shown, BillPaymentMode, PaymentModeRank);
  }

  // ---------------------------------------------------------------------------
  // Predictions
  // ---------------------------------------------------------------------------

  /** `overdueRiskPercentage`. */
  function OverdueRiskPercentage(o: Output): (r: real)
    ensures 0.0 <= o.overdueRisk <= 1.0 ==> 0.0 <= r <= 100.0
    ensures r == 0.0 <==> o.overdueRisk == 0.0
  {
    o.overdueRisk * 100.0
  }

  /** Without the learned model the percentage lies between 0 and 100. */
  lemma HeuristicRiskPercentage(bills: seq<Bill>, now: Date)
    ensures 0.0 <= OverdueRiskPercentage(HeuristicPrediction(bills, now)) <= 100.0
    ensures bills == [] ==> OverdueRiskPercentage(HeuristicPrediction(bills, now)) == 0.0
  {
    var r := HeuristicPrediction(bills, now).overdueRisk;
    assert 0.0 <= r <= 1.0;
  }
}
