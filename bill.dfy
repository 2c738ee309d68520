/**
 * The `Bill` record: its enumerations, stored fields, `init` defaults and the
 * computed properties `frequency`, `isOverdue`, `hasReceipt` and `nextDate()`.
 * One model serves both copies of the record in the app (the one under `Models/`
 * and the older top-level one); it also carries the card's last four digits and
 * the ten bill categories the SMS importer, the predictor and the tests use.
 */
module Bills {
  import opened Wrappers
  import opened Calendar
  import opened Text
  import opened Seqs

  // ---------------------------------------------------------------------------
  // Enumerations
  // ---------------------------------------------------------------------------

  datatype Category =
    | General | Utilities | Rent | Entertainment | Groceries
    | Healthcare | Transportation | Insurance | Education | Dining
  {
    /** The `String` raw value. */
    function RawName(): string {
      match this
      case General => "General"
      case Utilities => "Utilities"
      case Rent => "Rent"
      case Entertainment => "Entertainment"
      case Groceries => "Groceries"
      case Healthcare => "Healthcare"
      case Transportation => "Transportation"
      case Insurance => "Insurance"
      case Education => "Education"
      case Dining => "Dining"
    }

    /** The SF Symbol shown for the category. */
    function Symbol(): string {
      match this
      case General => "doc.text"
      case Utilities => "bolt.fill"
      case Rent => "house.fill"
      case Entertainment => "gamecontroller.fill"
      case Groceries => "cart.fill"
      case Healthcare => "cross.fill"
      case Transportation => "car.fill"
      case Insurance => "shield.fill"
      case Education => "book.fill"
      case Dining => "fork.knife"
    }
  }

  /** Every category, in increasing order of raw name (the order `sorted` by raw value gives). */
  const AllCategories: seq<Category> :=
    [Dining, Education, Entertainment, General, Groceries,
     Healthcare, Insurance, Rent, Transportation, Utilities]

  /** Position of a category in `AllCategories`. */
  function CategoryRank(c: Category): (r: int)
    ensures 0 <= r < |AllCategories| && AllCategories[r] == c
  {
    match c
    case Dining => 0
    case Education => 1
    case Entertainment => 2
    case General => 3
    case Groceries => 4
    case Healthcare => 5
    case Insurance => 6
    case Rent => 7
    case Transportation => 8
    case Utilities => 9
  }

  /**
   * `AllCategories` lists every category once, in increasing rank, so it can serve
   * as the key order of a grouping by category.
   */
  lemma CategoriesRanked()
    ensures StrictlyRanked(AllCategories, CategoryRank)
    ensures forall c :: c in AllCategories
  {
    forall i | 0 <= i < |AllCategories| ensures CategoryRank(AllCategories[i]) == i {
      if i == 0 {} else if i == 1 {} else if i == 2 {} else if i == 3 {} else if i == 4 {}
      else if i == 5 {} else if i == 6 {} else if i == 7 {} else if i == 8 {} else {}
    }
    forall i, j | 0 <= i < j < |AllCategories| ensures CategoryRank(AllCategories[i]) < CategoryRank(AllCategories[j]) {
    }
    forall c ensures c in AllCategories {
      assert AllCategories[CategoryRank(c)] == c;
    }
  }

  /** Distinct categories have distinct raw names and distinct symbols. */
  lemma CategoryNamesDistinct(a: Category, b: Category)
    requires a != b
    ensures a.RawName() != b.RawName()
    ensures a.Symbol() != b.Symbol()
  {
  }

  /**
   * Ranks order the categories exactly as Swift's `<` orders their raw names, so a
   * list of categories in increasing rank is a list sorted by raw name.
   */
  lemma CategoryRankIsRawNameOrder(a: Category, b: Category)
    ensures CategoryRank(a) < CategoryRank(b) <==> LexLess(a.RawName(), b.RawName())
  {
    var names := CategoryNamesInRankOrder;
    CategoryNamesSorted();
    var i, j := CategoryRank(a), CategoryRank(b);
    CategoryNameAtRank(a);
    CategoryNameAtRank(b);
    if i < j {
      assert LexLess(names[i], names[j]);
    } else if i == j {
      LexLessIrreflexive(names[i]);
    } else {
      assert LexLess(names[j], names[i]);
      LexLessAsymmetric(names[j], names[i]);
    }
  }

  /** The raw names of `AllCategories`, in rank order. */
  const CategoryNamesInRankOrder: seq<string> :=
    ["Dining", "Education", "Entertainment", "General", "Groceries",
     "Healthcare", "Insurance", "Rent", "Transportation", "Utilities"]

  lemma CategoryNameAtRank(c: Category)
    ensures CategoryRank(c) < |CategoryNamesInRankOrder| && CategoryNamesInRankOrder[CategoryRank(c)] == c.RawName()
  {
  }

  lemma CategoryNamesSorted()
    ensures forall i, j :: 0 <= i < j < |CategoryNamesInRankOrder| ==>
      LexLess(CategoryNamesInRankOrder[i], CategoryNamesInRankOrder[j])
  {
    assert LexLess("Dining", "Education");
    assert LexLess("Education", "Entertainment");
    assert LexLess("Entertainment", "General");
    assert LexLess("General", "Groceries");
    assert LexLess("Groceries", "Healthcare");
    assert LexLess("Healthcare", "Insurance");
    assert LexLess("Insurance", "Rent");
    assert LexLess("Rent", "Transportation");
    assert LexLess("Transportation", "Utilities");
    LexLessChain(CategoryNamesInRankOrder);
  }


  datatype PaymentMode = Cash | Card | Bank | Other {
    function RawName(): string {
      match this
      case Cash => "Cash"
      case Card => "Card"
      case Bank => "Bank Transfer"
      case Other => "Other"
    }
  }

  /** Every payment mode, in declaration order. */
  const AllPaymentModes: seq<PaymentMode> := [Cash, Card, Bank, Other]

  function PaymentModeRank(p: PaymentMode): (r: int)
    ensures 0 <= r < |AllPaymentModes| && AllPaymentModes[r] == p
  {
    match p
    case Cash => 0
    case Card => 1
    case Bank => 2
    case Other => 3
  }

  /** `AllPaymentModes` lists every payment mode once, in increasing rank. */
  lemma PaymentModesRanked()
    ensures StrictlyRanked(AllPaymentModes, PaymentModeRank)
    ensures forall p :: p in AllPaymentModes
  {
    forall i | 0 <= i < |AllPaymentModes| ensures PaymentModeRank(AllPaymentModes[i]) == i {
      if i == 0 {} else if i == 1 {} else if i == 2 {} else {}
    }
    forall i, j | 0 <= i < j < |AllPaymentModes| ensures PaymentModeRank(AllPaymentModes[i]) < PaymentModeRank(AllPaymentModes[j]) {
    }
    forall p ensures p in AllPaymentModes {
      assert AllPaymentModes[PaymentModeRank(p)] == p;
    }
  }

  datatype Frequency = OneOff | Daily | Weekly | Monthly | Yearly {
    /** The raw value; the one-off case is spelt with a non-breaking hyphen (U+2011). */
    function RawName(): string {
      match this
      case OneOff => "One‑off"
      case Daily => "Daily"
      case Weekly => "Weekly"
      case Monthly => "Monthly"
      case Yearly => "Yearly"
    }
  }

  // ---------------------------------------------------------------------------
  // The record
  // ---------------------------------------------------------------------------

  /** A `UUID`, represented by its `uuidString`. */
  datatype Uuid = Uuid(text: string)

  type Byte = bv8

  datatype Bill = Bill(
    id: Uuid,
    name: string,
    date: Date,
    amount: real,
    categoryRaw: Category,
    paymentModeRaw: PaymentMode,
    frequencyRaw: Option<Frequency>,
    isPaid: bool,
    paidDate: Option<Date>,
    receiptData: Option<seq<Byte>>,
    cardLast4: Option<string>)

  /**
   * `Bill(id:name:date:amount:category:paymentMode:frequency:receiptData:isPaid:paidDate:)`,
   * with the card's last four digits as an extra trailing argument. The caller
   * supplies the identifier that `UUID()` would generate.
   */
  function MakeBill(
    id: Uuid, name: string, date: Date, amount: real,
    category: Category := General, paymentMode: PaymentMode := Cash,
    frequency: Frequency := OneOff, receiptData: Option<seq<Byte>> := None,
    isPaid: bool := false, paidDate: Option<Date> := None,
    cardLast4: Option<string> := None): (b: Bill)
    ensures b.id == id && b.name == name && b.date == date && b.amount == amount
    ensures b.categoryRaw == category && b.paymentModeRaw == paymentMode
    ensures b.frequencyRaw == Some(frequency)
    ensures b.receiptData == receiptData && b.isPaid == isPaid && b.paidDate == paidDate
    ensures b.cardLast4 == cardLast4
  {
    Bill(id, name, date, amount, category, paymentMode, Some(frequency),
         isPaid, paidDate, receiptData, cardLast4)
  }

  /** A bill built from the required arguments alone gets every documented default. */
  lemma MakeBillDefaults(id: Uuid, name: string, date: Date, amount: real)
    ensures var b := MakeBill(id, name, date, amount);
      && b.categoryRaw == General && b.paymentModeRaw == Cash
      && BillFrequency(b) == OneOff && !b.isPaid && b.paidDate == None
      && !HasReceipt(b) && b.cardLast4 == None && NextDate(b) == None
  {
  }

  /** `frequency`: the stored frequency, one-off when none is stored. */
  function BillFrequency(b: Bill): (f: Frequency)
    ensures b.frequencyRaw == None ==> f == OneOff
    ensures b.frequencyRaw.Some? ==> f == b.frequencyRaw.value
  {
    b.frequencyRaw.GetOr(OneOff)
  }

  /** `isOverdue`: unpaid and due strictly before `now`. */
  predicate IsOverdue(b: Bill, now: Date) {
    !b.isPaid && Before(b.date, now)
  }

  /** A paid bill is never overdue; an unpaid one is overdue exactly when its due time has passed. */
  lemma OverdueCases(b: Bill, now: Date)
    ensures b.isPaid ==> !IsOverdue(b, now)
    ensures !b.isPaid ==> (IsOverdue(b, now) <==> Seconds(b.date) < Seconds(now))
    ensures IsOverdue(b, now) ==> !IsOverdue(b.(isPaid := true), now)
  {
  }

  /** `hasReceipt`. */
  predicate HasReceipt(b: Bill) {
    b.receiptData.Some?
  }

  /**
   * `nextDate()`: nothing for a one-off bill, otherwise the due date moved on by one
   * day, one week (seven days), one month or one year at the same time of day.
   */
  function NextDate(b: Bill): (r: Option<Date>)
    ensures r.None? <==> BillFrequency(b) == OneOff
    ensures r.Some? ==> Before(b.date, r.value)
    ensures r.Some? ==> SecondOfDay(r.value) == SecondOfDay(b.date)
    ensures BillFrequency(b) == Daily ==> DayNumber(r.value) == DayNumber(b.date) + 1
    ensures BillFrequency(b) == Weekly ==> DayNumber(r.value) == DayNumber(b.date) + 7
    ensures BillFrequency(b) == Monthly ==>
      && MonthIndex(r.value) == MonthIndex(b.date) + 1
      && r.value.day == Min(b.date.day, DaysInMonth(r.value.year, r.value.month))
    ensures BillFrequency(b) == Yearly ==>
      && r.value.year == b.date.year + 1 && r.value.month == b.date.month
      && r.value.day == Min(b.date.day, DaysInMonth(r.value.year, r.value.month))
  {
    match BillFrequency(b)
    case OneOff => None
    case Daily => Some(AddDays(b.date, 1))
    case Weekly => Some(AddDays(b.date, 7))
    case Monthly =>
      AddMonthsLater(b.date, 1);
      Some(AddMonths(b.date, 1))
    case Yearly =>
      AddYearsLater(b.date, 1);
      Some(AddYears(b.date, 1))
  }
}
