/**
 * The `Transaction` record: one card or bank movement imported from an SMS or
 * entered by hand.
 */
module Transactions {
  import opened Wrappers
  import opened Calendar
  import opened Text
  import opened Seqs
  import opened Bills

  datatype TxnCategory = Food | Transport | Shopping | TxnUtilities | TxnOther {
    /** The `String` raw value. */
    function RawName(): string {
      match this
      case Food => "Food"
      case Transport => "Transport"
      case Shopping => "Shopping"
      case TxnUtilities => "Utilities"
      case TxnOther => "Other"
    }

    /** The SF Symbol shown for the category. */
    function Symbol(): string {
      match this
      case Food => "fork.knife"
      case Transport => "car.fill"
      case Shopping => "bag.fill"
      case TxnUtilities => "bolt.fill"
      case TxnOther => "circle.dashed"
    }
  }

  /** Every transaction category, in increasing order of raw name. */
  const AllTxnCategories: seq<TxnCategory> := [Food, TxnOther, Shopping, Transport, TxnUtilities]

  function TxnCategoryRank(c: TxnCategory): (r: int)
    ensures 0 <= r < |AllTxnCategories| && AllTxnCategories[r] == c
  {
    match c
    case Food => 0
    case TxnOther => 1
    case Shopping => 2
    case Transport => 3
    case TxnUtilities => 4
  }

  /** `AllTxnCategories` lists every transaction category once, in increasing rank. */
  lemma TxnCategoriesRanked()
    ensures StrictlyRanked(AllTxnCategories, TxnCategoryRank)
    ensures forall c :: c in AllTxnCategories
  {
    forall i | 0 <= i < |AllTxnCategories| ensures TxnCategoryRank(AllTxnCategories[i]) == i {
      if i == 0 {} else if i == 1 {} else if i == 2 {} else if i == 3 {} else {}
    }
    forall i, j | 0 <= i < j < |AllTxnCategories| ensures TxnCategoryRank(AllTxnCategories[i]) < TxnCategoryRank(AllTxnCategories[j]) {
    }
    forall c ensures c in AllTxnCategories {
      assert AllTxnCategories[TxnCategoryRank(c)] == c;
    }
  }

  /** Every category has its own non-empty symbol; utilities shows a bolt. */
  lemma TxnSymbols(a: TxnCategory, b: TxnCategory)
    ensures a.Symbol() != ""
    ensures a != b ==> a.Symbol() != b.Symbol()
    ensures TxnUtilities.Symbol() == "bolt.fill"
  {
  }

  /** Ranks order the categories exactly as Swift's `<` orders their raw names. */
  lemma TxnCategoryRankIsRawNameOrder(a: TxnCategory, b: TxnCategory)
    ensures TxnCategoryRank(a) < TxnCategoryRank(b) <==> LexLess(a.RawName(), b.RawName())
  {
    var names := ["Food", "Other", "Shopping", "Transport", "Utilities"];
    assert LexLess("Food", "Other");
    assert LexLess("Other", "Shopping");
    assert LexLess("Shopping", "Transport");
    assert LexLess("Transport", "Utilities");
    LexLessChain(names);
    var i, j := TxnCategoryRank(a), TxnCategoryRank(b);
    assert names[i] == a.RawName() && names[j] == b.RawName();
    if i < j {
      assert LexLess(names[i], names[j]);
    } else if i == j {
      LexLessIrreflexive(names[i]);
    } else {
      assert LexLess(names[j], names[i]);
      LexLessAsymmetric(names[j], names[i]);
    }
  }

  datatype Transaction = Transaction(
    id: Uuid,
    date: Date,
    payee: string,
    amount: real,
    categoryRaw: TxnCategory,
    cardLast4: Option<string>,
    channel: Option<string>)

  /** `category`: always the stored raw category. */
  function TxnCategoryOf(t: Transaction): (r: TxnCategory)
    ensures r == t.categoryRaw
  {
    t.categoryRaw
  }

  /**
   * `Transaction(id:date:payee:amount:cardLast4:channel:category:)`; the caller
   * supplies the identifier that `UUID()` would generate.
   */
  function MakeTransaction(
    id: Uuid, date: Date, payee: string, amount: real,
    cardLast4: Option<string> := None, channel: Option<string> := None,
    category: TxnCategory := TxnOther): (t: Transaction)
    ensures t.id == id && t.date == date && t.payee == payee && t.amount == amount
    ensures t.cardLast4 == cardLast4 && t.channel == channel
    ensures TxnCategoryOf(t) == category
  {
    Transaction(id, date, payee, amount, category, cardLast4, channel)
  }

  /** Omitted arguments give no card, no channel and the "Other" category. */
  lemma MakeTransactionDefaults(id: Uuid, date: Date, payee: string, amount: real)
    ensures var t := MakeTransaction(id, date, payee, amount);
      t.cardLast4 == None && t.channel == None && TxnCategoryOf(t) == TxnOther
  {
  }
}
