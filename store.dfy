/**
 * The SwiftData model context, reduced to what the app's logic reads and writes:
 * the stored bills and the stored transactions, each in insertion order.
 */
module Storage {
  import opened Bills
  import opened Transactions

  class ModelContext {
    var bills: seq<Bill>
    var transactions: seq<Transaction>

    constructor(bills: seq<Bill>, transactions: seq<Transaction>)
      ensures this.bills == bills && this.transactions == transactions
    {
      this.bills := bills;
      this.transactions := transactions;
    }
  }
}
