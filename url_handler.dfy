/**
 * `URLHandler.handle`: the app's own scheme opens the bills or the transactions
 * view, named by the URL's host; any other URL is not handled.
 */
module UrlRouting {
  import opened Wrappers
  import opened QueryItems

  /** The views a URL can open. */
  datatype Destination = BillsView | TransactionsView

  /** The view a URL opens, if it is one the app handles. */
  function Route(url: Url): (r: Option<Destination>)
    ensures r == Some(BillsView) <==> url.scheme == Some("billmind") && url.host == Some("bills")
    ensures r == Some(TransactionsView) <==> url.scheme == Some("billmind") && url.host == Some("transactions")
  {
    if url.scheme != Some("billmind") then None
    else
      var path := if url.host.Some? then url.host.value else "";
      if path == "bills" then Some(BillsView)
      else if path == "transactions" then Some(TransactionsView)
      else None
  }

  /** `handle(_:)`: whether the URL was handled. */
  function Handle(url: Url): (handled: bool)
    ensures handled <==> url.scheme == Some("billmind") && (url.host == Some("bills") || url.host == Some("transactions"))
  {
    Route(url).Some?
  }
}
