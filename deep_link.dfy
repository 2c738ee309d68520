/**
 * `DeepLinkHandler.handle`: a link `billmind://sms?body=...` hands the decoded
 * message body to the SMS importer; every other link leaves the store as it is.
 * The importer's two regular expressions are parameters: `hnbRegex` and
 * `cardRegex` give the match each of them finds in a message, if any.
 */
module DeepLinks {
  import opened Wrappers
  import opened Calendar
  import opened Bills
  import opened Transactions
  import opened Storage
  import opened SmsImport
  import opened QueryItems
  import opened Percent

  /**
   * The message a link carries: scheme "billmind", host "sms", and a `body`
   * query value whose percent-encoding can be removed.
   */
  function SmsBody(url: Url): (r: Option<string>)
    ensures r.Some? ==> url.scheme == Some("billmind") && url.host == Some("sms")
    ensures r.Some? ==> exists v :: QueryDict(url) == Some(v) && "body" in v && RemovingPercentEncoding(v["body"]) == r
  {
    if url.scheme != Some("billmind") || url.host != Some("sms") then None
    else match QueryDict(url) {
      case None => None
      case Some(dict) => if "body" in dict then RemovingPercentEncoding(dict["body"]) else None
    }
  }

  /** The last `body` item decides: its value, with percent-encoding removed. */
  lemma SmsBodyFromLastItem(items: seq<QueryItem>, i: int)
    requires LastNamed(items, "body", i)
    ensures var url := Url(Some("billmind"), Some("sms"), Some(items));
      SmsBody(url) == if items[i].value.Some? then RemovingPercentEncoding(items[i].value.value) else None
  {
    LastItemWins(items, "body", i);
  }

  /** A link whose last `body` item is a percent-encoded text carries exactly that text. */
  lemma SmsBodyOfEncodedText(items: seq<QueryItem>, text: string)
    requires |items| > 0 && items[|items| - 1] == QueryItem("body", Some(PercentEncoded(text)))
    ensures SmsBody(Url(Some("billmind"), Some("sms"), Some(items))) == Some(text)
  {
    SmsBodyFromLastItem(items, |items| - 1);
    PercentRoundTrip(text);
  }

  /** A link without any `body` item, or without a query, carries no message. */
  lemma NoBodyNoMessage(url: Url)
    requires url.query.None? || forall i :: 0 <= i < |url.query.value| ==> url.query.value[i].name != "body"
    ensures SmsBody(url) == None
  {
    if url.query.Some? {
      AbsentNameAbsent(url.query.value, "body");
    }
  }

  /**
   * `handle(_:context:)`: imports the message of an SMS link into `ctx`, with the
   * effect `import(_:into:)` has; any other link changes nothing.
   */
  method Handle(url: Url, ctx: ModelContext, hnbRegex: string -> Option<HnbMatch>, cardRegex: string -> Option<CardMatch>,
                now: Date, txnId: Uuid, billId: Uuid)
    returns (body: Option<string>, matched: Option<nat>)
    modifies ctx
    ensures body == SmsBody(url)
    ensures body.None? ==> ctx.bills == old(ctx.bills) && ctx.transactions == old(ctx.transactions) && matched == None
    ensures body.Some? ==>
      ImportEffect(old(ctx.bills), old(ctx.transactions), ctx.bills, ctx.transactions,
                   Extract(hnbRegex(body.value), cardRegex(body.value), now), matched, txnId, billId)
  {
    body, matched := None, None;
    if url.scheme != Some("billmind") {
      return;
    }
    if url.host == Some("sms") {
      var query := QueryDict(url);
      if query.Some? && "body" in query.value {
        body := RemovingPercentEncoding(query.value["body"]);
        if body.Some? {
          matched := Import(ctx, hnbRegex(body.value), cardRegex(body.value), now, txnId, billId);
        }
      }
    }
  }
}
