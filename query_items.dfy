/**
 * `URL.queryItems`: the query items of a URL folded into a dictionary from name
 * to value, item by item in order. A later item with the same name replaces an
 * earlier one, and an item without a value removes its name again.
 */
module QueryItems {
  import opened Wrappers

  /** One `name=value` pair of a query; `value` is None for a bare `name`. */
  datatype QueryItem = QueryItem(name: string, value: Option<string>)

  /**
   * The parts of a URL the app looks at, as `URLComponents` parses them:
   * `query` is None when the URL has no query or cannot be parsed.
   */
  datatype Url = Url(scheme: Option<string>, host: Option<string>, query: Option<seq<QueryItem>>)

  /** One step of the fold: `dict[item.name] = item.value`. */
  function Assign(dict: map<string, string>, item: QueryItem): (r: map<string, string>)
    ensures item.value.Some? ==> item.name in r && r[item.name] == item.value.value
    ensures item.value.None? ==> item.name !in r
    ensures forall k :: k != item.name ==> (k in r <==> k in dict) && (k in r ==> r[k] == dict[k])
  {
    if item.value.Some? then dict[item.name := item.value.value] else dict - {item.name}
  }

  /** `reduce(into: [:])` over the items, first to last. */
  function Fold(items: seq<QueryItem>): map<string, string> {
    if items == [] then map[] else Assign(Fold(items[..|items| - 1]), items[|items| - 1])
  }

  /** `queryItems`: no dictionary when the URL has no query. */
  function QueryDict(url: Url): (r: Option<map<string, string>>)
    ensures r.Some? <==> url.query.Some?
  {
    if url.query.Some? then Some(Fold(url.query.value)) else None
  }

  /** Item `i` is the last one named `k`. */
  predicate LastNamed(items: seq<QueryItem>, k: string, i: int) {
    0 <= i < |items| && items[i].name == k && forall j :: i < j < |items| ==> items[j].name != k
  }

  /** Every name in the dictionary is the name of some item. */
  lemma {:induction false} FoldKeysAreNames(items: seq<QueryItem>, k: string)
    requires k in Fold(items)
    ensures exists i :: 0 <= i < |items| && items[i].name == k
  {
    var n := |items|;
    if items[n - 1].name != k {
      FoldKeysAreNames(items[..n - 1], k);
      var i :| 0 <= i < n - 1 && items[..n - 1][i].name == k;
      assert items[i].name == k;
    }
  }

  /** A name no item carries is not in the dictionary. */
  lemma AbsentNameAbsent(items: seq<QueryItem>, k: string)
    requires forall i :: 0 <= i < |items| ==> items[i].name != k
    ensures k !in Fold(items)
  {
    if k in Fold(items) {
      FoldKeysAreNames(items, k);
    }
  }

  /** The last item named `k` decides: its value if it has one, otherwise no entry. */
  lemma {:induction false} LastItemWins(items: seq<QueryItem>, k: string, i: int)
    requires LastNamed(items, k, i)
    ensures k in Fold(items) <==> items[i].value.Some?
    ensures k in Fold(items) ==> Fold(items)[k] == items[i].value.value
  {
    var n := |items|;
    if i < n - 1 {
      assert items[n - 1].name != k;
      LastItemWins(items[..n - 1], k, i);
    }
  }

  /** Items named otherwise do not affect the entry for `k`. */
  lemma {:induction false} OtherNamesIrrelevant(items: seq<QueryItem>, k: string, extra: QueryItem)
    requires extra.name != k
    ensures k in Fold(items + [extra]) <==> k in Fold(items)
    ensures k in Fold(items) ==> Fold(items + [extra])[k] == Fold(items)[k]
  {
    assert (items + [extra])[..|items|] == items;
  }
}
