/**
 * `Dictionary(grouping:by:)` keyed by a date (a start of day or a start of month),
 * summed per key and read in increasing date order. The grouping is kept as an
 * association list sorted strictly by time, built by inserting one member at a time.
 */
module DateGroups {
  import opened Calendar
  import opened Seqs

  /** Dates strictly increase along the list, so no date has two entries. */
  predicate Increasing(es: seq<Entry<Date>>) {
    forall i, j :: 0 <= i < j < |es| ==> Before(es[i].key, es[j].key)
  }

  /** The amount recorded against `d`; 0 when `d` has no entry. */
  function AmountFor(es: seq<Entry<Date>>, d: Date): real {
    if es == [] then 0.0 else (if es[0].key == d then es[0].amount else 0.0) + AmountFor(es[1..], d)
  }

  lemma {:induction false} AmountForAbsent(es: seq<Entry<Date>>, d: Date)
    requires d !in Keys(es)
    ensures AmountFor(es, d) == 0.0
  {
    if es != [] {
      assert Keys(es[1..]) == Keys(es)[1..];
      AmountForAbsent(es[1..], d);
    }
  }

  /** In an increasing list, the first date does not occur again. */
  lemma HeadNotInTail(es: seq<Entry<Date>>)
    requires Increasing(es) && es != []
    ensures es[0].key !in Keys(es[1..])
    ensures forall k :: k in Keys(es[1..]) ==> Before(es[0].key, k)
  {
    forall k | k in Keys(es[1..]) ensures Before(es[0].key, k) {
      var i :| 0 <= i < |es[1..]| && Keys(es[1..])[i] == k;
      assert es[1..][i] == es[i + 1];
    }
  }

  /** Records `a` against `d`: added to `d`'s entry, or a new entry at its place in time. */
  function AddTo(es: seq<Entry<Date>>, d: Date, a: real): (r: seq<Entry<Date>>)
    requires Increasing(es)
    ensures Increasing(r)
    ensures forall k :: k in Keys(r) <==> k in Keys(es) || k == d
    ensures |r| <= |es| + 1
  {
    if es == [] then [Entry(d, a)]
    else if es[0].key == d then
      var r := [Entry(d, es[0].amount + a)] + es[1..];
      assert Keys(r) == [d] + Keys(es[1..]) && Keys(es) == [d] + Keys(es[1..]);
      r
    else if Before(d, es[0].key) then
      var r := [Entry(d, a)] + es;
      assert Keys(r) == [d] + Keys(es);
      assert Increasing(r) by {
        forall i, j | 0 <= i < j < |r| ensures Before(r[i].key, r[j].key) {
          if i == 0 && j > 1 {
            assert r[j] == es[j - 1];
            assert Before(es[0].key, es[j - 1].key);
          }
        }
      }
      r
    else
      SecondsInjective(d, es[0].key);
      var tail := AddTo(es[1..], d, a);
      HeadNotInTail(es);
      var r := [es[0]] + tail;
      assert Keys(r) == [es[0].key] + Keys(tail) && Keys(es) == [es[0].key] + Keys(es[1..]);
      assert Increasing(r) by {
        forall i, j | 0 <= i < j < |r| ensures Before(r[i].key, r[j].key) {
          if i == 0 {
            assert r[j] == tail[j - 1] && Keys(tail)[j - 1] == r[j].key;
          } else {
            assert r[i] == tail[i - 1] && r[j] == tail[j - 1];
          }
        }
      }
      r
  }

  /** Recording `a` against `d` raises `d`'s amount by `a` and leaves every other date alone. */
  lemma {:induction false} AddToAmounts(es: seq<Entry<Date>>, d: Date, a: real, k: Date)
    requires Increasing(es)
    ensures AmountFor(AddTo(es, d, a), k) == AmountFor(es, k) + (if k == d then a else 0.0)
  {
    if es != [] {
      if es[0].key == d {
        var r := AddTo(es, d, a);
        assert r[1..] == es[1..];
        if k == d {
          HeadNotInTail(es);
          AmountForAbsent(es[1..], d);
        }
      } else if Before(d, es[0].key) {
        assert AddTo(es, d, a)[1..] == es;
      } else {
        SecondsInjective(d, es[0].key);
        assert AddTo(es, d, a)[1..] == AddTo(es[1..], d, a);
        AddToAmounts(es[1..], d, a, k);
      }
    }
  }

  /** Recording `a` raises the grand total by `a`. */
  lemma {:induction false} AddToTotal(es: seq<Entry<Date>>, d: Date, a: real)
    requires Increasing(es)
    ensures Total(AddTo(es, d, a)) == Total(es) + a
  {
    var r := AddTo(es, d, a);
    if es == [] {
      assert Total(r) == a + Total(r[1..]);
    } else {
      assert Total(es) == es[0].amount + Total(es[1..]);
      assert Total(r) == r[0].amount + Total(r[1..]);
      if es[0].key == d {
        assert r[1..] == es[1..];
      } else if Before(d, es[0].key) {
        assert r[1..] == es;
      } else {
        SecondsInjective(d, es[0].key);
        assert r[1..] == AddTo(es[1..], d, a);
        AddToTotal(es[1..], d, a);
      }
    }
  }

  /** The key of every member, in input order. */
  function KeysOf<T>(s: seq<T>, keyOf: T -> Date): (r: seq<Date>)
    ensures |r| == |s|
    ensures forall i :: 0 <= i < |s| ==> r[i] == keyOf(s[i])
  {
    if s == [] then [] else [keyOf(s[0])] + KeysOf(s[1..], keyOf)
  }

  /**
   * The grouping of `s` by `keyOf`, summing `amt`: one entry per date that occurs,
   * in strictly increasing order of time.
   */
  function GroupByDate<T(!new)>(s: seq<T>, keyOf: T -> Date, amt: T -> real): (r: seq<Entry<Date>>)
    ensures Increasing(r)
    ensures |r| <= |s|
    ensures forall k :: k in Keys(r) <==> k in KeysOf(s, keyOf)
  {
    if s == [] then []
    else
      var r := AddTo(GroupByDate(s[1..], keyOf, amt), keyOf(s[0]), amt(s[0]));
      assert KeysOf(s, keyOf) == [keyOf(s[0])] + KeysOf(s[1..], keyOf);
      r
  }

  /** Each date's entry holds the sum of the amounts of exactly the members on that date. */
  lemma {:induction false} GroupByDateAmounts<T(!new)>(s: seq<T>, keyOf: T -> Date, amt: T -> real, k: Date)
    ensures AmountFor(GroupByDate(s, keyOf, amt), k) == Sum(ByKey(s, keyOf, k), amt)
  {
    if s != [] {
      GroupByDateAmounts(s[1..], keyOf, amt, k);
      AddToAmounts(GroupByDate(s[1..], keyOf, amt), keyOf(s[0]), amt(s[0]), k);
      var rest := ByKey(s[1..], keyOf, k);
      if keyOf(s[0]) == k {
        assert ByKey(s, keyOf, k) == [s[0]] + rest;
        assert ([s[0]] + rest)[1..] == rest;
      } else {
        assert ByKey(s, keyOf, k) == rest;
      }
    }
  }

  /** Grouping loses and duplicates nothing: the entries add up to the sum over all members. */
  lemma {:induction false} GroupByDateTotal<T(!new)>(s: seq<T>, keyOf: T -> Date, amt: T -> real)
    ensures Total(GroupByDate(s, keyOf, amt)) == Sum(s, amt)
  {
    if s != [] {
      GroupByDateTotal(s[1..], keyOf, amt);
      AddToTotal(GroupByDate(s[1..], keyOf, amt), keyOf(s[0]), amt(s[0]));
    }
  }

  /** An entry's amount, through `AmountFor`: in an increasing list it is the only one for its date. */
  lemma {:induction false} EntryIsAmountFor(es: seq<Entry<Date>>, i: nat)
    requires Increasing(es) && i < |es|
    ensures AmountFor(es, es[i].key) == es[i].amount
  {
    if i == 0 {
      HeadNotInTail(es);
      AmountForAbsent(es[1..], es[0].key);
    } else {
      assert es[0].key != es[i].key;
      assert es[1..][i - 1] == es[i];
      EntryIsAmountFor(es[1..], i - 1);
    }
  }

  /** The amounts of the entries, in date order (the dictionary's `values`). */
  function Amounts(es: seq<Entry<Date>>): (r: seq<real>)
    ensures |r| == |es|
    ensures forall i :: 0 <= i < |es| ==> r[i] == es[i].amount
  {
    if es == [] then [] else [es[0].amount] + Amounts(es[1..])
  }
}
