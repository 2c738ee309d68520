/**
 * The collection operations the views and the predictor chain together:
 * `filter`, `reduce(0) { $0 + ... }`, `sorted(by:)` and
 * `Dictionary(grouping:by:)` over a key type with a fixed, ranked set of values.
 * Amounts are exact reals.
 */
module Seqs {

  // ---------------------------------------------------------------------------
  // filter
  // ---------------------------------------------------------------------------

  function Filter<T(!new)>(s: seq<T>, p: T -> bool): (r: seq<T>)
    ensures |r| <= |s|
    ensures forall x :: x in r <==> x in s && p(x)
  {
    if s == [] then [] else (if p(s[0]) then [s[0]] else []) + Filter(s[1..], p)
  }

  /** Filtering distributes over concatenation, so kept elements keep their order. */
  lemma {:induction false} FilterAppend<T(!new)>(a: seq<T>, b: seq<T>, p: T -> bool)
    ensures Filter(a + b, p) == Filter(a, p) + Filter(b, p)
  {
    if a == [] {
      assert a + b == b;
    } else {
      assert (a + b)[1..] == a[1..] + b;
      FilterAppend(a[1..], b, p);
    }
  }

  /** Every element is kept by exactly one of `p` and `q` when they are complementary. */
  lemma {:induction false} FilterPartitionCount<T(!new)>(s: seq<T>, p: T -> bool, q: T -> bool)
    requires forall x :: q(x) == !p(x)
    ensures |Filter(s, p)| + |Filter(s, q)| == |s|
  {
    if s != [] {
      FilterPartitionCount(s[1..], p, q);
    }
  }

  /** Filtering with a stronger predicate keeps no more elements. */
  lemma {:induction false} FilterWeakerCount<T(!new)>(s: seq<T>, p: T -> bool, q: T -> bool)
    requires forall x :: p(x) ==> q(x)
    ensures |Filter(s, p)| <= |Filter(s, q)|
  {
    if s != [] {
      FilterWeakerCount(s[1..], p, q);
    }
  }

  // ---------------------------------------------------------------------------
  // reduce(0) { $0 + f($1) }
  // ---------------------------------------------------------------------------

  function Sum<T(!new)>(s: seq<T>, f: T -> real): real {
    if s == [] then 0.0 else f(s[0]) + Sum(s[1..], f)
  }

  lemma {:induction false} SumAppend<T(!new)>(a: seq<T>, b: seq<T>, f: T -> real)
    ensures Sum(a + b, f) == Sum(a, f) + Sum(b, f)
  {
    if a == [] {
      assert a + b == b;
    } else {
      assert (a + b)[1..] == a[1..] + b;
      SumAppend(a[1..], b, f);
    }
  }

  lemma {:induction false} SumNonNegative<T(!new)>(s: seq<T>, f: T -> real)
    requires forall x :: x in s ==> f(x) >= 0.0
    ensures Sum(s, f) >= 0.0
  {
    if s != [] {
      SumNonNegative(s[1..], f);
    }
  }

  /** Summing `c * f` is `c` times summing `f`. */
  lemma {:induction false} SumScale<T(!new)>(s: seq<T>, f: T -> real, g: T -> real, c: real)
    requires forall x :: g(x) == c * f(x)
    ensures Sum(s, g) == c * Sum(s, f)
  {
    if s != [] {
      SumScale(s[1..], f, g, c);
    }
  }

  /** A sum over the kept elements and one over the dropped ones make up the whole sum. */
  lemma {:induction false} SumFilterPartition<T(!new)>(s: seq<T>, p: T -> bool, q: T -> bool, f: T -> real)
    requires forall x :: q(x) == !p(x)
    ensures Sum(Filter(s, p), f) + Sum(Filter(s, q), f) == Sum(s, f)
  {
    if s != [] {
      SumFilterPartition(s[1..], p, q, f);
      var head := if p(s[0]) then [s[0]] else [];
      SumAppend(head, Filter(s[1..], p), f);
      SumAppend(if q(s[0]) then [s[0]] else [], Filter(s[1..], q), f);
    }
  }

  /** With non-negative terms, a filtered sum never exceeds the whole sum. */
  lemma SumFilterBounded<T(!new)>(s: seq<T>, p: T -> bool, f: T -> real)
    requires forall x :: x in s ==> f(x) >= 0.0
    ensures Sum(Filter(s, p), f) <= Sum(s, f)
  {
    var q := (x: T) => !p(x);
    SumFilterPartition(s, p, q, f);
    SumNonNegative(Filter(s, q), f);
  }

  /** Sums do not depend on the order of the terms. */
  lemma {:induction false} SumPermutation<T(!new)>(a: seq<T>, b: seq<T>, f: T -> real)
    requires multiset(a) == multiset(b)
    ensures Sum(a, f) == Sum(b, f)
    decreases |a|
  {
    if a == [] {
      assert |b| == |multiset(b)| == 0;
    } else {
      assert a[0] in multiset(b);
      var i :| 0 <= i < |b| && b[i] == a[0];
      var rest := b[..i] + b[i + 1..];
      MultisetWithout(a, b, i);
      SumPermutation(a[1..], rest, f);
      SumWithout(b, i, f);
    }
  }

  /** Taking the first element of `a` out of `a`, and the same value out of `b`, leaves equal multisets. */
  lemma MultisetWithout<T>(a: seq<T>, b: seq<T>, i: int)
    requires multiset(a) == multiset(b) && a != [] && 0 <= i < |b| && b[i] == a[0]
    ensures multiset(a[1..]) == multiset(b[..i] + b[i + 1..])
  {
    var rest := b[..i] + b[i + 1..];
    assert a == [a[0]] + a[1..];
    assert multiset(a) == multiset{a[0]} + multiset(a[1..]);
    assert b == (b[..i] + [b[i]]) + b[i + 1..];
    assert multiset(b) == multiset(b[..i]) + multiset{b[i]} + multiset(b[i + 1..]);
    assert multiset(rest) == multiset(b[..i]) + multiset(b[i + 1..]);
    assert multiset(b) == multiset(rest) + multiset{a[0]};
    assert multiset(a[1..]) == multiset(a) - multiset{a[0]};
    assert multiset(rest) == multiset(b) - multiset{a[0]};
  }

  /** The sum over `b` is `b[i]`'s term plus the sum over the others. */
  lemma SumWithout<T(!new)>(b: seq<T>, i: int, f: T -> real)
    requires 0 <= i < |b|
    ensures Sum(b, f) == f(b[i]) + Sum(b[..i] + b[i + 1..], f)
  {
    assert b == b[..i] + [b[i]] + b[i + 1..];
    SumAppend(b[..i] + [b[i]], b[i + 1..], f);
    SumAppend(b[..i], [b[i]], f);
    SumAppend(b[..i], b[i + 1..], f);
    assert Sum([b[i]], f) == f(b[i]);
  }

  // ---------------------------------------------------------------------------
  // sorted(by:), an insertion sort on a real-valued key (ties keep input order)
  // ---------------------------------------------------------------------------

  predicate SortedBy<T(!new)>(s: seq<T>, key: T -> real) {
    forall i, j :: 0 <= i < j < |s| ==> key(s[i]) <= key(s[j])
  }

  function InsertBy<T(!new)>(x: T, s: seq<T>, key: T -> real): (r: seq<T>)
    requires SortedBy(s, key)
    ensures SortedBy(r, key)
    ensures multiset(r) == multiset(s) + multiset{x}
    ensures |r| == |s| + 1
  {
    if s == [] || key(x) <= key(s[0]) then
      assert SortedBy([x] + s, key) by {
        forall i, j | 0 <= i < j < |s| + 1 ensures key(([x] + s)[i]) <= key(([x] + s)[j]) {
          if i > 0 {
            assert ([x] + s)[i] == s[i - 1] && ([x] + s)[j] == s[j - 1];
          } else if j > 1 {
            assert key(s[0]) <= key(s[j - 1]);
          }
        }
      }
      [x] + s
    else
      var rest := InsertBy(x, s[1..], key);
      assert s == [s[0]] + s[1..];
      InsertByHeadBound(x, s, rest, key);
      PrependSorted(s[0], rest, key);
      [s[0]] + rest
  }

  lemma InsertByHeadBound<T(!new)>(x: T, s: seq<T>, rest: seq<T>, key: T -> real)
    requires s != [] && SortedBy(s, key) && key(s[0]) < key(x)
    requires multiset(rest) == multiset(s[1..]) + multiset{x}
    ensures forall y :: y in rest ==> key(s[0]) <= key(y)
  {
    forall y | y in rest ensures key(s[0]) <= key(y) {
      assert y in multiset(rest);
      if y != x {
        assert y in multiset(s[1..]);
        var k :| 0 <= k < |s[1..]| && s[1..][k] == y;
        assert s[k + 1] == y;
      }
    }
  }

  lemma PrependSorted<T(!new)>(h: T, rest: seq<T>, key: T -> real)
    requires SortedBy(rest, key)
    requires forall y :: y in rest ==> key(h) <= key(y)
    ensures SortedBy([h] + rest, key)
  {
    forall i, j | 0 <= i < j < |rest| + 1 ensures key(([h] + rest)[i]) <= key(([h] + rest)[j]) {
      if i > 0 {
        assert ([h] + rest)[i] == rest[i - 1] && ([h] + rest)[j] == rest[j - 1];
      } else {
        assert ([h] + rest)[j] == rest[j - 1] && rest[j - 1] in rest;
      }
    }
  }

  /** The elements of `s` in non-decreasing order of `key`. */
  function SortBy<T(!new)>(s: seq<T>, key: T -> real): (r: seq<T>)
    ensures SortedBy(r, key)
    ensures multiset(r) == multiset(s)
    ensures |r| == |s|
  {
    if s == [] then []
    else
      assert s == [s[0]] + s[1..];
      InsertBy(s[0], SortBy(s[1..], key), key)
  }

  /** The last element of a sorted sequence carries the largest key. */
  lemma SortedLastIsMax<T(!new)>(s: seq<T>, key: T -> real)
    requires SortedBy(s, key) && s != []
    ensures forall x :: x in s ==> key(x) <= key(s[|s| - 1])
  {
    forall x | x in s ensures key(x) <= key(s[|s| - 1]) {
      var i :| 0 <= i < |s| && s[i] == x;
      if i < |s| - 1 {
        assert key(s[i]) <= key(s[|s| - 1]);
      }
    }
  }

  // ---------------------------------------------------------------------------
  // Dictionary(grouping:by:) over a finite, ranked key type
  // ---------------------------------------------------------------------------

  /** One group of a grouping: its key and the sum of its members' amounts. */
  datatype Entry<K> = Entry(key: K, amount: real)

  function Keys<K>(es: seq<Entry<K>>): (r: seq<K>)
    ensures |r| == |es|
    ensures forall i :: 0 <= i < |es| ==> r[i] == es[i].key
  {
    if es == [] then [] else [es[0].key] + Keys(es[1..])
  }

  function EntryAmount<K(!new)>(e: Entry<K>): real { e.amount }

  /** The grand total of a grouping. */
  function Total<K(!new)>(es: seq<Entry<K>>): real {
    Sum(es, EntryAmount)
  }

  /** The members of `s` whose key is `k`, in input order. */
  function ByKey<T(!new), K(==,!new)>(s: seq<T>, keyOf: T -> K, k: K): (r: seq<T>)
    ensures forall x :: x in r <==> x in s && keyOf(x) == k
    ensures |r| <= |s|
  {
    if s == [] then [] else (if keyOf(s[0]) == k then [s[0]] else []) + ByKey(s[1..], keyOf, k)
  }

  predicate StrictlyRanked<K>(keys: seq<K>, rank: K -> int) {
    forall i, j :: 0 <= i < j < |keys| ==> rank(keys[i]) < rank(keys[j])
  }

  /**
   * Groups `s` by `keyOf`, one entry per key that occurs, listed in the order of
   * `keys` (the caller passes the key type's values sorted as the source sorts the
   * dictionary's entries).
   */
  function GroupTotals<T(!new), K(==,!new)>(keys: seq<K>, s: seq<T>, keyOf: T -> K, amt: T -> real): (r: seq<Entry<K>>)
    ensures |r| <= |keys|
    ensures forall e :: e in r ==>
      && e.key in keys && ByKey(s, keyOf, e.key) != []
      && e.amount == Sum(ByKey(s, keyOf, e.key), amt)
  {
    if keys == [] then []
    else
      var g := ByKey(s, keyOf, keys[0]);
      (if g == [] then [] else [Entry(keys[0], Sum(g, amt))]) + GroupTotals(keys[1..], s, keyOf, amt)
  }

  /** A key has an entry exactly when it is listed and some member carries it. */
  lemma {:induction false} GroupTotalsKeys<T(!new), K(!new)>(keys: seq<K>, s: seq<T>, keyOf: T -> K, amt: T -> real, k: K)
    ensures k in Keys(GroupTotals(keys, s, keyOf, amt)) <==> k in keys && exists x :: x in s && keyOf(x) == k
  {
    var r := GroupTotals(keys, s, keyOf, amt);
    if keys != [] {
      GroupTotalsKeys(keys[1..], s, keyOf, amt, k);
      var g := ByKey(s, keyOf, keys[0]);
      var head := if g == [] then [] else [Entry(keys[0], Sum(g, amt))];
      assert Keys(r) == Keys(head) + Keys(GroupTotals(keys[1..], s, keyOf, amt));
      if k == keys[0] && g != [] {
        assert g[0] in s && keyOf(g[0]) == k;
      }
      if k == keys[0] && (exists x :: x in s && keyOf(x) == k) {
        var x :| x in s && keyOf(x) == k;
        assert x in g;
      }
    }
  }

  /** Listing the keys in increasing rank lists the entries in increasing rank. */
  lemma {:induction false} GroupTotalsRanked<T(!new), K(!new)>(keys: seq<K>, s: seq<T>, keyOf: T -> K, amt: T -> real, rank: K -> int)
    requires StrictlyRanked(keys, rank)
    ensures StrictlyRanked(Keys(GroupTotals(keys, s, keyOf, amt)), rank)
  {
    if keys != [] {
      var tail := GroupTotals(keys[1..], s, keyOf, amt);
      GroupTotalsRanked(keys[1..], s, keyOf, amt, rank);
      var g := ByKey(s, keyOf, keys[0]);
      if g != [] {
        LaterKeysRankedAbove(keys, s, keyOf, amt, rank);
        RankedCons(keys[0], Keys(tail), rank);
        assert Keys(GroupTotals(keys, s, keyOf, amt)) == [keys[0]] + Keys(tail);
      }
    }
  }

  /** Every key grouped from the keys after the first ranks above the first. */
  lemma LaterKeysRankedAbove<T(!new), K(!new)>(keys: seq<K>, s: seq<T>, keyOf: T -> K, amt: T -> real, rank: K -> int)
    requires StrictlyRanked(keys, rank) && keys != []
    ensures forall k :: k in Keys(GroupTotals(keys[1..], s, keyOf, amt)) ==> rank(keys[0]) < rank(k)
  {
    var tail := GroupTotals(keys[1..], s, keyOf, amt);
    forall k | k in Keys(tail) ensures rank(keys[0]) < rank(k) {
      var m :| 0 <= m < |tail| && Keys(tail)[m] == k;
      assert tail[m] in tail;
      var i :| 0 <= i < |keys[1..]| && keys[1..][i] == k;
      assert keys[1..][i] == keys[i + 1];
    }
  }

  /** A key ranked below every key of a ranked list can be put in front of it. */
  lemma RankedCons<K>(k: K, ks: seq<K>, rank: K -> int)
    requires StrictlyRanked(ks, rank)
    requires forall x :: x in ks ==> rank(k) < rank(x)
    ensures StrictlyRanked([k] + ks, rank)
  {
    var r := [k] + ks;
    forall i, j | 0 <= i < j < |r| ensures rank(r[i]) < rank(r[j]) {
      assert r[j] == ks[j - 1];
      if i > 0 {
        assert r[i] == ks[i - 1];
      }
    }
  }

  /** Sum, over the listed keys, of the amounts of the members carrying each key. */
  function KeySums<T(!new), K(==,!new)>(keys: seq<K>, s: seq<T>, keyOf: T -> K, amt: T -> real): real {
    if keys == [] then 0.0 else Sum(ByKey(s, keyOf, keys[0]), amt) + KeySums(keys[1..], s, keyOf, amt)
  }

  lemma {:induction false} KeySumsCons<T(!new), K(!new)>(keys: seq<K>, x: T, s: seq<T>, keyOf: T -> K, amt: T -> real, rank: K -> int)
    requires StrictlyRanked(keys, rank)
    ensures KeySums(keys, [x] + s, keyOf, amt)
      == KeySums(keys, s, keyOf, amt) + (if keyOf(x) in keys then amt(x) else 0.0)
  {
    if keys != [] {
      assert ([x] + s)[1..] == s;
      assert keys == [keys[0]] + keys[1..];
      KeySumsCons(keys[1..], x, s, keyOf, amt, rank);
      if keyOf(x) == keys[0] {
        var g := ByKey(s, keyOf, keys[0]);
        assert ByKey([x] + s, keyOf, keys[0]) == [x] + g;
        assert ([x] + g)[1..] == g;
        assert Sum([x] + g, amt) == amt(x) + Sum(g, amt);
        assert keyOf(x) !in keys[1..] by {
          forall i | 0 <= i < |keys[1..]| ensures keys[1..][i] != keyOf(x) {
            assert keys[1..][i] == keys[i + 1];
            assert rank(keys[0]) < rank(keys[i + 1]);
          }
        }
      } else {
        assert ByKey([x] + s, keyOf, keys[0]) == ByKey(s, keyOf, keys[0]);
      }
    }
  }

  lemma {:induction false} KeySumsCover<T(!new), K(!new)>(keys: seq<K>, s: seq<T>, keyOf: T -> K, amt: T -> real, rank: K -> int)
    requires StrictlyRanked(keys, rank)
    requires forall x :: x in s ==> keyOf(x) in keys
    ensures KeySums(keys, s, keyOf, amt) == Sum(s, amt)
  {
    if s == [] {
      KeySumsEmpty(keys, s, keyOf, amt);
    } else {
      assert s == [s[0]] + s[1..];
      KeySumsCover(keys, s[1..], keyOf, amt, rank);
      KeySumsCons(keys, s[0], s[1..], keyOf, amt, rank);
    }
  }

  lemma {:induction false} KeySumsEmpty<T(!new), K(!new)>(keys: seq<K>, s: seq<T>, keyOf: T -> K, amt: T -> real)
    requires s == []
    ensures KeySums(keys, s, keyOf, amt) == 0.0
  {
    if keys != [] {
      KeySumsEmpty(keys[1..], s, keyOf, amt);
    }
  }

  lemma {:induction false} GroupTotalsTotal<T(!new), K(!new)>(keys: seq<K>, s: seq<T>, keyOf: T -> K, amt: T -> real)
    ensures Total(GroupTotals(keys, s, keyOf, amt)) == KeySums(keys, s, keyOf, amt)
  {
    if keys != [] {
      GroupTotalsTotal(keys[1..], s, keyOf, amt);
      var g := ByKey(s, keyOf, keys[0]);
      var head := if g == [] then [] else [Entry(keys[0], Sum(g, amt))];
      SumAppend(head, GroupTotals(keys[1..], s, keyOf, amt), EntryAmount);
    }
  }

  /**
   * When every member's key is listed (and listed once), the groups' amounts add up
   * to the sum over all members: grouping loses and duplicates nothing.
   */
  lemma GroupTotalsConserve<T(!new), K(!new)>(keys: seq<K>, s: seq<T>, keyOf: T -> K, amt: T -> real, rank: K -> int)
    requires StrictlyRanked(keys, rank)
    requires forall x :: x in s ==> keyOf(x) in keys
    ensures Total(GroupTotals(keys, s, keyOf, amt)) == Sum(s, amt)
  {
    GroupTotalsTotal(keys, s, keyOf, amt);
    KeySumsCover(keys, s, keyOf, amt, rank);
  }

  // ---------------------------------------------------------------------------
  // Dictionary(grouping:by:).values.filter { ... }.flatMap { $0 }
  // ---------------------------------------------------------------------------

  function Flatten<T>(gs: seq<seq<T>>): seq<T> {
    if gs == [] then [] else gs[0] + Flatten(gs[1..])
  }

  /**
   * The groups of `s` by `keyOf`, visited in the order of `keys`, that are
   * non-empty and satisfy `pick`.
   */
  function PickedGroups<T(!new), K(==,!new)>(keys: seq<K>, s: seq<T>, keyOf: T -> K, pick: seq<T> -> bool): (r: seq<seq<T>>)
    ensures forall g :: g in r ==> g != [] && pick(g)
    ensures |r| <= |keys|
  {
    if keys == [] then []
    else
      var g := ByKey(s, keyOf, keys[0]);
      (if g != [] && pick(g) then [g] else []) + PickedGroups(keys[1..], s, keyOf, pick)
  }

  lemma FilterCons<T(!new)>(x: T, s: seq<T>, p: T -> bool)
    ensures Filter([x] + s, p) == (if p(x) then [x] else []) + Filter(s, p)
  {
    assert ([x] + s)[1..] == s;
  }

  lemma ByKeyCons<T(!new), K(!new)>(x: T, s: seq<T>, keyOf: T -> K, k: K)
    ensures ByKey([x] + s, keyOf, k) == (if keyOf(x) == k then [x] else []) + ByKey(s, keyOf, k)
  {
    assert ([x] + s)[1..] == s;
  }

  /** Filtering and grouping commute: a group of the kept members is the kept part of the group. */
  lemma {:induction false} ByKeyFilter<T(!new), K(!new)>(s: seq<T>, keyOf: T -> K, q: T -> bool, k: K)
    ensures ByKey(Filter(s, q), keyOf, k) == Filter(ByKey(s, keyOf, k), q)
  {
    if s != [] {
      var x, t := s[0], s[1..];
      assert s == [x] + t;
      ByKeyFilter(t, keyOf, q, k);
      FilterCons(x, t, q);
      ByKeyCons(x, t, keyOf, k);
      var ft, bt := Filter(t, q), ByKey(t, keyOf, k);
      if q(x) {
        assert Filter(s, q) == [x] + ft;
        ByKeyCons(x, ft, keyOf, k);
      } else {
        assert Filter(s, q) == ft;
      }
      if keyOf(x) == k {
        assert ByKey(s, keyOf, k) == [x] + bt;
        FilterCons(x, bt, q);
      } else {
        assert ByKey(s, keyOf, k) == bt;
      }
    }
  }

  /** A group whose members all satisfy `q` is kept whole; one with none is dropped whole. */
  lemma {:induction false} FilterAllOrNone<T(!new)>(g: seq<T>, q: T -> bool, keep: bool)
    requires forall x :: x in g ==> q(x) == keep
    ensures Filter(g, q) == if keep then g else []
  {
    if g != [] {
      FilterAllOrNone(g[1..], q, keep);
      assert g == [g[0]] + g[1..];
    }
  }

  /**
   * The flattened picked groups sum, under `amt`, to the sum over the members of `s`
   * whose group is picked, provided `keys` lists every member's key once.
   */
  lemma {:induction false} PickedGroupsSum<T(!new), K(!new)>(keys: seq<K>, s: seq<T>, keyOf: T -> K, pick: seq<T> -> bool, amt: T -> real, q: T -> bool)
    requires forall x :: q(x) == pick(ByKey(s, keyOf, keyOf(x)))
    ensures Sum(Flatten(PickedGroups(keys, s, keyOf, pick)), amt) == KeySums(keys, Filter(s, q), keyOf, amt)
  {
    if keys != [] {
      PickedGroupsSum(keys[1..], s, keyOf, pick, amt, q);
      var g := ByKey(s, keyOf, keys[0]);
      var head := if g != [] && pick(g) then [g] else [];
      var rest := PickedGroups(keys[1..], s, keyOf, pick);
      assert PickedGroups(keys, s, keyOf, pick) == head + rest;
      assert Flatten(head + rest) == (if head == [] then [] else g) + Flatten(rest) by {
        if head != [] {
          assert (head + rest)[1..] == rest;
          assert Flatten([g]) == g + [] by { assert [g][1..] == []; }
        } else {
          assert head + rest == rest;
        }
      }
      SumAppend(if head == [] then [] else g, Flatten(rest), amt);
      ByKeyFilter(s, keyOf, q, keys[0]);
      forall x | x in g ensures q(x) == pick(g) {
        assert keyOf(x) == keys[0];
      }
      FilterAllOrNone(g, q, pick(g));
      if g == [] {
        assert Filter(g, q) == [];
      }
    }
  }
}
