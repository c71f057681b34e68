/**
 * Generic list processing used by the dashboard: JavaScript's `filter`,
 * counting and summing into keyed accumulators, the keys of an accumulator
 * object in insertion (first-seen) order, and a stable sort.
 *
 * Sequences are taken apart at their END almost everywhere, because the
 * source walks them front to back with `forEach` and appends as it goes.
 */
module Seqs {

  function Min(a: int, b: int): int { if a <= b then a else b }

  /** No value occurs twice. */
  predicate Distinct<K(==)>(xs: seq<K>) {
    forall i, j :: 0 <= i < j < |xs| ==> xs[i] != xs[j]
  }

  /** The first `n` elements, or all of them when there are fewer (`slice(0, n)`). */
  function Take<T(==,!new)>(s: seq<T>, n: nat): (r: seq<T>)
    ensures |r| == Min(n, |s|)
    ensures r == s[..|r|]
  {
    if n <= |s| then s[..n] else s
  }

  /****************************************************************
   * Filter
   ****************************************************************/

  /** The elements of `s` that satisfy `p`, in their original order. */
  function Filter<T(==,!new)>(s: seq<T>, p: T -> bool): (r: seq<T>)
    ensures |r| <= |s|
    ensures forall x :: x in r <==> x in s && p(x)
  {
    if s == [] then []
    else
      var n := |s|;
      assert s == s[..n-1] + [s[n-1]];
      Filter(s[..n-1], p) + (if p(s[n-1]) then [s[n-1]] else [])
  }

  /** The positions of `s` whose element satisfies `p`, in increasing order. */
  function KeptIndices<T(==,!new)>(s: seq<T>, p: T -> bool): (idx: seq<nat>)
    ensures forall k :: 0 <= k < |idx| ==> idx[k] < |s| && p(s[idx[k]])
    ensures forall k, l :: 0 <= k < l < |idx| ==> idx[k] < idx[l]
    ensures forall i :: 0 <= i < |s| && p(s[i]) ==> i in idx
  {
    if s == [] then []
    else
      var n := |s|;
      KeptIndices(s[..n-1], p) + (if p(s[n-1]) then [n-1] else [])
  }

  /**
   * Filtering picks out exactly the elements at the positions of
   * `KeptIndices`: the result is a subsequence of the input that keeps
   * every satisfying element, each as often as it occurs, in input order.
   */
  lemma {:induction false} FilterIsIndexSelection<T(!new)>(s: seq<T>, p: T -> bool)
    ensures |Filter(s, p)| == |KeptIndices(s, p)|
    ensures forall k :: 0 <= k < |Filter(s, p)| ==> Filter(s, p)[k] == s[KeptIndices(s, p)[k]]
  {
    if s != [] {
      var n := |s|;
      FilterIsIndexSelection(s[..n-1], p);
      var f, idx := Filter(s[..n-1], p), KeptIndices(s[..n-1], p);
      var f', idx' := Filter(s, p), KeptIndices(s, p);
      assert f' == f + (if p(s[n-1]) then [s[n-1]] else []);
      assert idx' == idx + (if p(s[n-1]) then [n-1] else []);
      forall k | 0 <= k < |f'| ensures f'[k] == s[idx'[k]] {
        if k < |f| {
          assert f'[k] == f[k] == s[..n-1][idx[k]];
        }
      }
    }
  }

  /** Filtering distributes over concatenation. */
  lemma {:induction false} FilterConcat<T(!new)>(a: seq<T>, b: seq<T>, p: T -> bool)
    ensures Filter(a + b, p) == Filter(a, p) + Filter(b, p)
    decreases |b|
  {
    if b == [] {
      assert a + b == a;
    } else {
      var n := |b|;
      assert a + b == (a + b[..n-1]) + [b[n-1]];
      assert (a + b)[..|a + b| - 1] == a + b[..n-1];
      FilterConcat(a, b[..n-1], p);
    }
  }

  /** When every element satisfies `p`, filtering changes nothing. */
  lemma {:induction false} FilterKeepsAll<T(!new)>(s: seq<T>, p: T -> bool)
    requires forall i :: 0 <= i < |s| ==> p(s[i])
    ensures Filter(s, p) == s
  {
    if s != [] {
      var n := |s|;
      FilterKeepsAll(s[..n-1], p);
      assert p(s[n-1]);
      assert Filter(s, p) == s[..n-1] + [s[n-1]];
      assert s == s[..n-1] + [s[n-1]];
    }
  }

  /** Filtering by a stronger predicate keeps no more elements. */
  lemma {:induction false} FilterStronger<T(!new)>(s: seq<T>, p: T -> bool, q: T -> bool)
    requires forall i :: 0 <= i < |s| && p(s[i]) ==> q(s[i])
    ensures |Filter(s, p)| <= |Filter(s, q)|
  {
    if s != [] {
      FilterStronger(s[..|s|-1], p, q);
    }
  }

  /** Two predicates that never hold together keep, between them, at most every element once. */
  lemma {:induction false} FilterDisjoint<T(!new)>(s: seq<T>, p: T -> bool, q: T -> bool)
    requires forall i :: 0 <= i < |s| ==> !(p(s[i]) && q(s[i]))
    ensures |Filter(s, p)| + |Filter(s, q)| <= |s|
  {
    if s != [] {
      FilterDisjoint(s[..|s|-1], p, q);
    }
  }

  lemma FilterAppend<T(!new)>(s: seq<T>, x: T, p: T -> bool)
    ensures Filter(s + [x], p) == Filter(s, p) + (if p(x) then [x] else [])
  {
    assert (s + [x])[..|s|] == s;
  }

  /**
   * Filtering keeps every satisfying element exactly as often as it
   * occurs, and nothing else.
   */
  lemma {:induction false} FilterMultiset<T(!new)>(s: seq<T>, p: T -> bool)
    ensures forall x :: multiset(Filter(s, p))[x] == if p(x) then multiset(s)[x] else 0
  {
    if s != [] {
      var n := |s|;
      FilterMultiset(s[..n-1], p);
      assert s == s[..n-1] + [s[n-1]];
    }
  }

  /** The length of a filter is the number of positions whose element satisfies `p`. */
  lemma {:induction false} FilterCount<T(!new)>(s: seq<T>, p: T -> bool)
    ensures |Filter(s, p)| == Count(s, p, true)
  {
    if s != [] {
      FilterCount(s[..|s|-1], p);
    }
  }

  /** When no element satisfies `p`, nothing is kept. */
  lemma {:induction false} FilterKeepsNone<T(!new)>(s: seq<T>, p: T -> bool)
    requires forall i :: 0 <= i < |s| ==> !p(s[i])
    ensures Filter(s, p) == []
  {
    if s != [] {
      FilterKeepsNone(s[..|s|-1], p);
    }
  }

  /****************************************************************
   * Counting and summing per key
   ****************************************************************/

  function Sum(xs: seq<int>): int {
    if xs == [] then 0 else Sum(xs[..|xs|-1]) + xs[|xs|-1]
  }

  /** How many elements of `s` have key `k`. */
  function Count<T(==,!new), K(==)>(s: seq<T>, key: T -> K, k: K): (n: nat)
    ensures n <= |s|
  {
    if s == [] then 0
    else Count(s[..|s|-1], key, k) + (if key(s[|s|-1]) == k then 1 else 0)
  }

  /** The sum of `weight` over the elements of `s` with key `k`. */
  function Total<T(==,!new), K(==)>(s: seq<T>, key: T -> K, weight: T -> int, k: K): int {
    if s == [] then 0
    else Total(s[..|s|-1], key, weight, k) + (if key(s[|s|-1]) == k then weight(s[|s|-1]) else 0)
  }

  /** The sum of `f` over the elements of `s`. */
  function SumOf<T>(s: seq<T>, f: T -> int): int {
    if s == [] then 0 else SumOf(s[..|s|-1], f) + f(s[|s|-1])
  }

  lemma SumOfThree<T>(a: T, b: T, c: T, f: T -> int)
    ensures SumOf([a, b, c], f) == f(a) + f(b) + f(c)
  {
    assert [a, b, c][..2] == [a, b];
    assert [a, b][..1] == [a];
    assert [a][..0] == [];
    assert SumOf([a], f) == f(a);
    assert SumOf([a, b], f) == f(a) + f(b);
  }

  /** `f` applied to each element. */
  function Values<T>(s: seq<T>, f: T -> int): (r: seq<int>)
    ensures |r| == |s| && forall i :: 0 <= i < |s| ==> r[i] == f(s[i])
  {
    seq(|s|, i requires 0 <= i < |s| => f(s[i]))
  }

  lemma {:induction false} SumOfValues<T(!new)>(s: seq<T>, f: T -> int)
    ensures SumOf(s, f) == Sum(Values(s, f))
  {
    if s != [] {
      var n := |s|;
      SumOfValues(s[..n-1], f);
      assert Values(s, f)[..n-1] == Values(s[..n-1], f);
    }
  }

  /** The count for each of `keys`, in the order of `keys`. */
  function Tally<T(==,!new), K(==)>(s: seq<T>, key: T -> K, keys: seq<K>): (r: seq<nat>)
    ensures |r| == |keys|
    ensures forall j :: 0 <= j < |keys| ==> r[j] == Count(s, key, keys[j])
  {
    if keys == [] then []
    else Tally(s, key, keys[..|keys|-1]) + [Count(s, key, keys[|keys|-1])]
  }

  /** The total for each of `keys`, in the order of `keys`. */
  function Totals<T(==,!new), K(==)>(s: seq<T>, key: T -> K, weight: T -> int, keys: seq<K>): (r: seq<int>)
    ensures |r| == |keys|
    ensures forall j :: 0 <= j < |keys| ==> r[j] == Total(s, key, weight, keys[j])
  {
    if keys == [] then []
    else Totals(s, key, weight, keys[..|keys|-1]) + [Total(s, key, weight, keys[|keys|-1])]
  }

  lemma CountAppend<T(!new), K>(s: seq<T>, x: T, key: T -> K, k: K)
    ensures Count(s + [x], key, k) == Count(s, key, k) + (if key(x) == k then 1 else 0)
  {
    assert (s + [x])[..|s|] == s;
  }

  lemma TotalAppend<T(!new), K>(s: seq<T>, x: T, key: T -> K, weight: T -> int, k: K)
    ensures Total(s + [x], key, weight, k) == Total(s, key, weight, k) + (if key(x) == k then weight(x) else 0)
  {
    assert (s + [x])[..|s|] == s;
  }

  lemma SumAppend(xs: seq<int>, x: int)
    ensures Sum(xs + [x]) == Sum(xs) + x
  {
    assert (xs + [x])[..|xs|] == xs;
  }

  lemma DistinctPrefix<K>(keys: seq<K>)
    requires Distinct(keys) && keys != []
    ensures Distinct(keys[..|keys|-1]) && keys[|keys|-1] !in keys[..|keys|-1]
  {
  }

  lemma {:induction false} TallyOfNothing<T(!new), K>(key: T -> K, keys: seq<K>)
    ensures Sum(Tally([], key, keys)) == 0
  {
    if keys != [] {
      TallyOfNothing(key, keys[..|keys|-1]);
      SumAppend(Tally([], key, keys[..|keys|-1]), 0);
    }
  }

  /** Appending `x` adds one to the tally of its key, if that key is listed. */
  lemma {:induction false} TallyStep<T(!new), K>(s: seq<T>, x: T, key: T -> K, keys: seq<K>)
    requires Distinct(keys)
    ensures Sum(Tally(s + [x], key, keys)) == Sum(Tally(s, key, keys)) + (if key(x) in keys then 1 else 0)
  {
    if keys != [] {
      var n := |keys|;
      DistinctPrefix(keys);
      TallyStep(s, x, key, keys[..n-1]);
      assert (s + [x])[..|s|] == s;
      assert keys == keys[..n-1] + [keys[n-1]];
      SumAppend(Tally(s + [x], key, keys[..n-1]), Count(s + [x], key, keys[n-1]));
      SumAppend(Tally(s, key, keys[..n-1]), Count(s, key, keys[n-1]));
    }
  }

  /**
   * Counting every element under exactly one of a list of distinct keys
   * conserves the number of elements.
   */
  lemma {:induction false} TallyPartition<T(!new), K>(s: seq<T>, key: T -> K, keys: seq<K>)
    requires Distinct(keys)
    requires forall i :: 0 <= i < |s| ==> key(s[i]) in keys
    ensures Sum(Tally(s, key, keys)) == |s|
  {
    if s == [] {
      TallyOfNothing(key, keys);
    } else {
      var n := |s|;
      assert s == s[..n-1] + [s[n-1]];
      TallyPartition(s[..n-1], key, keys);
      TallyStep(s[..n-1], s[n-1], key, keys);
    }
  }

  lemma {:induction false} TotalsOfNothing<T(!new), K>(key: T -> K, weight: T -> int, keys: seq<K>)
    ensures Sum(Totals([], key, weight, keys)) == 0
  {
    if keys != [] {
      TotalsOfNothing(key, weight, keys[..|keys|-1]);
      SumAppend(Totals([], key, weight, keys[..|keys|-1]), 0);
    }
  }

  /** Appending `x` adds its weight to the total of its key, if that key is listed. */
  lemma {:induction false} TotalsStep<T(!new), K>(s: seq<T>, x: T, key: T -> K, weight: T -> int, keys: seq<K>)
    requires Distinct(keys)
    ensures Sum(Totals(s + [x], key, weight, keys))
         == Sum(Totals(s, key, weight, keys)) + (if key(x) in keys then weight(x) else 0)
  {
    if keys != [] {
      var n := |keys|;
      DistinctPrefix(keys);
      TotalsStep(s, x, key, weight, keys[..n-1]);
      assert (s + [x])[..|s|] == s;
      assert keys == keys[..n-1] + [keys[n-1]];
      SumAppend(Totals(s + [x], key, weight, keys[..n-1]), Total(s + [x], key, weight, keys[n-1]));
      SumAppend(Totals(s, key, weight, keys[..n-1]), Total(s, key, weight, keys[n-1]));
    }
  }

  /** Summing every element under exactly one of a list of distinct keys conserves the total weight. */
  lemma {:induction false} TotalsPartition<T(!new), K>(s: seq<T>, key: T -> K, weight: T -> int, keys: seq<K>)
    requires Distinct(keys)
    requires forall i :: 0 <= i < |s| ==> key(s[i]) in keys
    ensures Sum(Totals(s, key, weight, keys)) == SumOf(s, weight)
  {
    if s == [] {
      TotalsOfNothing(key, weight, keys);
    } else {
      var n := |s|;
      assert s == s[..n-1] + [s[n-1]];
      TotalsPartition(s[..n-1], key, weight, keys);
      TotalsStep(s[..n-1], s[n-1], key, weight, keys);
    }
  }

  /****************************************************************
   * Keys in first-seen order
   ****************************************************************/

  /**
   * The distinct keys of `s` in the order in which they first occur: the
   * key order of a JavaScript object that `forEach` fills in.
   */
  function FirstSeen<T(==,!new), K(==)>(s: seq<T>, key: T -> K): (ks: seq<K>)
    ensures Distinct(ks)
    ensures forall i :: 0 <= i < |s| ==> key(s[i]) in ks
    ensures forall k :: k in ks ==> Count(s, key, k) > 0
  {
    if s == [] then []
    else
      var n := |s|;
      var ks := FirstSeen(s[..n-1], key);
      assert forall i :: 0 <= i < n - 1 ==> s[i] == s[..n-1][i];
      if key(s[n-1]) in ks then ks else ks + [key(s[n-1])]
  }

  lemma FirstSeenAppend<T(!new), K>(s: seq<T>, x: T, key: T -> K)
    ensures FirstSeen(s + [x], key)
         == if key(x) in FirstSeen(s, key) then FirstSeen(s, key) else FirstSeen(s, key) + [key(x)]
  {
    assert (s + [x])[..|s|] == s;
  }

  /** The first position of `s` whose key is `k`, or `|s|` when there is none. */
  function FirstIndex<T(==,!new), K(==)>(s: seq<T>, key: T -> K, k: K): (n: nat)
    ensures n <= |s|
    ensures n < |s| ==> key(s[n]) == k
    ensures forall q :: 0 <= q < n ==> key(s[q]) != k
  {
    if s == [] then 0
    else if key(s[0]) == k then 0
    else 1 + FirstIndex(s[1..], key, k)
  }

  /** Appending an element moves no first position that already exists. */
  lemma {:induction false} FirstIndexAppend<T(!new), K>(s: seq<T>, x: T, key: T -> K, k: K)
    ensures FirstIndex(s + [x], key, k)
         == if FirstIndex(s, key, k) < |s| then FirstIndex(s, key, k)
            else if key(x) == k then |s| else |s| + 1
  {
    if s != [] && key(s[0]) != k {
      assert (s + [x])[1..] == s[1..] + [x];
      FirstIndexAppend(s[1..], x, key, k);
    }
  }

  /** Every key of `ks` occurs in `s`, and an earlier key first occurs at an earlier position. */
  ghost predicate InFirstOrder<T(!new), K(!new)>(s: seq<T>, key: T -> K, ks: seq<K>) {
    && (forall i :: 0 <= i < |ks| ==> FirstIndex(s, key, ks[i]) < |s|)
    && (forall i, j :: 0 <= i < j < |ks| ==> FirstIndex(s, key, ks[i]) < FirstIndex(s, key, ks[j]))
  }

  /** A key that no element has has no first position. */
  lemma AbsentKey<T(!new), K(!new)>(s: seq<T>, key: T -> K, ks: seq<K>, k: K)
    requires forall i :: 0 <= i < |s| ==> key(s[i]) in ks
    requires k !in ks
    ensures FirstIndex(s, key, k) == |s|
  {
  }

  /** Appending `x`, and its key when that key is new, keeps the keys in first-occurrence order. */
  lemma FirstOrderStep<T(!new), K(!new)>(s: seq<T>, x: T, key: T -> K, ks: seq<K>, ks': seq<K>)
    requires InFirstOrder(s, key, ks)
    requires forall i :: 0 <= i < |s| ==> key(s[i]) in ks
    requires ks' == if key(x) in ks then ks else ks + [key(x)]
    ensures InFirstOrder(s + [x], key, ks')
  {
    forall i | 0 <= i < |ks| ensures FirstIndex(s + [x], key, ks[i]) == FirstIndex(s, key, ks[i]) {
      FirstIndexAppend(s, x, key, ks[i]);
    }
    if key(x) !in ks {
      AbsentKey(s, key, ks, key(x));
      FirstIndexAppend(s, x, key, key(x));
    }
  }

  /**
   * The keys come in the order of their first occurrences: every key
   * occurs in `s`, and an earlier key first occurs at an earlier position.
   */
  lemma {:induction false} FirstSeenOrder<T(!new), K(!new)>(s: seq<T>, key: T -> K)
    ensures InFirstOrder(s, key, FirstSeen(s, key))
  {
    if s != [] {
      var n := |s|;
      var s', x := s[..n-1], s[n-1];
      assert s == s' + [x];
      FirstSeenOrder(s', key);
      FirstSeenAppend(s', x, key);
      FirstOrderStep(s', x, key, FirstSeen(s', key), FirstSeen(s, key));
    }
  }

  /** `(agg[k] || 0)`: the accumulated value of a key, `zero` while it is absent. */
  function Get<K, V>(agg: map<K, V>, k: K, zero: V): V {
    if k in agg then agg[k] else zero
  }

  /**
   * A dictionary that counts the elements of `s` per key: `names` lists its
   * keys in first-seen order and each value is its key's count.
   */
  ghost predicate Tallied<T(!new), K(!new)>(s: seq<T>, key: T -> K, names: seq<K>, agg: map<K, nat>) {
    && names == FirstSeen(s, key)
    && (forall k :: k in agg <==> k in names)
    && (forall k :: Get(agg, k, 0) == Count(s, key, k))
  }

  /** A dictionary that sums the `weight` of the elements of `s` per key. */
  ghost predicate Summed<T(!new), K(!new)>(s: seq<T>, key: T -> K, weight: T -> int, names: seq<K>, agg: map<K, int>) {
    && names == FirstSeen(s, key)
    && (forall k :: k in agg <==> k in names)
    && (forall k :: Get(agg, k, 0) == Total(s, key, weight, k))
  }

  /**
   * One step of counting: adding `x` increments its key, appending the key
   * when it is new.
   */
  lemma CountStep<T(!new), K(!new)>(s: seq<T>, x: T, key: T -> K, names: seq<K>, agg: map<K, nat>,
                               names': seq<K>, agg': map<K, nat>)
    requires Tallied(s, key, names, agg)
    requires names' == if key(x) in agg then names else names + [key(x)]
    requires agg' == agg[key(x) := Get(agg, key(x), 0) + 1]
    ensures Tallied(s + [x], key, names', agg')
  {
    FirstSeenAppend(s, x, key);
    assert names' == FirstSeen(s + [x], key);
    assert forall k :: k in agg' <==> k in names';
    forall k ensures Get(agg', k, 0) == Count(s + [x], key, k) {
      CountAppend(s, x, key, k);
    }
  }

  /** One step of summing: adding `x` adds its weight to its key, appending the key when it is new. */
  lemma TotalStep<T(!new), K(!new)>(s: seq<T>, x: T, key: T -> K, weight: T -> int, names: seq<K>, agg: map<K, int>,
                               names': seq<K>, agg': map<K, int>)
    requires Summed(s, key, weight, names, agg)
    requires names' == if key(x) in agg then names else names + [key(x)]
    requires agg' == agg[key(x) := Get(agg, key(x), 0) + weight(x)]
    ensures Summed(s + [x], key, weight, names', agg')
  {
    FirstSeenAppend(s, x, key);
    assert names' == FirstSeen(s + [x], key);
    assert forall k :: k in agg' <==> k in names';
    forall k ensures Get(agg', k, 0) == Total(s + [x], key, weight, k) {
      TotalAppend(s, x, key, weight, k);
    }
  }

  /****************************************************************
   * Stable sort
   ****************************************************************/

  /** `key` does not decrease along `s`. */
  predicate SortedBy<T(==,!new)>(s: seq<T>, key: T -> int) {
    forall i, j :: 0 <= i < j < |s| ==> key(s[i]) <= key(s[j])
  }

  /** No element of `s` left out of `t` has a smaller key than an element of `t`. */
  predicate SmallestKept<T(==,!new)>(s: seq<T>, t: seq<T>, key: T -> int) {
    forall x, y :: x in s && x !in t && y in t ==> key(y) <= key(x)
  }

  /** Inserts `x` before the first element whose key is not smaller than its own. */
  function Insert<T(==,!new)>(x: T, t: seq<T>, key: T -> int): (r: seq<T>)
    ensures |r| == |t| + 1
    ensures multiset(r) == multiset(t) + multiset{x}
    ensures forall y :: y in r <==> y == x || y in t
  {
    if t == [] then [x]
    else if key(x) <= key(t[0]) then [x] + t
    else
      assert t == [t[0]] + t[1..];
      [t[0]] + Insert(x, t[1..], key)
  }

  /**
   * Stable sort by ascending key (the effect of `Array.prototype.sort`,
   * which is stable, with a comparator that subtracts the keys).
   */
  function SortBy<T(==,!new)>(s: seq<T>, key: T -> int): (r: seq<T>)
    ensures |r| == |s|
    ensures multiset(r) == multiset(s)
  {
    if s == [] then []
    else
      assert s == [s[0]] + s[1..];
      Insert(s[0], SortBy(s[1..], key), key)
  }

  lemma {:induction false} InsertSorted<T(!new)>(x: T, t: seq<T>, key: T -> int)
    requires SortedBy(t, key)
    ensures SortedBy(Insert(x, t, key), key)
  {
    if t != [] && key(x) > key(t[0]) {
      InsertSorted(x, t[1..], key);
      var r := Insert(x, t[1..], key);
      forall j | 0 <= j < |r| ensures key(t[0]) <= key(r[j]) {
        assert r[j] in r;
      }
    }
  }

  /** The sort's result is ordered by key. */
  lemma {:induction false} SortBySorted<T(!new)>(s: seq<T>, key: T -> int)
    ensures SortedBy(SortBy(s, key), key)
  {
    if s != [] {
      SortBySorted(s[1..], key);
      InsertSorted(s[0], SortBy(s[1..], key), key);
    }
  }

  /** Elements whose key equals `k`. */
  function KeyIs<T(==,!new)>(key: T -> int, k: int): T -> bool {
    x => key(x) == k
  }

  lemma FilterSingleton<T(!new)>(y: T, p: T -> bool)
    ensures Filter([y], p) == if p(y) then [y] else []
  {
    assert [y][..0] == [];
  }

  /** Two blocks one of which is empty may be swapped. */
  lemma SwapEmpty<T>(a: seq<T>, b: seq<T>, c: seq<T>)
    requires a == [] || b == []
    ensures b + (a + c) == a + (b + c)
  {
    if a == [] {
      assert b + (a + c) == b + c;
    } else {
      assert b + (a + c) == a + c;
    }
  }

  /**
   * Inserting `x` puts it after every element with a smaller key and before
   * the rest, so among the elements with any one key it comes first.
   */
  lemma {:induction false} InsertStable<T(!new)>(x: T, t: seq<T>, key: T -> int, k: int)
    ensures Filter(Insert(x, t, key), KeyIs(key, k))
         == Filter([x], KeyIs(key, k)) + Filter(t, KeyIs(key, k))
  {
    var p := KeyIs(key, k);
    if t == [] {
      assert Insert(x, t, key) == [x];
    } else if key(x) <= key(t[0]) {
      assert Insert(x, t, key) == [x] + t;
      FilterConcat([x], t, p);
    } else {
      var rest := Insert(x, t[1..], key);
      var a, b, c := Filter([x], p), Filter([t[0]], p), Filter(t[1..], p);
      calc {
        Filter(Insert(x, t, key), p);
        { assert Insert(x, t, key) == [t[0]] + rest; }
        Filter([t[0]] + rest, p);
        { FilterConcat([t[0]], rest, p); }
        b + Filter(rest, p);
        { InsertStable(x, t[1..], key, k); }
        b + (a + c);
        { FilterSingleton(x, p); FilterSingleton(t[0], p); SwapEmpty(a, b, c); }
        a + (b + c);
        { assert t == [t[0]] + t[1..]; FilterConcat([t[0]], t[1..], p); }
        a + Filter(t, p);
      }
    }
  }

  /**
   * The sort is stable: the elements that share a key keep their input
   * order (and multiplicity).
   */
  lemma {:induction false} SortByStable<T(!new)>(s: seq<T>, key: T -> int, k: int)
    ensures Filter(SortBy(s, key), KeyIs(key, k)) == Filter(s, KeyIs(key, k))
  {
    if s != [] {
      SortByStable(s[1..], key, k);
      InsertStable(s[0], SortBy(s[1..], key), key, k);
      FilterConcat([s[0]], s[1..], KeyIs(key, k));
      assert s == [s[0]] + s[1..];
    }
  }

  /**
   * Taking the first `m` elements of a sorted permutation keeps the `m`
   * smallest keys: every element of `s` that was not taken has a key at
   * least as large as every taken one.
   */
  lemma SmallestTaken<T(!new)>(s: seq<T>, key: T -> int, m: nat)
    ensures forall x, y :: x in s && x !in Take(SortBy(s, key), m) && y in Take(SortBy(s, key), m)
                           ==> key(y) <= key(x)
  {
    var r := SortBy(s, key);
    var kept := Take(r, m);
    SortBySorted(s, key);
    forall x, y | x in s && x !in kept && y in kept ensures key(y) <= key(x) {
      assert x in multiset(r);
      var i :| 0 <= i < |r| && r[i] == x;
      var j :| 0 <= j < |kept| && kept[j] == y;
      assert r[j] == y;
    }
  }

  /** A prefix holds no element more often than the whole. */
  lemma TakeMultiset<T(!new)>(r: seq<T>, m: nat)
    ensures multiset(Take(r, m)) <= multiset(r)
  {
    var t := Take(r, m);
    assert r == t + r[|t|..];
  }

  /**
   * The first `m` elements of the sorted sequence: `min(m, |s|)` elements
   * of `s`, none more often than it occurs in `s`, in key order, and none left out has a smaller key than one
   * taken.
   */
  lemma TakeSorted<T(!new)>(s: seq<T>, key: T -> int, m: nat)
    ensures var t := Take(SortBy(s, key), m);
      && |t| == Min(m, |s|)
      && multiset(t) <= multiset(s)
      && (forall x :: x in t ==> x in s)
      && SortedBy(t, key)
      && SmallestKept(s, t, key)
  {
    var r := SortBy(s, key);
    var t := Take(r, m);
    SortBySorted(s, key);
    SmallestTaken(s, key, m);
    TakeMultiset(r, m);
    forall x | x in t ensures x in s {
      assert x in multiset(r);
    }
  }

  lemma {:induction false} SumOfPrepend<T(!new)>(x: T, s: seq<T>, f: T -> int)
    ensures SumOf([x] + s, f) == f(x) + SumOf(s, f)
    decreases |s|
  {
    if s != [] {
      var n := |s|;
      assert ([x] + s)[..n] == [x] + s[..n-1];
      SumOfPrepend(x, s[..n-1], f);
    }
  }

  lemma {:induction false} SumOfInsert<T(!new)>(x: T, t: seq<T>, key: T -> int, f: T -> int)
    ensures SumOf(Insert(x, t, key), f) == f(x) + SumOf(t, f)
  {
    if t == [] {
      SumOfPrepend(x, [], f);
    } else if key(x) <= key(t[0]) {
      SumOfPrepend(x, t, f);
    } else {
      SumOfInsert(x, t[1..], key, f);
      SumOfPrepend(t[0], Insert(x, t[1..], key), f);
      SumOfPrepend(t[0], t[1..], f);
      assert t == [t[0]] + t[1..];
    }
  }

  /** Sorting does not change a sum. */
  lemma {:induction false} SumOfSortBy<T(!new)>(s: seq<T>, key: T -> int, f: T -> int)
    ensures SumOf(SortBy(s, key), f) == SumOf(s, f)
  {
    if s != [] {
      SumOfSortBy(s[1..], key, f);
      SumOfInsert(s[0], SortBy(s[1..], key), key, f);
      SumOfPrepend(s[0], s[1..], f);
      assert s == [s[0]] + s[1..];
    }
  }

  /** Values `f` tells apart stay told apart by `f` after an insertion of a fresh value. */
  lemma {:induction false} InsertDistinctBy<T(!new), K>(x: T, t: seq<T>, key: T -> int, f: T -> K)
    requires forall i, j :: 0 <= i < j < |t| ==> f(t[i]) != f(t[j])
    requires forall i :: 0 <= i < |t| ==> f(t[i]) != f(x)
    ensures forall i, j :: 0 <= i < j < |Insert(x, t, key)| ==> f(Insert(x, t, key)[i]) != f(Insert(x, t, key)[j])
  {
    if t != [] && key(x) > key(t[0]) {
      InsertDistinctBy(x, t[1..], key, f);
      var r := Insert(x, t[1..], key);
      forall j | 0 <= j < |r| ensures f(r[j]) != f(t[0]) {
        assert r[j] in r;
        if r[j] != x {
          var i :| 0 <= i < |t[1..]| && t[1..][i] == r[j];
          assert t[i + 1] == r[j];
        }
      }
    }
  }

  /** Sorting keeps `f` injective over the positions. */
  lemma {:induction false} SortByDistinctBy<T(!new), K>(s: seq<T>, key: T -> int, f: T -> K)
    requires forall i, j :: 0 <= i < j < |s| ==> f(s[i]) != f(s[j])
    ensures forall i, j :: 0 <= i < j < |SortBy(s, key)| ==> f(SortBy(s, key)[i]) != f(SortBy(s, key)[j])
  {
    if s != [] {
      var rest := SortBy(s[1..], key);
      SortByDistinctBy(s[1..], key, f);
      forall i | 0 <= i < |rest| ensures f(rest[i]) != f(s[0]) {
        assert rest[i] in multiset(s[1..]);
        var j :| 0 <= j < |s[1..]| && s[1..][j] == rest[i];
        assert s[j + 1] == rest[i];
      }
      InsertDistinctBy(s[0], rest, key, f);
    }
  }
}
