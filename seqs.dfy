/**
 * Sequence helpers shared by the model: `filter`, first-appearance
 * de-duplication, counting by key, sums, and the fact that counting a
 * sequence group by group accounts for every element exactly once.
 */
module Seqs {

  /** `xs.filter(p)`: the elements satisfying `p`, in their original order. */
  function Filter<T>(xs: seq<T>, p: T -> bool): (r: seq<T>)
    ensures |r| <= |xs|
    ensures forall i | 0 <= i < |r| :: r[i] in xs && p(r[i])
    ensures forall i | 0 <= i < |xs| && p(xs[i]) :: xs[i] in r
  {
    if |xs| == 0 then []
    else (if p(xs[0]) then [xs[0]] else []) + Filter(xs[1..], p)
  }

  lemma {:induction false} FilterAppend<T>(a: seq<T>, b: seq<T>, p: T -> bool)
    ensures Filter(a + b, p) == Filter(a, p) + Filter(b, p)
  {
    if |a| > 0 {
      assert (a + b)[1..] == a[1..] + b;
      FilterAppend(a[1..], b, p);
    } else {
      assert a + b == b;
    }
  }

  /** Filtering keeps every element that satisfies `p` as many times as it occurs. */
  lemma {:induction false} FilterMultiset<T>(xs: seq<T>, p: T -> bool, x: T)
    requires p(x)
    ensures multiset(Filter(xs, p))[x] == multiset(xs)[x]
  {
    if |xs| > 0 {
      FilterMultiset(xs[1..], p, x);
      assert xs == [xs[0]] + xs[1..];
    }
  }

  /** `a` is `b` with some elements left out, the rest kept in order. */
  predicate IsSubseq<T(==)>(a: seq<T>, b: seq<T>)
    decreases |b|
  {
    |a| == 0 || (|b| > 0 && ((a[0] == b[0] && IsSubseq(a[1..], b[1..])) || IsSubseq(a, b[1..])))
  }

  lemma {:induction false} FilterIsSubseq<T>(xs: seq<T>, p: T -> bool)
    ensures IsSubseq(Filter(xs, p), xs)
  {
    if |xs| > 0 {
      FilterIsSubseq(xs[1..], p);
      var r := Filter(xs, p);
      if p(xs[0]) {
        assert r[0] == xs[0] && r[1..] == Filter(xs[1..], p);
      } else {
        assert r == Filter(xs[1..], p);
      }
    }
  }

  /** Filtering keeps exactly the elements that satisfy the predicate. */
  lemma FilterMembers<T>(xs: seq<T>, p: T -> bool, x: T)
    ensures x in Filter(xs, p) <==> x in xs && p(x)
  {
    if x in xs && p(x) {
      var i :| 0 <= i < |xs| && xs[i] == x;
    }
  }

  /** A filter every element passes keeps the whole sequence. */
  lemma {:induction false} FilterAll<T>(xs: seq<T>, p: T -> bool)
    requires forall i | 0 <= i < |xs| :: p(xs[i])
    ensures Filter(xs, p) == xs
  {
    if |xs| > 0 {
      FilterAll(xs[1..], p);
    }
  }

  /** A filter no element passes keeps nothing. */
  lemma {:induction false} FilterNone<T>(xs: seq<T>, p: T -> bool)
    requires forall i | 0 <= i < |xs| :: !p(xs[i])
    ensures Filter(xs, p) == []
  {
    if |xs| > 0 {
      FilterNone(xs[1..], p);
    }
  }

  /** Filtering by "the key is `k`" keeps as many elements as carry key `k`. */
  lemma {:induction false} FilterCount<T, K>(xs: seq<T>, p: T -> bool, key: T -> K, k: K)
    requires forall x :: p(x) <==> key(x) == k
    ensures |Filter(xs, p)| == CountKey(xs, key, k)
  {
    if |xs| > 0 {
      var init, last := xs[..|xs| - 1], xs[|xs| - 1];
      assert xs == init + [last];
      FilterAppend(init, [last], p);
      FilterCount(init, p, key, k);
      assert [last][1..] == [];
    }
  }

  predicate Distinct<T(==)>(xs: seq<T>) {
    forall i, j | 0 <= i < j < |xs| :: xs[i] != xs[j]
  }

  /** The distinct elements of `xs` in order of first appearance. */
  function Dedup<T(==)>(xs: seq<T>): seq<T> {
    if |xs| == 0 then []
    else
      var d := Dedup(xs[..|xs| - 1]);
      var x := xs[|xs| - 1];
      if x in d then d else d + [x]
  }

  lemma {:induction false} DedupMembers<T>(xs: seq<T>, x: T)
    ensures x in Dedup(xs) <==> x in xs
  {
    if |xs| > 0 {
      var init := xs[..|xs| - 1];
      DedupMembers(init, x);
      assert xs == init + [xs[|xs| - 1]];
    }
  }

  lemma {:induction false} DedupDistinct<T>(xs: seq<T>)
    ensures Distinct(Dedup(xs)) && |Dedup(xs)| <= |xs|
  {
    if |xs| > 0 {
      var init := xs[..|xs| - 1];
      DedupDistinct(init);
    }
  }

  /** Appending an element extends the distinct elements only when it is new. */
  lemma DedupSnoc<T>(xs: seq<T>, x: T)
    ensures Dedup(xs + [x]) == if x in xs then Dedup(xs) else Dedup(xs) + [x]
  {
    assert (xs + [x])[..|xs|] == xs;
    DedupMembers(xs, x);
  }

  /** Number of elements of `xs` whose key is `k`. */
  function CountKey<T, K(==)>(xs: seq<T>, key: T -> K, k: K): (n: nat)
    ensures n <= |xs|
  {
    if |xs| == 0 then 0
    else CountKey(xs[..|xs| - 1], key, k) + (if key(xs[|xs| - 1]) == k then 1 else 0)
  }

  lemma {:induction false} CountKeyAbsent<T, K>(xs: seq<T>, key: T -> K, k: K)
    requires forall i | 0 <= i < |xs| :: key(xs[i]) != k
    ensures CountKey(xs, key, k) == 0
  {
    if |xs| > 0 {
      CountKeyAbsent(xs[..|xs| - 1], key, k);
    }
  }

  /** Sum of the per-key counts over the keys `ks`. */
  function SumCounts<T, K(==)>(xs: seq<T>, key: T -> K, ks: seq<K>): nat {
    if |ks| == 0 then 0 else CountKey(xs, key, ks[0]) + SumCounts(xs, key, ks[1..])
  }

  /** Number of positions of `ks` holding `k`. */
  function Occurrences<K(==)>(ks: seq<K>, k: K): nat {
    if |ks| == 0 then 0 else (if ks[0] == k then 1 else 0) + Occurrences(ks[1..], k)
  }

  lemma {:induction false} OccurrencesOfDistinct<K>(ks: seq<K>, k: K)
    requires Distinct(ks) && k in ks
    ensures Occurrences(ks, k) == 1
  {
    if ks[0] == k {
      OccurrencesOfAbsent(ks[1..], k);
    } else {
      OccurrencesOfDistinct(ks[1..], k);
    }
  }

  lemma {:induction false} OccurrencesOfAbsent<K>(ks: seq<K>, k: K)
    requires k !in ks
    ensures Occurrences(ks, k) == 0
  {
    if |ks| > 0 {
      OccurrencesOfAbsent(ks[1..], k);
    }
  }

  lemma {:induction false} SumCountsSnoc<T, K>(xs: seq<T>, x: T, key: T -> K, ks: seq<K>)
    ensures SumCounts(xs + [x], key, ks) == SumCounts(xs, key, ks) + Occurrences(ks, key(x))
  {
    if |ks| > 0 {
      assert (xs + [x])[..|xs + [x]| - 1] == xs;
      SumCountsSnoc(xs, x, key, ks[1..]);
    }
  }

  /**
   * Counting group by group over distinct keys that cover every element
   * accounts for each element exactly once.
   */
  lemma {:induction false} PartitionCount<T, K>(xs: seq<T>, key: T -> K, ks: seq<K>)
    requires Distinct(ks)
    requires forall i | 0 <= i < |xs| :: key(xs[i]) in ks
    ensures SumCounts(xs, key, ks) == |xs|
  {
    if |xs| == 0 {
      SumCountsEmpty(key, ks);
    } else {
      var init, x := xs[..|xs| - 1], xs[|xs| - 1];
      assert xs == init + [x];
      PartitionCount(init, key, ks);
      SumCountsSnoc(init, x, key, ks);
      OccurrencesOfDistinct(ks, key(x));
    }
  }

  lemma {:induction false} SumCountsEmpty<T, K>(key: T -> K, ks: seq<K>)
    ensures SumCounts([], key, ks) == 0
  {
    if |ks| > 0 {
      SumCountsEmpty(key, ks[1..]);
    }
  }

  /** Sum of `f` over `xs` (`xs.reduce((s, x) => s + f(x), 0)`). */
  function SumOf<T>(xs: seq<T>, f: T -> int): int {
    if |xs| == 0 then 0 else SumOf(xs[..|xs| - 1], f) + f(xs[|xs| - 1])
  }

  lemma {:induction false} SumOfAppend<T>(a: seq<T>, b: seq<T>, f: T -> int)
    ensures SumOf(a + b, f) == SumOf(a, f) + SumOf(b, f)
    decreases |b|
  {
    if |b| > 0 {
      var init := b[..|b| - 1];
      assert (a + b)[..|a + b| - 1] == a + init;
      SumOfAppend(a, init, f);
    } else {
      assert a + b == a;
    }
  }

  /** A sum of terms that are never negative is never negative, and is at least each of its terms. */
  lemma {:induction false} SumOfBounds<T>(xs: seq<T>, f: T -> int)
    ensures (forall i | 0 <= i < |xs| :: f(xs[i]) >= 0) ==>
      SumOf(xs, f) >= 0 && forall i | 0 <= i < |xs| :: f(xs[i]) <= SumOf(xs, f)
  {
    if |xs| > 0 && forall i | 0 <= i < |xs| :: f(xs[i]) >= 0 {
      var init := xs[..|xs| - 1];
      assert forall i | 0 <= i < |init| :: init[i] == xs[i];
      SumOfBounds(init, f);
    }
  }

  /** The cardinality of the set of elements of a sequence is at most its length. */
  lemma {:induction false} ElementsCardinality<T>(xs: seq<T>)
    ensures |set x | x in xs| <= |xs|
  {
    if |xs| > 0 {
      var init := xs[..|xs| - 1];
      ElementsCardinality(init);
      assert (set x | x in xs) == (set x | x in init) + {xs[|xs| - 1]};
    }
  }

  /** A sequence without repetitions has as many distinct elements as positions. */
  lemma {:induction false} DistinctCardinality<T>(xs: seq<T>)
    requires Distinct(xs)
    ensures |set x | x in xs| == |xs|
  {
    if |xs| > 0 {
      var init := xs[..|xs| - 1];
      DistinctCardinality(init);
      assert (set x | x in xs) == (set x | x in init) + {xs[|xs| - 1]};
      assert xs[|xs| - 1] !in init;
    }
  }

  /** A sequence with as many distinct elements as positions repeats nothing. */
  lemma {:induction false} DistinctFromCardinality<T>(xs: seq<T>)
    requires |set x | x in xs| == |xs|
    ensures Distinct(xs)
  {
    if |xs| > 0 {
      var init, last := xs[..|xs| - 1], xs[|xs| - 1];
      assert xs == init + [last];
      assert (set x | x in xs) == (set x | x in init) + {last};
      ElementsCardinality(init);
      DistinctFromCardinality(init);
    }
  }

  /** Rearranging a sequence without repetitions leaves it without repetitions. */
  lemma PermutationKeepsDistinct<T>(a: seq<T>, b: seq<T>)
    requires multiset(a) == multiset(b) && Distinct(b)
    ensures Distinct(a)
  {
    assert |a| == |multiset(a)| == |multiset(b)| == |b|;
    assert (set x | x in a) == (set x | x in b) by {
      forall x
        ensures x in a <==> x in b
      {
        assert x in a <==> x in multiset(a);
        assert x in b <==> x in multiset(b);
      }
    }
    DistinctCardinality(b);
    DistinctFromCardinality(a);
  }
}
