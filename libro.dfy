/**
 * Arithmetic shared by the expense and income ledgers: totals per key
 * (per category, per payment method), the fact that per-key totals over
 * distinct keys add up to the grand total, and `Math.round` of an average.
 */
module Libro {
  import opened Seqs

  /** `x => key(x) === k`. */
  function ConClave<T>(key: T -> string, k: string): T -> bool {
    (x: T) => key(x) == k
  }

  /** `xs.filter(x => key(x) === k).reduce((s, x) => s + f(x), 0)`, in one pass. */
  function SumWhere<T>(xs: seq<T>, key: T -> string, k: string, f: T -> int): (r: int)
    ensures r == SumOf(Filter(xs, ConClave(key, k)), f)
  {
    if |xs| == 0 then 0
    else
      var init, x := xs[..|xs| - 1], xs[|xs| - 1];
      assert xs == init + [x];
      FilterAppend(init, [x], ConClave(key, k));
      assert Filter([x], ConClave(key, k)) == if key(x) == k then [x] else [];
      SumOfAppend(Filter(init, ConClave(key, k)), Filter([x], ConClave(key, k)), f);
      assert SumOf([x], f) == f(x);
      SumWhere(init, key, k, f) + (if key(x) == k then f(x) else 0)
  }

  /** The per-key totals over `ks`, added up. */
  function SumKeys<T>(xs: seq<T>, key: T -> string, ks: seq<string>, f: T -> int): int {
    if |ks| == 0 then 0 else SumWhere(xs, key, ks[0], f) + SumKeys(xs, key, ks[1..], f)
  }

  /** A key that no element carries totals zero. */
  lemma {:induction false} SumWhereAbsent<T>(xs: seq<T>, key: T -> string, k: string, f: T -> int)
    requires forall i | 0 <= i < |xs| :: key(xs[i]) != k
    ensures SumWhere(xs, key, k, f) == 0
  {
    if |xs| > 0 {
      SumWhereAbsent(xs[..|xs| - 1], key, k, f);
    }
  }

  lemma {:induction false} SumKeysEmpty<T>(key: T -> string, ks: seq<string>, f: T -> int)
    ensures SumKeys([], key, ks, f) == 0
  {
    if |ks| > 0 {
      SumKeysEmpty(key, ks[1..], f);
    }
  }

  /** One more element adds its amount to the key-wise totals once, if its key is listed. */
  lemma {:induction false} SumKeysSnoc<T>(xs: seq<T>, x: T, key: T -> string, ks: seq<string>, f: T -> int)
    requires Distinct(ks)
    ensures SumKeys(xs + [x], key, ks, f) == SumKeys(xs, key, ks, f) + (if key(x) in ks then f(x) else 0)
  {
    if |ks| > 0 {
      assert (xs + [x])[..|xs + [x]| - 1] == xs;
      assert Distinct(ks[1..]);
      SumKeysSnoc(xs, x, key, ks[1..], f);
      assert key(x) in ks <==> key(x) == ks[0] || key(x) in ks[1..];
    }
  }

  /**
   * Over distinct keys that cover every element, the per-key totals add up
   * to the grand total: each amount is counted exactly once.
   */
  lemma {:induction false} PartitionSum<T>(xs: seq<T>, key: T -> string, ks: seq<string>, f: T -> int)
    requires Distinct(ks)
    requires forall i | 0 <= i < |xs| :: key(xs[i]) in ks
    ensures SumKeys(xs, key, ks, f) == SumOf(xs, f)
  {
    if |xs| == 0 {
      SumKeysEmpty(key, ks, f);
    } else {
      var init, x := xs[..|xs| - 1], xs[|xs| - 1];
      assert xs == init + [x];
      PartitionSum(init, key, ks, f);
      SumKeysSnoc(init, x, key, ks, f);
    }
  }

  /** The total of each key of `ks`, in the order of `ks`. */
  function TotalesPor<T>(xs: seq<T>, key: T -> string, ks: seq<string>, f: T -> int): (ts: seq<int>)
    ensures |ts| == |ks|
    ensures forall i | 0 <= i < |ks| :: ts[i] == SumWhere(xs, key, ks[i], f)
  {
    if |ks| == 0 then [] else [SumWhere(xs, key, ks[0], f)] + TotalesPor(xs, key, ks[1..], f)
  }

  function Suma(ts: seq<int>): int {
    if |ts| == 0 then 0 else ts[0] + Suma(ts[1..])
  }

  lemma {:induction false} SumaTotales<T>(xs: seq<T>, key: T -> string, ks: seq<string>, f: T -> int)
    ensures Suma(TotalesPor(xs, key, ks, f)) == SumKeys(xs, key, ks, f)
  {
    if |ks| > 0 {
      SumaTotales(xs, key, ks[1..], f);
      assert TotalesPor(xs, key, ks, f)[1..] == TotalesPor(xs, key, ks[1..], f);
    }
  }

  /** The per-key totals shown, added up, give the grand total when the keys are distinct and cover every element. */
  lemma Cuadran<T>(xs: seq<T>, key: T -> string, ks: seq<string>, f: T -> int)
    requires Distinct(ks)
    requires forall i | 0 <= i < |xs| :: key(xs[i]) in ks
    ensures Suma(TotalesPor(xs, key, ks, f)) == SumOf(xs, f)
  {
    SumaTotales(xs, key, ks, f);
    PartitionSum(xs, key, ks, f);
  }

  /** `Math.round(total / n)` for `n > 0`: the nearest integer, halves rounded up. */
  function RoundDiv(total: int, n: int): (r: int)
    requires n > 0
    ensures 2 * n * r - n <= 2 * total < 2 * n * r + n
  {
    var q := (2 * total + n) / (2 * n);
    assert 2 * n * q <= 2 * total + n < 2 * n * q + 2 * n;
    q
  }

  /** The average shown by the ledgers: rounded, and 0 for an empty list. */
  function Promedio(total: int, n: nat): (r: int)
    ensures n == 0 ==> r == 0
    ensures n > 0 ==> 2 * n * r - n <= 2 * total < 2 * n * r + n
  {
    if n > 0 then RoundDiv(total, n) else 0
  }
}
