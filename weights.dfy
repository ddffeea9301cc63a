/** Inverse-probability weights: a row's value over the product of its
    rates, and the same correction applied to a whole rate-signature
    subgroup at once. The central fact is that both give the same group
    total. */
module Weights {
  import opened Frames
  import opened Grouping
  import opened Aggregation

  /** `a / b`. The model only ever divides by a positive rate product; the
      zero case merely keeps the function total. */
  function Ratio(a: real, b: real): real {
    if b == 0.0 then 0.0 else a / b
  }

  /** The key components after the first `n`. */
  function Suffix(k: Key, n: nat): Key {
    if |k| <= n then [] else k[n..]
  }

  lemma SuffixIndex(k: Key, n: nat, l: nat)
    requires n + l < |k|
    ensures |Suffix(k, n)| == |k| - n && Suffix(k, n)[l] == k[n + l]
  {
  }

  /** A row's value of `f` weighted by the inverse of its rate product. */
  function WeightedFn(cols: seq<string>, f: Row -> real): Row -> real {
    r => Ratio(f(r), RateProduct(cols, r))
  }

  /** The subgroup with key `sk` over the columns `fine`: the total of `f`
      over its rows divided by the product of the key's components after
      the first `n` (the subgroup's rates). */
  function SubgroupTotal(rows: seq<Row>, fine: seq<string>, n: nat, f: Row -> real): Key -> real {
    sk => Ratio(SumOf(Members(rows, KeyFn(fine), sk), f), Product(Suffix(sk, n)))
  }

  /** The subgroup keys whose first `n` components are `k`. */
  function SubKeys(rows: seq<Row>, fine: seq<string>, n: nat, k: Key): seq<Key> {
    Members(Keys(rows, KeyFn(fine)), PrefixFn(n), k)
  }

  lemma KeyOfAppend(a: seq<string>, b: seq<string>, r: Row)
    ensures KeyOf(a + b, r) == KeyOf(a, r) + KeyOf(b, r)
    ensures Prefix(KeyOf(a + b, r), |a|) == KeyOf(a, r)
    ensures Suffix(KeyOf(a + b, r), |a|) == KeyOf(b, r)
  {
    assert KeyOf(a + b, r) == KeyOf(a, r) + KeyOf(b, r);
  }

  lemma {:induction false} ProductOfKey(cols: seq<string>, r: Row)
    ensures ProductOf(cols, r) == Product(KeyOf(cols, r))
    decreases |cols|
  {
    if cols != [] {
      var front := cols[..|cols| - 1];
      ProductOfKey(front, r);
      assert KeyOf(cols, r)[..|cols| - 1] == KeyOf(front, r);
    }
  }

  /** A row whose values in `cols` are the components of `k` has `k`'s
      product as its product over `cols`. */
  lemma {:induction false} ProductOfRow(cols: seq<string>, r: Row, k: Key)
    requires |k| == |cols|
    requires forall l | 0 <= l < |cols| :: Val(r, cols[l]) == k[l]
    ensures ProductOf(cols, r) == Product(k)
    decreases |cols|
  {
    if cols != [] {
      ProductOfRow(cols[..|cols| - 1], r, k[..|k| - 1]);
    }
  }

  /** When the frame's rate columns are `rates`, a row's rate product is the
      product of the rate part of its subgroup key. */
  lemma RowRate(cols: seq<string>, g: seq<string>, rates: seq<string>, r: Row)
    requires RateColumns(cols) == rates
    ensures RateProduct(cols, r) == Product(Suffix(KeyOf(g + rates, r), |g|))
  {
    RateProductIsProductOfRateColumns(cols, r);
    ProductOfKey(rates, r);
    KeyOfAppend(g, rates, r);
  }

  /** Every subgroup key's rate part is the rate product of each of its rows. */
  lemma SubgroupRate(rows: seq<Row>, cols: seq<string>, g: seq<string>, rates: seq<string>, sk: Key, x: Row)
    requires RateColumns(cols) == rates
    requires x in Members(rows, KeyFn(g + rates), sk)
    ensures Product(Suffix(sk, |g|)) == RateProduct(cols, x)
  {
    RowRate(cols, g, rates, x);
  }

  /** Summing the weighted rows of a group, or summing its subgroups after
      dividing each by its rates, gives the same total (main.py:287-295
      against main.py:316-331). */
  lemma GroupedWeightedSum(rows: seq<Row>, cols: seq<string>, g: seq<string>, rates: seq<string>, f: Row -> real, k: Key)
    requires RateColumns(cols) == rates
    requires forall r | r in rows :: RateProduct(cols, r) != 0.0
    ensures SumOf(Members(rows, KeyFn(g), k), WeightedFn(cols, f))
            == SumOf(SubKeys(rows, g + rates, |g|, k), SubgroupTotal(rows, g + rates, |g|, f))
  {
    var fine := KeyFn(g + rates);
    var coarse := KeyFn(g);
    var group := Members(rows, coarse, k);
    var ks := SubKeys(rows, g + rates, |g|, k);
    var w := WeightedFn(cols, f);
    MembersNoDuplicates(Keys(rows, fine), PrefixFn(|g|), k);
    forall x | x in group
      ensures fine(x) in ks
    {
      KeyOfAppend(g, rates, x);
    }
    PartitionSum(group, fine, ks, w);
    forall sk | sk in ks
      ensures GroupSum(group, fine, w)(sk) == SubgroupTotal(rows, g + rates, |g|, f)(sk)
    {
      forall x | x in rows && fine(x) == sk
        ensures coarse(x) == k
      {
        KeyOfAppend(g, rates, x);
      }
      MembersRefine(rows, coarse, fine, k, sk);
      var ms := Members(rows, fine, sk);
      assert sk in Keys(rows, fine);
      assert ms[0] in ms;
      SubgroupRate(rows, cols, g, rates, sk, ms[0]);
      var d := Product(Suffix(sk, |g|));
      forall x | x in ms
        ensures w(x) == f(x) / d
      {
        SubgroupRate(rows, cols, g, rates, sk, x);
      }
      SumOfDivide(ms, f, w, d);
    }
    SumOfPointwise(ks, GroupSum(group, fine, w), SubgroupTotal(rows, g + rates, |g|, f));
  }

  lemma {:induction false} MembersOfAll<T>(xs: seq<T>, key: T -> Key, k: Key)
    requires forall x | x in xs :: key(x) == k
    ensures Members(xs, key, k) == xs
    decreases |xs|
  {
    if xs != [] {
      var front := xs[..|xs| - 1];
      forall x | x in front
        ensures key(x) == k
      {
        assert x in xs;
      }
      MembersOfAll(front, key, k);
      assert key(xs[|xs| - 1]) == k;
      assert xs == front + [xs[|xs| - 1]];
    }
  }

  /** Without group-by columns every row is in the one group `[]`. */
  lemma WholeGroup(rows: seq<Row>)
    ensures Members(rows, KeyFn([]), []) == rows
  {
    forall x | x in rows
      ensures KeyFn([])(x) == []
    {
    }
    MembersOfAll(rows, KeyFn([]), []);
  }

  /** ... and every rate group is one of its subgroups. */
  lemma AllSubKeys(rows: seq<Row>, rates: seq<string>)
    ensures SubKeys(rows, rates, 0, []) == Keys(rows, KeyFn(rates))
  {
    var ks := Keys(rows, KeyFn(rates));
    forall k | k in ks
      ensures PrefixFn(0)(k) == []
    {
    }
    MembersOfAll(ks, PrefixFn(0), []);
  }

  /** Without a group-by the whole sample is one group, and its subgroups are
      the rate groups (main.py:336-371). */
  lemma UngroupedWeightedSum(rows: seq<Row>, cols: seq<string>, rates: seq<string>, f: Row -> real)
    requires RateColumns(cols) == rates
    requires forall r | r in rows :: RateProduct(cols, r) != 0.0
    ensures SumOf(rows, WeightedFn(cols, f)) == SumOf(Keys(rows, KeyFn(rates)), SubgroupTotal(rows, rates, 0, f))
  {
    var none: seq<string> := [];
    assert none + rates == rates;
    GroupedWeightedSum(rows, cols, none, rates, f, []);
    WholeGroup(rows);
    AllSubKeys(rows, rates);
  }

  /** Positive rates make every row's combined rate non-zero. */
  lemma PositiveRowsNonZero(j: Frame)
    requires PositiveRates(j)
    ensures forall r | r in j.rows :: RateProduct(j.columns, r) != 0.0
  {
    forall r | r in j.rows
      ensures RateProduct(j.columns, r) != 0.0
    {
      RateProductPositive(j.columns, r);
    }
  }
}
