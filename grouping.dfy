/** Group-by over a sequence: the distinct keys in order of first appearance
    and the members of each group, with the facts that let a sum over the
    rows be regrouped as a sum over the groups. */
module Grouping {
  import opened Frames

  function Members<T>(xs: seq<T>, key: T -> Key, k: Key): (ms: seq<T>)
    ensures |ms| <= |xs|
    ensures forall x | x in ms :: x in xs && key(x) == k
    ensures forall x | x in xs && key(x) == k :: x in ms
  {
    if xs == [] then []
    else Members(xs[..|xs| - 1], key, k) + (if key(xs[|xs| - 1]) == k then [xs[|xs| - 1]] else [])
  }

  /** The distinct keys of `xs`, each listed once, in order of first appearance. */
  function Keys<T>(xs: seq<T>, key: T -> Key): (ks: seq<Key>)
    ensures NoDuplicates(ks)
    ensures forall x | x in xs :: key(x) in ks
    ensures forall k | k in ks :: |Members(xs, key, k)| > 0
  {
    if xs == [] then []
    else
      var ks := Keys(xs[..|xs| - 1], key);
      var x := xs[|xs| - 1];
      assert forall y | y in xs :: y in xs[..|xs| - 1] || y == x;
      if key(x) in ks then ks
      else
        assert Members(xs, key, key(x)) == Members(xs[..|xs| - 1], key, key(x)) + [x];
        ks + [key(x)]
  }

  /** The items of `a` followed by those of `b` it lacks, in order. */
  function Union<T(==)>(a: seq<T>, b: seq<T>): (u: seq<T>)
    ensures forall x | x in u :: x in a || x in b
    ensures forall x | x in a :: x in u
    ensures forall x | x in b :: x in u
  {
    if b == [] then a
    else
      var u := Union(a, b[..|b| - 1]);
      if b[|b| - 1] in u then u else u + [b[|b| - 1]]
  }

  lemma KeysAreExactly<T>(xs: seq<T>, key: T -> Key, k: Key)
    ensures k in Keys(xs, key) <==> exists x | x in xs :: key(x) == k
  {
    if k in Keys(xs, key) {
      var m := Members(xs, key, k);
      assert m[0] in m;
    }
  }

  function MapSeq<T, U>(xs: seq<T>, m: T -> U): (ys: seq<U>)
    ensures |ys| == |xs|
    ensures forall i | 0 <= i < |xs| :: ys[i] == m(xs[i])
  {
    seq(|xs|, i requires 0 <= i < |xs| => m(xs[i]))
  }

  /** The sum over one group. */
  function GroupSum<T>(xs: seq<T>, key: T -> Key, f: T -> real): Key -> real {
    k => SumOf(Members(xs, key, k), f)
  }

  function Indicator(k0: Key, v: real): Key -> real {
    k => if k == k0 then v else 0.0
  }

  lemma {:induction false} SumOfAdd<T>(xs: seq<T>, f: T -> real, g: T -> real, h: T -> real)
    requires forall x | x in xs :: h(x) == f(x) + g(x)
    ensures SumOf(xs, h) == SumOf(xs, f) + SumOf(xs, g)
    decreases |xs|
  {
    if xs != [] {
      SumOfAdd(xs[..|xs| - 1], f, g, h);
    }
  }

  lemma {:induction false} IndicatorAbsent(ks: seq<Key>, k0: Key, v: real)
    requires k0 !in ks
    ensures SumOf(ks, Indicator(k0, v)) == 0.0
    decreases |ks|
  {
    if ks != [] {
      IndicatorAbsent(ks[..|ks| - 1], k0, v);
    }
  }

  lemma {:induction false} IndicatorOnce(ks: seq<Key>, k0: Key, v: real)
    requires NoDuplicates(ks) && k0 in ks
    ensures SumOf(ks, Indicator(k0, v)) == v
    decreases |ks|
  {
    var front := ks[..|ks| - 1];
    if ks[|ks| - 1] == k0 {
      IndicatorAbsent(front, k0, v);
    } else {
      IndicatorOnce(front, k0, v);
    }
  }

  /** Summing row by row equals summing group by group, over any duplicate-free
      list of keys that covers every row's key. */
  lemma {:induction false} PartitionSum<T>(xs: seq<T>, key: T -> Key, ks: seq<Key>, f: T -> real)
    requires NoDuplicates(ks)
    requires forall x | x in xs :: key(x) in ks
    ensures SumOf(xs, f) == SumOf(ks, GroupSum(xs, key, f))
    decreases |xs|
  {
    if xs == [] {
      SumOfPointwise(ks, GroupSum(xs, key, f), Indicator([], 0.0));
      if [] in ks {
        IndicatorOnce(ks, [], 0.0);
      } else {
        IndicatorAbsent(ks, [], 0.0);
      }
    } else {
      var ys := xs[..|xs| - 1];
      var x := xs[|xs| - 1];
      PartitionSum(ys, key, ks, f);
      forall k | k in ks
        ensures GroupSum(xs, key, f)(k) == GroupSum(ys, key, f)(k) + Indicator(key(x), f(x))(k)
      {
        var m := Members(ys, key, k);
        if key(x) == k {
          assert Members(xs, key, k) == m + [x];
          assert (m + [x])[..|m + [x]| - 1] == m;
        } else {
          assert Members(xs, key, k) == m + [];
          assert m + [] == m;
        }
      }
      SumOfAdd(ks, GroupSum(ys, key, f), Indicator(key(x), f(x)), GroupSum(xs, key, f));
      IndicatorOnce(ks, key(x), f(x));
    }
  }

  lemma {:induction false} MembersNoDuplicates(ks: seq<Key>, key: Key -> Key, g: Key)
    requires NoDuplicates(ks)
    ensures NoDuplicates(Members(ks, key, g))
    decreases |ks|
  {
    if ks != [] {
      var front := ks[..|ks| - 1];
      assert NoDuplicates(front);
      MembersNoDuplicates(front, key, g);
      var m := Members(front, key, g);
      var last := ks[|ks| - 1];
      assert last !in front;
      assert last !in m;
    }
  }

  /** Selecting a finer group inside a coarser one that contains it is the
      same as selecting the finer group directly. */
  lemma {:induction false} MembersRefine<T>(xs: seq<T>, coarse: T -> Key, fine: T -> Key, g: Key, sk: Key)
    requires forall x | x in xs && fine(x) == sk :: coarse(x) == g
    ensures Members(Members(xs, coarse, g), fine, sk) == Members(xs, fine, sk)
    decreases |xs|
  {
    if xs != [] {
      var ys := xs[..|xs| - 1];
      var x := xs[|xs| - 1];
      assert forall y | y in ys :: y in xs;
      MembersRefine(ys, coarse, fine, g, sk);
      var inner := Members(ys, coarse, g);
      if coarse(x) == g {
        assert Members(xs, coarse, g) == inner + [x];
        assert (inner + [x])[..|inner + [x]| - 1] == inner;
      } else {
        assert Members(xs, coarse, g) == inner + [];
        assert inner + [] == inner;
      }
    }
  }

  lemma MapSeqSnoc<T, U>(xs: seq<T>, x: T, m: T -> U)
    ensures MapSeq(xs + [x], m) == MapSeq(xs, m) + [m(x)]
  {
  }

  lemma MapSeqFront<T, U>(xs: seq<T>, m: T -> U)
    requires xs != []
    ensures MapSeq(xs, m)[..|xs| - 1] == MapSeq(xs[..|xs| - 1], m)
    ensures MapSeq(xs, m)[|xs| - 1] == m(xs[|xs| - 1])
  {
  }

  /** Mapping rows by a function that keeps their key commutes with grouping. */
  lemma {:induction false} MembersOfMap<T, U>(xs: seq<T>, m: T -> U, keyU: U -> Key, keyT: T -> Key, k: Key)
    requires forall x | x in xs :: keyU(m(x)) == keyT(x)
    ensures Members(MapSeq(xs, m), keyU, k) == MapSeq(Members(xs, keyT, k), m)
    decreases |xs|
  {
    if xs != [] {
      var ys := xs[..|xs| - 1];
      var x := xs[|xs| - 1];
      assert forall y | y in ys :: y in xs;
      MapSeqFront(xs, m);
      MembersOfMap(ys, m, keyU, keyT, k);
      var inner := Members(ys, keyT, k);
      assert Members(MapSeq(xs, m), keyU, k)
             == MapSeq(inner, m) + (if keyT(x) == k then [m(x)] else []);
      if keyT(x) == k {
        MapSeqSnoc(inner, x, m);
      } else {
        assert inner + [] == inner;
      }
    }
  }

  lemma {:induction false} KeysOfMap<T, U>(xs: seq<T>, m: T -> U, keyU: U -> Key, keyT: T -> Key)
    requires forall x | x in xs :: keyU(m(x)) == keyT(x)
    ensures Keys(MapSeq(xs, m), keyU) == Keys(xs, keyT)
    decreases |xs|
  {
    if xs != [] {
      var ys := xs[..|xs| - 1];
      assert forall y | y in ys :: y in xs;
      assert MapSeq(xs, m)[..|xs| - 1] == MapSeq(ys, m);
      KeysOfMap(ys, m, keyU, keyT);
    }
  }

  lemma {:induction false} SumOfMap<T, U>(xs: seq<T>, m: T -> U, f: U -> real, g: T -> real)
    requires forall x | x in xs :: g(x) == f(m(x))
    ensures SumOf(MapSeq(xs, m), f) == SumOf(xs, g)
    decreases |xs|
  {
    if xs != [] {
      var ys := xs[..|xs| - 1];
      assert forall y | y in ys :: y in xs;
      assert MapSeq(xs, m)[..|xs| - 1] == MapSeq(ys, m);
      SumOfMap(ys, m, f, g);
    }
  }

  lemma KeysSnoc<T>(ys: seq<T>, x: T, key: T -> Key)
    ensures Keys(ys + [x], key) == if key(x) in Keys(ys, key) then Keys(ys, key) else Keys(ys, key) + [key(x)]
  {
    assert (ys + [x])[..|ys + [x]| - 1] == ys;
  }

  /** Grouping the distinct fine keys by a coarser key gives the coarse keys,
      in the same order. */
  lemma {:induction false} KeysOfKeys<T>(xs: seq<T>, fine: T -> Key, coarsen: Key -> Key, coarse: T -> Key)
    requires forall x | x in xs :: coarse(x) == coarsen(fine(x))
    ensures Keys(Keys(xs, fine), coarsen) == Keys(xs, coarse)
    decreases |xs|
  {
    if xs != [] {
      var ys := xs[..|xs| - 1];
      var x := xs[|xs| - 1];
      assert xs == ys + [x];
      assert forall y | y in ys :: y in xs;
      KeysOfKeys(ys, fine, coarsen, coarse);
      var k2 := Keys(ys, fine);
      var kc := Keys(ys, coarse);
      assert kc == Keys(k2, coarsen);
      KeysSnoc(ys, x, fine);
      KeysSnoc(ys, x, coarse);
      assert coarse(x) == coarsen(fine(x));
      if fine(x) in k2 {
        assert coarsen(fine(x)) in kc;
      } else {
        KeysSnoc(k2, fine(x), coarsen);
      }
    }
  }

  // ------------------------------------------- index-aligned sequences

  /** Two sequences that agree position by position under `f` and `g` have
      the same sum. */
  lemma {:induction false} SumAligned<T, U>(xs: seq<T>, f: T -> real, ys: seq<U>, g: U -> real)
    requires |xs| == |ys|
    requires forall i | 0 <= i < |xs| :: f(xs[i]) == g(ys[i])
    ensures SumOf(xs, f) == SumOf(ys, g)
    decreases |xs|
  {
    if xs != [] {
      SumAligned(xs[..|xs| - 1], f, ys[..|ys| - 1], g);
    }
  }

  /** Two sequences whose keys agree position by position have the same keys
      in the same order. */
  lemma {:induction false} KeysAligned<T, U>(xs: seq<T>, kx: T -> Key, ys: seq<U>, ky: U -> Key)
    requires |xs| == |ys|
    requires forall i | 0 <= i < |xs| :: kx(xs[i]) == ky(ys[i])
    ensures Keys(xs, kx) == Keys(ys, ky)
    decreases |xs|
  {
    if xs != [] {
      var n := |xs| - 1;
      KeysAligned(xs[..n], kx, ys[..n], ky);
    }
  }

  /** `xs` and `ys` agree position by position in key and value. */
  predicate Aligned<T, U>(xs: seq<T>, kx: T -> Key, f: T -> real, ys: seq<U>, ky: U -> Key, g: U -> real) {
    |xs| == |ys| && forall i | 0 <= i < |xs| :: kx(xs[i]) == ky(ys[i]) && f(xs[i]) == g(ys[i])
  }

  lemma AlignedFront<T, U>(xs: seq<T>, kx: T -> Key, f: T -> real, ys: seq<U>, ky: U -> Key, g: U -> real)
    requires Aligned(xs, kx, f, ys, ky, g) && |xs| > 0
    ensures Aligned(xs[..|xs| - 1], kx, f, ys[..|ys| - 1], ky, g)
  {
  }

  /** ... and every group has the same size and the same sum. */
  lemma {:induction false} MembersAligned<T, U>(xs: seq<T>, kx: T -> Key, f: T -> real,
                                                ys: seq<U>, ky: U -> Key, g: U -> real, k: Key)
    requires Aligned(xs, kx, f, ys, ky, g)
    ensures |Members(xs, kx, k)| == |Members(ys, ky, k)|
    ensures SumOf(Members(xs, kx, k), f) == SumOf(Members(ys, ky, k), g)
    decreases |xs|
  {
    if xs != [] {
      var n := |xs| - 1;
      AlignedFront(xs, kx, f, ys, ky, g);
      MembersAligned(xs[..n], kx, f, ys[..n], ky, g, k);
      var mx := Members(xs[..n], kx, k);
      var my := Members(ys[..n], ky, k);
      assert kx(xs[n]) == ky(ys[n]) && f(xs[n]) == g(ys[n]);
      assert Members(xs, kx, k) == mx + (if kx(xs[n]) == k then [xs[n]] else []);
      assert Members(ys, ky, k) == my + (if ky(ys[n]) == k then [ys[n]] else []);
      if kx(xs[n]) == k {
        SumOfAppend(mx, [xs[n]], f);
        SumOfAppend(my, [ys[n]], g);
        SumOfSingle(xs[n], f);
        SumOfSingle(ys[n], g);
      } else {
        assert mx + [] == mx && my + [] == my;
      }
    }
  }
}
