/** The merge of several sampling rounds (main.py:540): the per-round
    estimates are concatenated and averaged per first index level, every
    column over the rounds' entries that hold a value for it (pandas' `mean`
    skips missing values). */
module RoundMerge {
  import opened Frames
  import opened Grouping
  import opened Aggregation
  import opened Columns

  /** `pd.concat(rounds)`: the rounds' entries, round after round. */
  function Concat(rounds: seq<Table>): seq<Entry> {
    if rounds == [] then [] else Concat(rounds[..|rounds| - 1]) + rounds[|rounds| - 1].entries
  }

  /** Some round has column `c`. */
  predicate InSomeRound(rounds: seq<Table>, c: string) {
    exists t | t in rounds :: c in t.columns
  }

  /** The concatenation's columns: every round's, in order of first appearance. */
  function ColumnsOf(rounds: seq<Table>): (cs: seq<string>)
    ensures forall c :: c in cs <==> InSomeRound(rounds, c)
  {
    if rounds == [] then []
    else
      var front := rounds[..|rounds| - 1];
      assert forall t | t in rounds :: t in front || t == rounds[|rounds| - 1];
      Union(ColumnsOf(front), rounds[|rounds| - 1].columns)
  }

  /** 1 for an entry that holds a value in column `c`, 0 for one that does not. */
  function HasValue(c: string): Entry -> real {
    (e: Entry) => if c in e.row then 1.0 else 0.0
  }

  function FirstLevel(): Entry -> Key {
    EntryPrefixFn(1)
  }

  /** The merged row of first-level key `k` over the entries `es`: each column
      with at least one value is the mean of its values. */
  function MergedRow(es: seq<Entry>, cols: seq<string>, k: Key): Row {
    var ms := Members(es, FirstLevel(), k);
    map c | c in ColumnSet(cols) && SumOf(ms, HasValue(c)) > 0.0 :: SumOf(ms, EntryField(c)) / SumOf(ms, HasValue(c))
  }

  function MergedEntryFn(es: seq<Entry>, cols: seq<string>): Key -> Entry {
    k => Entry(k, MergedRow(es, cols, k))
  }

  /** `pd.concat(rounds).groupby(level=0).mean()`. */
  function Merge(rounds: seq<Table>): Table {
    var es := Concat(rounds);
    Table(ColumnsOf(rounds), MapSeq(Keys(es, FirstLevel()), MergedEntryFn(es, ColumnsOf(rounds))))
  }

  /** The merged row of key `k`, wherever it stands in the merge. */
  function MergedAt(rounds: seq<Table>, k: Key): Row {
    MergedRow(Concat(rounds), ColumnsOf(rounds), k)
  }

  /** One round's total of `f` over its entries with first-level key `k`. */
  function RoundSum(k: Key, f: Entry -> real): Table -> real {
    (t: Table) => SumOf(Members(t.entries, FirstLevel(), k), f)
  }

  // ----------------------------------------------------------------- facts

  lemma {:induction false} MembersAppend<T>(xs: seq<T>, ys: seq<T>, key: T -> Key, k: Key)
    ensures Members(xs + ys, key, k) == Members(xs, key, k) + Members(ys, key, k)
    decreases |ys|
  {
    if ys == [] {
      assert xs + ys == xs;
    } else {
      var ys' := ys[..|ys| - 1];
      assert (xs + ys)[..|xs + ys| - 1] == xs + ys';
      MembersAppend(xs, ys', key, k);
    }
  }

  /** A total over the concatenation's group is the sum of the rounds' totals. */
  lemma {:induction false} SumByRounds(rounds: seq<Table>, k: Key, f: Entry -> real)
    ensures SumOf(Members(Concat(rounds), FirstLevel(), k), f) == SumOf(rounds, RoundSum(k, f))
    decreases |rounds|
  {
    if rounds != [] {
      var front := rounds[..|rounds| - 1];
      var last := rounds[|rounds| - 1];
      SumByRounds(front, k, f);
      MembersAppend(Concat(front), last.entries, FirstLevel(), k);
      SumOfAppend(Members(Concat(front), FirstLevel(), k), Members(last.entries, FirstLevel(), k), f);
    }
  }

  /** Taking out the element at `i` removes one copy of it from the multiset. */
  lemma RemoveAtMultiset<T>(ys: seq<T>, i: nat)
    requires i < |ys|
    ensures multiset(ys[..i] + ys[i + 1..]) == multiset(ys) - multiset{ys[i]}
  {
    assert ys == ys[..i] + [ys[i]] + ys[i + 1..];
  }

  /** Taking out the element at `i` removes its term from the sum. */
  lemma RemoveAtSum<T>(ys: seq<T>, i: nat, f: T -> real)
    requires i < |ys|
    ensures SumOf(ys, f) == SumOf(ys[..i] + ys[i + 1..], f) + f(ys[i])
  {
    var front := ys[..i + 1];
    assert front[..i] == ys[..i];
    assert SumOf(front, f) == SumOf(ys[..i], f) + f(ys[i]);
    assert front + ys[i + 1..] == ys;
    SumOfAppend(front, ys[i + 1..], f);
    SumOfAppend(ys[..i], ys[i + 1..], f);
  }

  lemma {:induction false} SumOfPermutation<T>(xs: seq<T>, ys: seq<T>, f: T -> real)
    requires multiset(xs) == multiset(ys)
    ensures SumOf(xs, f) == SumOf(ys, f)
    decreases |xs|
  {
    if xs == [] {
      assert |ys| == |multiset(ys)| == 0;
    } else {
      var front := xs[..|xs| - 1];
      var x := xs[|xs| - 1];
      assert xs == front + [x];
      assert multiset(front) == multiset(xs) - multiset{x};
      assert x in multiset(ys);
      var i :| 0 <= i < |ys| && ys[i] == x;
      RemoveAtMultiset(ys, i);
      RemoveAtSum(ys, i, f);
      SumOfPermutation(front, ys[..i] + ys[i + 1..], f);
      SumOfAppend(front, [x], f);
      SumOfSingle(x, f);
    }
  }

  lemma {:induction false} SumOfAtMost<T>(xs: seq<T>, f: T -> real, g: T -> real)
    requires forall x | x in xs :: f(x) <= g(x)
    ensures SumOf(xs, f) <= SumOf(xs, g)
    decreases |xs|
  {
    if xs != [] {
      SumOfAtMost(xs[..|xs| - 1], f, g);
    }
  }

  /** The first-level key `k` is merged exactly when some entry of some round
      has it. */
  lemma MergeKeys(rounds: seq<Table>, k: Key)
    ensures k in Keys(Concat(rounds), FirstLevel()) <==> SumOf(rounds, RoundSum(k, One())) > 0.0
  {
    var es := Concat(rounds);
    SumByRounds(rounds, k, One());
    SumOfOne(Members(es, FirstLevel(), k));
    var ms := Members(es, FirstLevel(), k);
    if |ms| > 0 {
      assert ms[0] in ms;
    }
  }

  // -------------------------------------------------------------- results

  /** The merge has one entry per first-level key that occurs in any round,
      and the union of the rounds' columns; entry `i` holds the merged row of
      its key (main.py:540). */
  lemma MergeShape(rounds: seq<Table>)
    ensures |Merge(rounds).entries| == |Keys(Concat(rounds), FirstLevel())|
    ensures forall i | 0 <= i < |Merge(rounds).entries| ::
              Merge(rounds).entries[i] == Entry(Keys(Concat(rounds), FirstLevel())[i], MergedAt(rounds, Keys(Concat(rounds), FirstLevel())[i]))
    ensures forall c :: c in Merge(rounds).columns <==> InSomeRound(rounds, c)
  {
  }

  /** A merged value is the rounds' total of the column's values for the key
      over the rounds' number of such values: the mean over every round that
      holds one, each round counting once per entry (main.py:540). */
  lemma MergeValue(rounds: seq<Table>, k: Key, c: string)
    ensures c in MergedAt(rounds, k) <==> InSomeRound(rounds, c) && SumOf(rounds, RoundSum(k, HasValue(c))) > 0.0
    ensures c in MergedAt(rounds, k) ==>
              MergedAt(rounds, k)[c] == SumOf(rounds, RoundSum(k, EntryField(c))) / SumOf(rounds, RoundSum(k, HasValue(c)))
  {
    SumByRounds(rounds, k, HasValue(c));
    SumByRounds(rounds, k, EntryField(c));
  }

  /** Reordering the rounds changes neither which keys are merged nor any
      merged row. */
  lemma MergePermutation(rounds: seq<Table>, others: seq<Table>, k: Key)
    requires multiset(rounds) == multiset(others)
    ensures k in Keys(Concat(rounds), FirstLevel()) <==> k in Keys(Concat(others), FirstLevel())
    ensures MergedAt(rounds, k) == MergedAt(others, k)
  {
    MergeKeys(rounds, k);
    MergeKeys(others, k);
    SumOfPermutation(rounds, others, RoundSum(k, One()));
    forall c
      ensures c in MergedAt(rounds, k) <==> c in MergedAt(others, k)
      ensures c in MergedAt(rounds, k) ==> MergedAt(rounds, k)[c] == MergedAt(others, k)[c]
    {
      MergeValue(rounds, k, c);
      MergeValue(others, k, c);
      SumOfPermutation(rounds, others, RoundSum(k, HasValue(c)));
      SumOfPermutation(rounds, others, RoundSum(k, EntryField(c)));
      assert InSomeRound(rounds, c) <==> InSomeRound(others, c) by {
        forall t | t in rounds
          ensures t in others
        {
          assert t in multiset(rounds);
        }
        forall t | t in others
          ensures t in rounds
        {
          assert t in multiset(others);
        }
      }
    }
  }

  /** Two rows with the same columns and the same values are the same row. */
  lemma RowsEqual(a: Row, b: Row)
    requires forall c :: c in a <==> c in b
    requires forall c | c in a :: a[c] == b[c]
    ensures a == b
  {
  }

  /** Totals `n` times as large have the same ratio. */
  lemma ScaledRatio(sa: real, ha: real, s1: real, h1: real, s: real, h: real, n: real)
    requires n > 0.0 && sa == n * s && ha == n * h && s1 == s && h1 == h
    ensures ha > 0.0 <==> h1 > 0.0
    ensures ha > 0.0 ==> sa / ha == s1 / h1
  {
    if h > 0.0 {
      assert sa / ha == (n * s) / (n * h);
    }
  }

  /** Two lists of rounds with the same column `c`, the same presence of
      values and the same ratio of totals merge to the same value in `c`. */
  lemma MergeSameRatio(rounds: seq<Table>, others: seq<Table>, k: Key, c: string)
    requires InSomeRound(rounds, c) <==> InSomeRound(others, c)
    requires SumOf(rounds, RoundSum(k, HasValue(c))) > 0.0 <==> SumOf(others, RoundSum(k, HasValue(c))) > 0.0
    requires SumOf(rounds, RoundSum(k, HasValue(c))) > 0.0 ==>
               SumOf(rounds, RoundSum(k, EntryField(c))) / SumOf(rounds, RoundSum(k, HasValue(c))) ==
               SumOf(others, RoundSum(k, EntryField(c))) / SumOf(others, RoundSum(k, HasValue(c)))
    ensures c in MergedAt(rounds, k) <==> c in MergedAt(others, k)
    ensures c in MergedAt(others, k) ==> MergedAt(rounds, k)[c] == MergedAt(others, k)[c]
  {
    MergeValue(rounds, k, c);
    MergeValue(others, k, c);
  }

  /** Over copies of one round, a total is the round's own times their number. */
  lemma CopiesTotal(rounds: seq<Table>, t: Table, g: Table -> real)
    requires forall i | 0 <= i < |rounds| :: rounds[i] == t
    ensures SumOf(rounds, g) == (|rounds| as real) * g(t)
    ensures SumOf([t], g) == g(t)
  {
    assert forall u | u in rounds :: g(u) == g(t);
    SumOfConstantFn(rounds, g, g(t));
    SumOfSingle(t, g);
  }

  /** Over copies of one round, the ratio of two totals is that round's own. */
  lemma CopiesRatio(rounds: seq<Table>, t: Table, fs: Table -> real, hs: Table -> real)
    requires |rounds| > 0 && forall i | 0 <= i < |rounds| :: rounds[i] == t
    ensures SumOf(rounds, hs) > 0.0 <==> SumOf([t], hs) > 0.0
    ensures SumOf(rounds, hs) > 0.0 ==> SumOf(rounds, fs) / SumOf(rounds, hs) == SumOf([t], fs) / SumOf([t], hs)
  {
    CopiesTotal(rounds, t, fs);
    CopiesTotal(rounds, t, hs);
    ScaledRatio(SumOf(rounds, fs), SumOf(rounds, hs), SumOf([t], fs), SumOf([t], hs), fs(t), hs(t), |rounds| as real);
  }

  lemma CopiesColumns(rounds: seq<Table>, t: Table, c: string)
    requires |rounds| > 0 && forall i | 0 <= i < |rounds| :: rounds[i] == t
    ensures InSomeRound(rounds, c) <==> InSomeRound([t], c)
  {
    assert rounds[0] in rounds;
    assert t in [t];
    assert forall u | u in rounds :: u == t;
  }

  /** Merging copies of one round gives that round's own merged value: the
      mean of identical estimates is the estimate. */
  lemma MergeCopiesColumn(rounds: seq<Table>, t: Table, k: Key, c: string)
    requires |rounds| > 0 && forall i | 0 <= i < |rounds| :: rounds[i] == t
    ensures c in MergedAt(rounds, k) <==> c in MergedAt([t], k)
    ensures c in MergedAt([t], k) ==> MergedAt(rounds, k)[c] == MergedAt([t], k)[c]
  {
    CopiesColumns(rounds, t, c);
    CopiesRatio(rounds, t, RoundSum(k, EntryField(c)), RoundSum(k, HasValue(c)));
    MergeSameRatio(rounds, [t], k, c);
  }

  /** Merging copies of one round gives that round's own merged rows. */
  lemma MergeCopies(rounds: seq<Table>, t: Table, k: Key)
    requires |rounds| > 0 && forall i | 0 <= i < |rounds| :: rounds[i] == t
    ensures MergedAt(rounds, k) == MergedAt([t], k)
  {
    forall c
      ensures c in MergedAt(rounds, k) <==> c in MergedAt([t], k)
      ensures c in MergedAt([t], k) ==> MergedAt(rounds, k)[c] == MergedAt([t], k)[c]
    {
      MergeCopiesColumn(rounds, t, k, c);
    }
    RowsEqual(MergedAt(rounds, k), MergedAt([t], k));
  }

  /** `v` for an entry holding a value in `c`, 0 for one that does not. */
  function Held(c: string, v: real): Entry -> real {
    (e: Entry) => if c in e.row then v else 0.0
  }

  lemma {:induction false} SumOfHeld(ms: seq<Entry>, c: string, v: real)
    ensures SumOf(ms, Held(c, v)) == v * SumOf(ms, HasValue(c))
    decreases |ms|
  {
    if ms != [] {
      SumOfHeld(ms[..|ms| - 1], c, v);
    }
  }

  lemma LowerTotal(ms: seq<Entry>, c: string, lo: real)
    requires forall e | e in ms && c in e.row :: lo <= e.row[c]
    ensures lo * SumOf(ms, HasValue(c)) <= SumOf(ms, EntryField(c))
  {
    SumOfHeld(ms, c, lo);
    SumOfAtMost(ms, Held(c, lo), EntryField(c));
  }

  lemma UpperTotal(ms: seq<Entry>, c: string, hi: real)
    requires forall e | e in ms && c in e.row :: e.row[c] <= hi
    ensures SumOf(ms, EntryField(c)) <= hi * SumOf(ms, HasValue(c))
  {
    SumOfHeld(ms, c, hi);
    SumOfAtMost(ms, EntryField(c), Held(c, hi));
  }

  /** The mean of the values some entries hold in `c` lies between the least
      and the greatest of them. */
  lemma MeanBounds(ms: seq<Entry>, c: string, lo: real, hi: real)
    requires forall e | e in ms && c in e.row :: lo <= e.row[c] <= hi
    ensures SumOf(ms, HasValue(c)) > 0.0 ==>
              lo <= SumOf(ms, EntryField(c)) / SumOf(ms, HasValue(c)) <= hi
  {
    LowerTotal(ms, c, lo);
    UpperTotal(ms, c, hi);
    if SumOf(ms, HasValue(c)) > 0.0 {
      BetweenRatio(SumOf(ms, EntryField(c)), SumOf(ms, HasValue(c)), lo, hi);
    }
  }

  /** A merged value lies between the least and the greatest of the values it
      averages. */
  lemma MergeBounds(rounds: seq<Table>, k: Key, c: string, lo: real, hi: real)
    requires forall e | e in Concat(rounds) && Prefix(e.key, 1) == k && c in e.row :: lo <= e.row[c] <= hi
    ensures c in MergedAt(rounds, k) ==> lo <= MergedAt(rounds, k)[c] <= hi
  {
    var ms := Members(Concat(rounds), FirstLevel(), k);
    MeanBounds(ms, c, lo, hi);
  }

  lemma BetweenRatio(s: real, h: real, lo: real, hi: real)
    requires h > 0.0 && lo * h <= s <= hi * h
    ensures lo <= s / h <= hi
  {
  }
}
