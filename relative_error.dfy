/** Scoring an approximate answer against the exact one (main.py:92-103):
    the cell-wise relative error `|truth - estimate| / truth` over the two
    tables aligned on their index and columns, with every undefined cell
    (a side missing, or 0/0) replaced by 1; and the total error, the sum of
    all cells over their number (main.py:140, main.py:555). The arithmetic
    follows IEEE floating point where it leaves the reals: a non-zero
    difference over a zero truth is +infinity, 0/0 is NaN. */
module RelativeError {
  import opened Frames
  import opened Grouping
  import opened Config

  /** A floating-point outcome: a finite number, +infinity or NaN.
      `|d| / truth` with `d` finite is never -infinity. */
  datatype Score = Finite(v: real) | PosInf | NaN

  function Abs(x: real): real {
    if x < 0.0 then -x else x
  }

  /** The value of column `c` at index `k`, if the table has one: the first
      entry with that key decides. */
  function Lookup(es: seq<Entry>, k: Key, c: string): (r: Option<real>)
    ensures r.Some? ==> exists e | e in es :: e.key == k && c in e.row && e.row[c] == r.value
    ensures (forall e | e in es :: e.key != k) ==> r == None
  {
    if es == [] then None
    else if es[0].key == k then (if c in es[0].row then Some(es[0].row[c]) else None)
    else Lookup(es[1..], k, c)
  }

  /** One cell of `(truth - estimate).abs() / truth` before `fillna`. */
  function Cell(truth: Option<real>, est: Option<real>): (r: Score)
    ensures r == NaN <==> truth == None || est == None || (truth == Some(0.0) && est == Some(0.0))
    ensures r == PosInf <==> truth == Some(0.0) && est.Some? && est.value != 0.0
    ensures r.Finite? ==> truth.Some? && est.Some? && truth.value != 0.0 &&
                          r.v * truth.value == Abs(truth.value - est.value)
  {
    if truth.None? || est.None? then NaN
    else
      var d := Abs(truth.value - est.value);
      if truth.value == 0.0 then (if d == 0.0 then NaN else PosInf)
      else Finite(d / truth.value)
  }

  /** `fillna(1)`: an undefined cell counts as a 100% error. */
  function FillNa(s: Score): (r: Score)
    ensures r != NaN
    ensures s != NaN ==> r == s
    ensures s == NaN ==> r == Finite(1.0)
  {
    if s == NaN then Finite(1.0) else s
  }

  function EntryKey(): Entry -> Key {
    (e: Entry) => e.key
  }

  /** The index of a table: its distinct keys. */
  function IndexOf(t: Table): seq<Key> {
    Keys(t.entries, EntryKey())
  }

  function ErrorCell(truth: Table, est: Table, k: Key, c: string): Score {
    FillNa(Cell(Lookup(truth.entries, k, c), Lookup(est.entries, k, c)))
  }

  /** The relative-error table: one row per key of either table, one column
      per column of either table. */
  datatype ErrorTable = ErrorTable(keys: seq<Key>, columns: seq<string>, cells: seq<seq<Score>>)

  predicate Rectangular(d: ErrorTable) {
    |d.cells| == |d.keys| && forall i | 0 <= i < |d.cells| :: |d.cells[i]| == |d.columns|
  }

  /** `compare_aggregation` (main.py:92-103): pandas aligns the two tables on
      the union of their indexes and of their columns before the arithmetic. */
  function Compare(truth: Table, est: Table): (d: ErrorTable)
    ensures Rectangular(d)
    ensures forall k :: k in d.keys <==> (exists e | e in truth.entries :: e.key == k) || (exists e | e in est.entries :: e.key == k)
    ensures forall c :: c in d.columns <==> c in truth.columns || c in est.columns
    ensures forall i, j | 0 <= i < |d.cells| && 0 <= j < |d.cells[i]| :: d.cells[i][j] != NaN
  {
    var ks := Union(IndexOf(truth), IndexOf(est));
    var cs := Union(truth.columns, est.columns);
    forall k
      ensures k in ks <==> (exists e | e in truth.entries :: e.key == k) || (exists e | e in est.entries :: e.key == k)
    {
      KeysAreExactly(truth.entries, EntryKey(), k);
      KeysAreExactly(est.entries, EntryKey(), k);
    }
    ErrorTable(ks, cs, seq(|ks|, i requires 0 <= i < |ks| =>
                          seq(|cs|, j requires 0 <= j < |cs| => ErrorCell(truth, est, ks[i], cs[j]))))
  }

  // ------------------------------------------------------------ the total

  /** numpy's `+` on scores: NaN absorbs everything, then +infinity. */
  function Add(a: Score, b: Score): Score {
    if a == NaN || b == NaN then NaN
    else if a == PosInf || b == PosInf then PosInf
    else Finite(a.v + b.v)
  }

  /** `values.sum()`. */
  function SumScores(xs: seq<Score>): Score {
    if xs == [] then Finite(0.0) else Add(SumScores(xs[..|xs| - 1]), xs[|xs| - 1])
  }

  /** The cells row after row, as `values` flattens them. */
  function Flatten(cells: seq<seq<Score>>): seq<Score> {
    if cells == [] then [] else Flatten(cells[..|cells| - 1]) + cells[|cells| - 1]
  }

  /** `diff.values.sum() / diff.size` (main.py:140, main.py:555). An empty
      table sums to 0 and 0/0 is NaN. */
  function Total(d: ErrorTable): Score {
    var size := |d.keys| * |d.columns|;
    match SumScores(Flatten(d.cells))
    case NaN => NaN
    case PosInf => PosInf
    case Finite(v) => if size == 0 then NaN else Finite(v / size as real)
  }

  // ---------------------------------------------------------------- facts

  /** The number a finite score stands for. */
  function ScoreValue(): Score -> real {
    (x: Score) => if x.Finite? then x.v else 0.0
  }

  /** A sum of finite scores is the finite sum of their values. */
  lemma {:induction false} SumOfFinite(xs: seq<Score>)
    requires forall x | x in xs :: x.Finite?
    ensures SumScores(xs) == Finite(SumOf(xs, ScoreValue()))
    decreases |xs|
  {
    if xs != [] {
      var front := xs[..|xs| - 1];
      assert forall x | x in front :: x in xs;
      assert xs[|xs| - 1] in xs;
      SumOfFinite(front);
    }
  }

  /** A sum with no NaN is +infinity exactly when some term is. */
  lemma {:induction false} SumOfInfinite(xs: seq<Score>)
    requires forall x | x in xs :: x != NaN
    ensures SumScores(xs) != NaN
    ensures SumScores(xs) == PosInf <==> PosInf in xs
    decreases |xs|
  {
    if xs != [] {
      var front := xs[..|xs| - 1];
      assert forall x | x in front :: x in xs;
      assert xs[|xs| - 1] in xs;
      assert PosInf in xs <==> PosInf in front || xs[|xs| - 1] == PosInf by {
        assert xs == front + [xs[|xs| - 1]];
      }
      SumOfInfinite(front);
    }
  }

  lemma {:induction false} FlattenLength(cells: seq<seq<Score>>, w: nat)
    requires forall i | 0 <= i < |cells| :: |cells[i]| == w
    ensures |Flatten(cells)| == |cells| * w
    decreases |cells|
  {
    if cells != [] {
      var front := cells[..|cells| - 1];
      FlattenLength(front, w);
      assert |Flatten(cells)| == |front| * w + w;
      assert |front| * w + w == (|front| + 1) * w;
    }
  }

  lemma {:induction false} FlattenMembers(cells: seq<seq<Score>>, x: Score)
    ensures x in Flatten(cells) <==> exists i | 0 <= i < |cells| :: x in cells[i]
    decreases |cells|
  {
    if cells != [] {
      var front := cells[..|cells| - 1];
      var last := cells[|cells| - 1];
      FlattenMembers(front, x);
      assert Flatten(cells) == Flatten(front) + last;
      if x in last {
        assert x in cells[|cells| - 1];
      }
      if exists i | 0 <= i < |cells| :: x in cells[i] {
        var i :| 0 <= i < |cells| && x in cells[i];
        if i < |cells| - 1 {
          assert cells[i] == front[i];
        }
      }
    }
  }

  /** A cell lies in the flattened values exactly when it lies in the table. */
  lemma FlattenHas(d: ErrorTable, x: Score)
    requires Rectangular(d)
    ensures |Flatten(d.cells)| == |d.keys| * |d.columns|
    ensures x in Flatten(d.cells) <==> exists i, j | 0 <= i < |d.cells| && 0 <= j < |d.cells[i]| :: d.cells[i][j] == x
  {
    FlattenLength(d.cells, |d.columns|);
    FlattenMembers(d.cells, x);
    if x in Flatten(d.cells) {
      var i :| 0 <= i < |d.cells| && x in d.cells[i];
      var j :| 0 <= j < |d.cells[i]| && d.cells[i][j] == x;
    }
  }

  /** The total of a table of finite errors is their mean. */
  lemma TotalIsMean(d: ErrorTable)
    requires Rectangular(d)
    requires forall i, j | 0 <= i < |d.cells| && 0 <= j < |d.cells[i]| :: d.cells[i][j].Finite?
    requires |d.keys| * |d.columns| > 0
    ensures |Flatten(d.cells)| == |d.keys| * |d.columns|
    ensures forall x | x in Flatten(d.cells) :: x.Finite?
    ensures Total(d) == Finite(SumOf(Flatten(d.cells), ScoreValue()) / (|Flatten(d.cells)| as real))
  {
    forall x | x in Flatten(d.cells)
      ensures x.Finite?
    {
      FlattenHas(d, x);
    }
    FlattenHas(d, NaN);
    SumOfFinite(Flatten(d.cells));
  }

  /** A table without NaN totals +infinity exactly when some cell is
      +infinity (a non-zero estimate of a zero truth). */
  lemma TotalInfinite(d: ErrorTable)
    requires Rectangular(d)
    requires forall i, j | 0 <= i < |d.cells| && 0 <= j < |d.cells[i]| :: d.cells[i][j] != NaN
    ensures Total(d) == PosInf <==> exists i, j | 0 <= i < |d.cells| && 0 <= j < |d.cells[i]| :: d.cells[i][j] == PosInf
  {
    forall x | x in Flatten(d.cells)
      ensures x != NaN
    {
      FlattenHas(d, x);
    }
    FlattenHas(d, PosInf);
    SumOfInfinite(Flatten(d.cells));
  }

  /** The total of a compared pair is never NaN unless the aligned table is
      empty: `fillna` removed every NaN cell. */
  lemma CompareTotalDefined(truth: Table, est: Table)
    requires |Compare(truth, est).keys| * |Compare(truth, est).columns| > 0
    ensures Total(Compare(truth, est)) != NaN
  {
    var d := Compare(truth, est);
    forall x | x in Flatten(d.cells)
      ensures x != NaN
    {
      FlattenHas(d, x);
    }
    SumOfInfinite(Flatten(d.cells));
  }

  /** Scores between `lo` and `hi` sum to between `lo` and `hi` times
      their number. */
  lemma {:induction false} SumBounds(xs: seq<Score>, lo: real, hi: real)
    requires forall i | 0 <= i < |xs| :: xs[i].Finite? && lo <= xs[i].v <= hi
    ensures lo * (|xs| as real) <= SumOf(xs, ScoreValue()) <= hi * (|xs| as real)
    decreases |xs|
  {
    if xs != [] {
      var front := xs[..|xs| - 1];
      var last := xs[|xs| - 1];
      SumBounds(front, lo, hi);
      BoundsStep(SumOf(front, ScoreValue()), |front| as real, last.v, lo, hi,
                 SumOf(xs, ScoreValue()), |xs| as real);
    }
  }

  lemma BoundsStep(s: real, n: real, v: real, lo: real, hi: real, total: real, count: real)
    requires lo * n <= s <= hi * n && lo <= v <= hi
    requires total == s + v && count == n + 1.0
    ensures lo * count <= total <= hi * count
  {
  }

  lemma MeanBetween(s: real, n: real, lo: real, hi: real)
    requires n > 0.0 && lo * n <= s <= hi * n
    ensures lo <= s / n <= hi
  {
  }

  /** Finite scores between `lo` and `hi` have a mean between them. */
  lemma ScoresBounds(xs: seq<Score>, lo: real, hi: real)
    requires |xs| > 0
    requires forall x | x in xs :: x.Finite? && lo <= x.v <= hi
    ensures SumScores(xs).Finite? && lo <= SumScores(xs).v / (|xs| as real) <= hi
  {
    SumOfFinite(xs);
    InBounds(xs, lo, hi);
    MeanOfBounded(xs, lo, hi);
  }

  lemma MeanOfBounded(xs: seq<Score>, lo: real, hi: real)
    requires |xs| > 0
    requires forall i | 0 <= i < |xs| :: xs[i].Finite? && lo <= xs[i].v <= hi
    ensures lo <= SumOf(xs, ScoreValue()) / (|xs| as real) <= hi
  {
    SumBounds(xs, lo, hi);
    MeanBetween(SumOf(xs, ScoreValue()), |xs| as real, lo, hi);
  }

  lemma InBounds(xs: seq<Score>, lo: real, hi: real)
    requires forall x | x in xs :: x.Finite? && lo <= x.v <= hi
    ensures forall i | 0 <= i < |xs| :: xs[i].Finite? && lo <= xs[i].v <= hi
  {
    forall i | 0 <= i < |xs|
      ensures xs[i].Finite? && lo <= xs[i].v <= hi
    {
      assert xs[i] in xs;
    }
  }

  /** When every cell lies between `lo` and `hi`, so does the total. */
  lemma TotalBounds(d: ErrorTable, lo: real, hi: real)
    requires Rectangular(d)
    requires forall i, j | 0 <= i < |d.cells| && 0 <= j < |d.cells[i]| :: d.cells[i][j].Finite? && lo <= d.cells[i][j].v <= hi
    requires |d.keys| * |d.columns| > 0
    ensures Total(d).Finite? && lo <= Total(d).v <= hi
  {
    var xs := Flatten(d.cells);
    forall x | x in xs
      ensures x.Finite? && lo <= x.v <= hi
    {
      FlattenHas(d, x);
    }
    FlattenHas(d, NaN);
    ScoresBounds(xs, lo, hi);
  }

  // ---------------------------------------------------------- cell values

  /** The cell of key `i` and column `j` of a comparison. */
  lemma CompareCell(truth: Table, est: Table, i: nat, j: nat)
    requires i < |Compare(truth, est).keys| && j < |Compare(truth, est).columns|
    ensures i < |Compare(truth, est).cells| && j < |Compare(truth, est).cells[i]|
    ensures Compare(truth, est).cells[i][j] ==
              FillNa(Cell(Lookup(truth.entries, Compare(truth, est).keys[i], Compare(truth, est).columns[j]),
                          Lookup(est.entries, Compare(truth, est).keys[i], Compare(truth, est).columns[j])))
  {
  }

  /** A value is found under a key that only one entry has. */
  lemma {:induction false} LookupUnique(es: seq<Entry>, n: nat, c: string)
    requires n < |es| && c in es[n].row
    requires forall m | 0 <= m < |es| && m != n :: es[m].key != es[n].key
    ensures Lookup(es, es[n].key, c) == Some(es[n].row[c])
    decreases n
  {
    if n > 0 {
      LookupUnique(es[1..], n - 1, c);
    }
  }

  /** Where either table has no value, the cell scores 1 (`fillna(1)`). */
  lemma MissingScoresOne(truth: Table, est: Table, k: Key, c: string)
    requires Lookup(truth.entries, k, c) == None || Lookup(est.entries, k, c) == None
    ensures ErrorCell(truth, est, k, c) == Finite(1.0)
  {
  }

  /** A key only one side has scores 1 in every column. */
  lemma UnmatchedKey(truth: Table, est: Table, k: Key, c: string)
    requires (forall e | e in truth.entries :: e.key != k) || (forall e | e in est.entries :: e.key != k)
    ensures ErrorCell(truth, est, k, c) == Finite(1.0)
  {
    MissingScoresOne(truth, est, k, c);
  }

  /** With both values present and a non-zero truth `g`, the cell is the
      relative error `|g - e| / g`; it is 0 exactly for a perfect estimate,
      and positive truths give non-negative errors. */
  lemma RelativeCell(g: real, e: real)
    requires g != 0.0
    ensures FillNa(Cell(Some(g), Some(e))).Finite?
    ensures FillNa(Cell(Some(g), Some(e))).v * g == Abs(g - e)
    ensures FillNa(Cell(Some(g), Some(e))).v == 0.0 <==> e == g
    ensures g > 0.0 ==> FillNa(Cell(Some(g), Some(e))).v >= 0.0
    ensures g < 0.0 ==> FillNa(Cell(Some(g), Some(e))).v <= 0.0
  {
  }

  /** A zero truth scores 1 for an exact zero estimate (0/0, then `fillna`)
      and +infinity for any other estimate. */
  lemma ZeroTruthCell(e: real)
    ensures e == 0.0 ==> FillNa(Cell(Some(0.0), Some(e))) == Finite(1.0)
    ensures e != 0.0 ==> FillNa(Cell(Some(0.0), Some(e))) == PosInf
  {
  }

  /** Scoring a table against itself: every cell is 0, except 1 where the
      truth is 0. */
  lemma CompareWithItself(t: Table, n: nat, c: string)
    requires ValidTable(t) && n < |t.entries| && c in t.columns
    requires forall m | 0 <= m < |t.entries| && m != n :: t.entries[m].key != t.entries[n].key
    ensures c in t.entries[n].row
    ensures ErrorCell(t, t, t.entries[n].key, c) == (if t.entries[n].row[c] == 0.0 then Finite(1.0) else Finite(0.0))
  {
    assert t.entries[n] in t.entries;
    LookupUnique(t.entries, n, c);
  }

  /** A column only one side has scores 1 on every key. */
  lemma UnmatchedColumn(truth: Table, est: Table, k: Key, c: string)
    requires ValidTable(truth) && ValidTable(est)
    requires c !in truth.columns || c !in est.columns
    ensures ErrorCell(truth, est, k, c) == Finite(1.0)
  {
    if c !in truth.columns {
      NoColumnNoValue(truth, k, c);
    } else {
      NoColumnNoValue(est, k, c);
    }
    MissingScoresOne(truth, est, k, c);
  }

  lemma NoColumnNoValue(t: Table, k: Key, c: string)
    requires ValidTable(t) && c !in t.columns
    ensures Lookup(t.entries, k, c) == None
  {
  }

  predicate UniqueKeys(t: Table) {
    forall m, n | 0 <= m < n < |t.entries| :: t.entries[m].key != t.entries[n].key
  }

  lemma PerfectCell(t: Table, i: nat, j: nat)
    requires ValidTable(t) && UniqueKeys(t)
    requires forall e, c | e in t.entries && c in e.row :: e.row[c] != 0.0
    requires i < |Compare(t, t).keys| && j < |Compare(t, t).columns|
    ensures i < |Compare(t, t).cells| && j < |Compare(t, t).cells[i]|
    ensures Compare(t, t).cells[i][j] == Finite(0.0)
  {
    var d := Compare(t, t);
    assert d.keys[i] in d.keys && d.columns[j] in d.columns;
    CompareCell(t, t, i, j);
    PerfectErrorCell(t, d.keys[i], d.columns[j]);
  }

  /** A key and column of a table with unique keys and no zero value score 0
      against the table itself. */
  lemma PerfectErrorCell(t: Table, k: Key, c: string)
    requires ValidTable(t) && UniqueKeys(t)
    requires forall e, c | e in t.entries && c in e.row :: e.row[c] != 0.0
    requires (exists e | e in t.entries :: e.key == k) && c in t.columns
    ensures ErrorCell(t, t, k, c) == Finite(0.0)
  {
    var e :| e in t.entries && e.key == k;
    var n :| 0 <= n < |t.entries| && t.entries[n] == e;
    assert forall m | 0 <= m < |t.entries| && m != n :: t.entries[m].key != t.entries[n].key;
    CompareWithItself(t, n, c);
  }

  /** An exact answer with no zero value scores 0 in every cell and in
      total. */
  lemma PerfectEstimate(t: Table)
    requires ValidTable(t) && UniqueKeys(t)
    requires forall e, c | e in t.entries && c in e.row :: e.row[c] != 0.0
    requires |Compare(t, t).keys| * |Compare(t, t).columns| > 0
    ensures forall i, j | 0 <= i < |Compare(t, t).cells| && 0 <= j < |Compare(t, t).cells[i]| ::
              Compare(t, t).cells[i][j] == Finite(0.0)
    ensures Total(Compare(t, t)) == Finite(0.0)
  {
    var d := Compare(t, t);
    forall i, j | 0 <= i < |d.cells| && 0 <= j < |d.cells[i]|
      ensures d.cells[i][j] == Finite(0.0)
    {
      PerfectCell(t, i, j);
    }
    TotalBounds(d, 0.0, 0.0);
  }

  /** An estimate that shares no index with the truth scores 1 in every
      cell and in total. */
  lemma DisjointEstimate(truth: Table, est: Table)
    requires forall e, f | e in truth.entries && f in est.entries :: e.key != f.key
    requires |Compare(truth, est).keys| * |Compare(truth, est).columns| > 0
    ensures forall i, j | 0 <= i < |Compare(truth, est).cells| && 0 <= j < |Compare(truth, est).cells[i]| ::
              Compare(truth, est).cells[i][j] == Finite(1.0)
    ensures Total(Compare(truth, est)) == Finite(1.0)
  {
    var d := Compare(truth, est);
    forall i, j | 0 <= i < |d.cells| && 0 <= j < |d.cells[i]|
      ensures d.cells[i][j] == Finite(1.0)
    {
      CompareCell(truth, est, i, j);
      UnmatchedKey(truth, est, d.keys[i], d.columns[j]);
    }
    TotalBounds(d, 1.0, 1.0);
  }
}
