/** `ground_truth_aggregation`: the exact per-group means and sums, over the
    inner join of the first two full tables (any further table is ignored)
    or over the only table. */
module GroundTruth {
  import opened Frames
  import opened Grouping
  import opened Join
  import opened Aggregation
  import opened Config
  import opened Dictionaries

  /** The tables and query `ground_truth_aggregation` can aggregate: a
      well-formed table, and with several tables the first two well-formed,
      holding their join columns and sharing no column name; group-by
      columns (pandas refuses a group-by over no columns); at least one
      mean or sum column (pandas refuses an empty aggregation); and every
      group-by, mean and sum column present (main.py:204-228). */
  predicate TruthReady(data: seq<Frame>, q: Query) {
    && |data| > 0
    && |q.groupbyCols| > 0
    && |q.avgCols| + |q.sumCols| > 0
    && ValidFrame(data[0])
    && (|data| > 1 ==>
          && |q.joinCols| >= 2
          && ValidFrame(data[1])
          && q.joinCols[0] in data[0].columns && q.joinCols[1] in data[1].columns
          && ColumnSet(data[0].columns) !! ColumnSet(data[1].columns))
    && (forall c | c in q.groupbyCols + q.avgCols + q.sumCols :: c in TruthColumns(data))
  }

  /** The columns of the aggregated frame. */
  function TruthColumns(data: seq<Frame>): seq<string>
    requires |data| > 0
  {
    if |data| > 1 then data[0].columns + data[1].columns else data[0].columns
  }

  /** The frame that is aggregated (main.py:224-228). */
  function TruthInput(data: seq<Frame>, q: Query): Frame
    requires TruthReady(data, q)
  {
    if |data| > 1 then JoinOn(data[0], q.joinCols[0], data[1], q.joinCols[1]) else data[0]
  }

  /** `input.groupby(by=groupby_cols).agg(**aggregations)` (main.py:225-228). */
  function Truth(data: seq<Frame>, q: Query): Table
    requires TruthReady(data, q)
  {
    GroupFrame(TruthInput(data, q), q.groupbyCols, TruthDict(q))
  }

  /** The exact groups, in order of first appearance. */
  function TruthGroups(data: seq<Frame>, q: Query): seq<Key>
    requires TruthReady(data, q)
  {
    Keys(TruthInput(data, q).rows, KeyFn(q.groupbyCols))
  }

  /** With several tables the aggregated rows are exactly the matching pairs of
      the first two tables; a third table plays no part (main.py:224-225). */
  lemma TruthInputRows(data: seq<Frame>, q: Query, r: Row)
    requires TruthReady(data, q) && |data| > 1
    ensures r in TruthInput(data, q).rows <==>
              exists a, b :: IsPair(r, data[0].rows, q.joinCols[0], data[1].rows, q.joinCols[1], a, b)
    ensures TruthInput(data, q) == TruthInput(data[..2], q)
  {
    JoinOnExactly(data[0], q.joinCols[0], data[1], q.joinCols[1], r);
  }

  /** One entry per group, in group order, with exactly the `avg(...)` and
      `sum(...)` columns (main.py:206-216, 225-228). */
  lemma TruthShape(data: seq<Frame>, q: Query)
    requires TruthReady(data, q)
    ensures |Truth(data, q).entries| == |TruthGroups(data, q)|
    ensures forall i | 0 <= i < |TruthGroups(data, q)| :: Truth(data, q).entries[i].key == TruthGroups(data, q)[i]
    ensures forall n :: n in Truth(data, q).columns <==> IsAvgName(q.avgCols, n) || IsSumName(q.sumCols, n)
  {
    forall i | 0 <= i < |TruthGroups(data, q)|
      ensures Truth(data, q).entries[i].key == TruthGroups(data, q)[i]
    {
      GroupFrameEntry(TruthInput(data, q), q.groupbyCols, TruthDict(q), i);
    }
    forall n
      ensures n in Truth(data, q).columns <==> IsAvgName(q.avgCols, n) || IsSumName(q.sumCols, n)
    {
      MeasureDictSpecs(q, SumRole, n);
      assert n in TruthDict(q).names <==> n in TruthDict(q).specs;
    }
  }

  /** `sum(c)` of group `i` is the exact total of `c` over the group. */
  lemma TruthSum(data: seq<Frame>, q: Query, i: nat, c: string)
    requires TruthReady(data, q) && i < |TruthGroups(data, q)| && c in q.sumCols
    ensures i < |Truth(data, q).entries|
    ensures SumName(c) in Truth(data, q).entries[i].row
    ensures Truth(data, q).entries[i].row[SumName(c)] == SumOf(GroupRows(TruthInput(data, q), q.groupbyCols, i), ValFn(c))
  {
    MeasureDictSpecs(q, SumRole, SumName(c));
    GroupFrameTotal(TruthInput(data, q), q.groupbyCols, TruthDict(q), i, SumName(c), c);
  }

  /** `avg(c)` of group `i` is the exact mean of `c` over the group. */
  lemma TruthMean(data: seq<Frame>, q: Query, i: nat, c: string)
    requires TruthReady(data, q) && i < |TruthGroups(data, q)| && c in q.avgCols
    ensures i < |Truth(data, q).entries| && |GroupRows(TruthInput(data, q), q.groupbyCols, i)| > 0
    ensures AvgName(c) in Truth(data, q).entries[i].row
    ensures Truth(data, q).entries[i].row[AvgName(c)]
            == SumOf(GroupRows(TruthInput(data, q), q.groupbyCols, i), ValFn(c))
               / (|GroupRows(TruthInput(data, q), q.groupbyCols, i)| as real)
  {
    MeasureDictSpecs(q, SumRole, AvgName(c));
    GroupFrameMean(TruthInput(data, q), q.groupbyCols, TruthDict(q), i, AvgName(c), c);
  }
}
