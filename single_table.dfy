/** What the single-table path's estimate holds: one entry per group of the
    sample, in which `sum(c)` is the group's total of `c` divided by the
    group's mean rate, `avg(c)` the plain mean of `c`, and the first rate
    column is gone. */
module SingleTableEstimates {
  import opened Frames
  import opened Grouping
  import opened Aggregation
  import opened Columns
  import opened Config
  import opened Dictionaries
  import opened SampleAggregation

  /** The single-table path's inputs, with a first rate column that is not
      itself named like a `sum(...)` output (it would otherwise be divided by
      itself before it is read). */
  predicate SingleTableReady(s: Frame, rates: seq<string>) {
    SingleReady(s, rates) && !StartsWith(rates[0], "sum")
  }

  /** The sample's group keys, in order of first appearance. */
  function Groups(s: Frame, q: Query): seq<Key> {
    Keys(s.rows, KeyFn(q.groupbyCols))
  }

  /** The sample's rows in group `i`. */
  function Group(s: Frame, q: Query, i: nat): seq<Row>
    requires i < |Groups(s, q)|
  {
    GroupRows(s, q.groupbyCols, i)
  }

  /** The grouped sample has the dictionary's columns, once each, and every
      entry holds each of them. */
  lemma GroupsFacts(s: Frame, q: Query, rates: seq<string>, i: nat)
    requires SingleTableReady(s, rates) && i < |Groups(s, q)|
    ensures NoDuplicates(SingleGroups(s, q, rates).columns)
    ensures NonZeroIn(SingleGroups(s, q, rates), rates[0])
    ensures i < |SingleGroups(s, q, rates).entries|
    ensures SingleGroups(s, q, rates).entries[i].key == Groups(s, q)[i]
    ensures forall n :: n in SingleGroups(s, q, rates).entries[i].row <==> n in SingleGroups(s, q, rates).columns
  {
    var d := PlainDict(q, rates);
    SingleRatePositive(s, q, rates);
    GroupFrameEntry(s, q.groupbyCols, d, i);
  }

  /** The group's mean rate, as the path reads it from its rate column. */
  lemma GroupRate(s: Frame, q: Query, rates: seq<string>, i: nat)
    requires SingleTableReady(s, rates) && i < |Groups(s, q)|
    ensures i < |SingleGroups(s, q, rates).entries| && |Group(s, q, i)| > 0
    ensures Val(SingleGroups(s, q, rates).entries[i].row, rates[0])
            == SumOf(Group(s, q, i), ValFn(rates[0])) / (|Group(s, q, i)| as real)
  {
    BaseDictSpecs(q, rates, SumRole, rates[0]);
    GroupFrameMean(s, q.groupbyCols, PlainDict(q, rates), i, rates[0], rates[0]);
  }

  /** The estimate has one entry per group, in group order; its columns are
      the `avg(...)` and `sum(...)` names and every rate column but the first
      (main.py:372-389). */
  lemma SingleShape(s: Frame, q: Query, rates: seq<string>)
    requires SingleTableReady(s, rates)
    ensures |SingleTable(s, q, rates).entries| == |Groups(s, q)|
    ensures forall i | 0 <= i < |Groups(s, q)| :: SingleTable(s, q, rates).entries[i].key == Groups(s, q)[i]
    ensures forall n :: n in SingleTable(s, q, rates).columns <==>
              IsAvgName(q.avgCols, n) || IsSumName(q.sumCols, n) || (n in rates && n != rates[0])
  {
    var d := PlainDict(q, rates);
    SingleRatePositive(s, q, rates);
    forall i | 0 <= i < |Groups(s, q)|
      ensures SingleTable(s, q, rates).entries[i].key == Groups(s, q)[i]
    {
      GroupFrameEntry(s, q.groupbyCols, d, i);
    }
    forall n
      ensures n in SingleTable(s, q, rates).columns <==>
              IsAvgName(q.avgCols, n) || IsSumName(q.sumCols, n) || (n in rates && n != rates[0])
    {
      BaseDictSpecs(q, rates, SumRole, n);
      assert n in d.names <==> n in d.specs;
    }
  }

  /** `sum(c)` of group `i` is the group's total of `c` over the group's mean
      of the first rate column (main.py:383-388). */
  lemma SingleSum(s: Frame, q: Query, rates: seq<string>, i: nat, c: string)
    requires SingleTableReady(s, rates) && i < |Groups(s, q)| && c in q.sumCols
    ensures i < |SingleTable(s, q, rates).entries| && |Group(s, q, i)| > 0
    ensures SumOf(Group(s, q, i), ValFn(rates[0])) > 0.0
    ensures Val(SingleTable(s, q, rates).entries[i].row, SumName(c))
            == SumOf(Group(s, q, i), ValFn(c)) / (SumOf(Group(s, q, i), ValFn(rates[0])) / (|Group(s, q, i)| as real))
  {
    var t := SingleGroups(s, q, rates);
    GroupsFacts(s, q, rates, i);
    GroupRate(s, q, rates, i);
    RatesPositive(s, rates, Group(s, q, i));
    NamesDiffer(c, c);
    BaseDictSpecs(q, rates, SumRole, SumName(c));
    GroupFrameTotal(s, q.groupbyCols, PlainDict(q, rates), i, SumName(c), c);
    DeletedDividedValue(t, false, rates[0], i, SumName(c));
  }

  /** The rate column is positive on every row of a group. */
  lemma RatesPositive(s: Frame, rates: seq<string>, g: seq<Row>)
    requires SingleReady(s, rates) && |g| > 0 && forall x | x in g :: x in s.rows
    ensures SumOf(g, ValFn(rates[0])) > 0.0
  {
    forall x | x in g
      ensures ValFn(rates[0])(x) > 0.0
    {
    }
    SumOfPositive(g, ValFn(rates[0]));
  }

  /** `avg(c)` of group `i` is the plain mean of `c` over the group's rows: the
      single-table path does not weight the averages (main.py:373-375). */
  lemma SingleMean(s: Frame, q: Query, rates: seq<string>, i: nat, c: string)
    requires SingleTableReady(s, rates) && i < |Groups(s, q)| && c in q.avgCols
    ensures i < |SingleTable(s, q, rates).entries| && |Group(s, q, i)| > 0
    ensures AvgName(c) in SingleTable(s, q, rates).entries[i].row
    ensures SingleTable(s, q, rates).entries[i].row[AvgName(c)] == SumOf(Group(s, q, i), ValFn(c)) / (|Group(s, q, i)| as real)
  {
    var t := SingleGroups(s, q, rates);
    GroupsFacts(s, q, rates, i);
    NamesDiffer(c, c);
    BaseDictSpecs(q, rates, SumRole, AvgName(c));
    GroupFrameMean(s, q.groupbyCols, PlainDict(q, rates), i, AvgName(c), c);
    assert !IsRateColumn(AvgName(c));
    DeletedKeptValue(t, false, rates[0], i, AvgName(c));
  }

  /** With every rate equal to 1 (the full table standing in for a sample),
      `sum(c)` is the group's exact total. */
  lemma SingleSumAtFullRate(s: Frame, q: Query, rates: seq<string>, i: nat, c: string)
    requires SingleTableReady(s, rates) && i < |Groups(s, q)| && c in q.sumCols
    requires forall r | r in s.rows :: Val(r, rates[0]) == 1.0
    ensures i < |SingleTable(s, q, rates).entries|
    ensures Val(SingleTable(s, q, rates).entries[i].row, SumName(c)) == SumOf(Group(s, q, i), ValFn(c))
  {
    var g := Group(s, q, i);
    SingleSum(s, q, rates, i, c);
    UnitMean(g, rates[0]);
    OverOne(SumOf(g, ValFn(c)), SumOf(g, ValFn(rates[0])) / (|g| as real));
  }

  lemma OverOne(x: real, m: real)
    requires m == 1.0
    ensures x / m == x
  {
  }

  /** A column that is 1 on every row has mean 1. */
  lemma UnitMean(g: seq<Row>, c: string)
    requires |g| > 0 && forall x | x in g :: Val(x, c) == 1.0
    ensures SumOf(g, ValFn(c)) / (|g| as real) == 1.0
  {
    SumOfConstantFn(g, ValFn(c), 1.0);
  }
}
