/** What Mode A's estimate holds: one entry per group of the joined sample,
    in which `sum(c)` is the sum of `c / rate` over the group's rows (the
    Horvitz-Thompson estimate of the group's total) and `avg(c)` the plain
    mean of `c`. */
module ModeAEstimates {
  import opened Frames
  import opened Grouping
  import opened Aggregation
  import opened Columns
  import opened Config
  import opened Scaling
  import opened Dictionaries
  import opened Weights
  import opened SampleAggregation

  /** No numeric, group-by or averaged column is itself named like the scale
      column of a numeric column, so adding the scale columns overwrites
      nothing the aggregation reads. */
  predicate FreshScaleNames(q: Query, configs: seq<TableConfig>) {
    var ncs := AllNumeric(configs);
    && (forall a, b | a in ncs && b in ncs :: a != ScaleName(b))
    && (forall x, b | x in q.groupbyCols && b in ncs :: x != ScaleName(b))
    && (forall x, b | x in q.avgCols && b in ncs :: x != ScaleName(b))
  }

  predicate ModeAReady(j: Frame, q: Query, configs: seq<TableConfig>) {
    Scalable(j) && ScaleSafe(AllNumeric(configs)) && FreshScaleNames(q, configs)
  }

  /** The group keys of the joined sample, in order of first appearance. */
  function Groups(j: Frame, q: Query): seq<Key> {
    Keys(j.rows, KeyFn(q.groupbyCols))
  }

  /** The joined rows of the group with key `k`. */
  function Group(j: Frame, q: Query, k: Key): seq<Row> {
    Members(j.rows, KeyFn(q.groupbyCols), k)
  }

  /** The scale columns leave every row's group key as it was. */
  lemma ScaledKey(j: Frame, q: Query, configs: seq<TableConfig>, i: nat)
    requires ModeAReady(j, q, configs) && i < |j.rows|
    ensures KeyOf(q.groupbyCols, AddScaleAll(j, AllNumeric(configs)).rows[i]) == KeyOf(q.groupbyCols, j.rows[i])
  {
    var s := AddScaleAll(j, AllNumeric(configs));
    forall m | 0 <= m < |q.groupbyCols|
      ensures KeyOf(q.groupbyCols, s.rows[i])[m] == KeyOf(q.groupbyCols, j.rows[i])[m]
    {
      assert q.groupbyCols[m] in q.groupbyCols;
      UnscaledValue(j, AllNumeric(configs), i, q.groupbyCols[m]);
    }
  }

  lemma ScaledGroups(j: Frame, q: Query, configs: seq<TableConfig>)
    requires ModeAReady(j, q, configs)
    ensures Keys(AddScaleAll(j, AllNumeric(configs)).rows, KeyFn(q.groupbyCols)) == Groups(j, q)
  {
    var s := AddScaleAll(j, AllNumeric(configs));
    forall i | 0 <= i < |s.rows|
      ensures KeyFn(q.groupbyCols)(s.rows[i]) == KeyFn(q.groupbyCols)(j.rows[i])
    {
      ScaledKey(j, q, configs, i);
    }
    KeysAligned(s.rows, KeyFn(q.groupbyCols), j.rows, KeyFn(q.groupbyCols));
  }

  /** The estimate has one entry per group, in group order, and exactly the
      `avg(...)` and `sum(...)` columns: the rate means are dropped
      (main.py:273-299). */
  lemma ModeAShape(j: Frame, q: Query, configs: seq<TableConfig>)
    requires ModeAReady(j, q, configs)
    ensures |ModeA(j, q, configs).entries| == |Groups(j, q)|
    ensures forall i | 0 <= i < |Groups(j, q)| :: ModeA(j, q, configs).entries[i].key == Groups(j, q)[i]
    ensures forall n :: n in ModeA(j, q, configs).columns <==> IsAvgName(q.avgCols, n) || IsSumName(q.sumCols, n)
  {
    ScaledGroups(j, q, configs);
    var d := ModeADict(q, RateCols(configs));
    forall n
      ensures n in ModeA(j, q, configs).columns <==> IsAvgName(q.avgCols, n) || IsSumName(q.sumCols, n)
    {
      BaseDictSpecs(q, RateCols(configs), ScaledSumRole, n);
      assert n in d.names <==> n in d.specs;
      if IsAvgName(q.avgCols, n) || IsSumName(q.sumCols, n) {
        var a :| a in q.avgCols + q.sumCols && (n == AvgName(a) || n == SumName(a));
        NamesDiffer(a, a);
      }
    }
  }

  /** A scaled group's `scale_c` column sums to the group's weighted `c`. */
  lemma ScaledGroupSum(j: Frame, q: Query, configs: seq<TableConfig>, k: Key, c: string)
    requires ModeAReady(j, q, configs) && c in AllNumeric(configs)
    ensures var s := AddScaleAll(j, AllNumeric(configs));
            SumOf(Members(s.rows, KeyFn(q.groupbyCols), k), FieldFn(RowId(), ScaleName(c)))
            == SumOf(Group(j, q, k), WeightedFn(j.columns, ValFn(c)))
  {
    var s := AddScaleAll(j, AllNumeric(configs));
    var g := KeyFn(q.groupbyCols);
    forall i | 0 <= i < |s.rows|
      ensures g(s.rows[i]) == g(j.rows[i])
      ensures FieldFn(RowId(), ScaleName(c))(s.rows[i]) == WeightedFn(j.columns, ValFn(c))(j.rows[i])
    {
      ScaledKey(j, q, configs, i);
      ScaledValue(j, AllNumeric(configs), i, c);
    }
    MembersAligned(s.rows, g, FieldFn(RowId(), ScaleName(c)), j.rows, g, WeightedFn(j.columns, ValFn(c)), k);
  }

  /** ... and a column that is no scale column sums and counts as before. */
  lemma UnscaledGroupSum(j: Frame, q: Query, configs: seq<TableConfig>, k: Key, c: string)
    requires ModeAReady(j, q, configs) && c in q.avgCols
    ensures var s := AddScaleAll(j, AllNumeric(configs));
            && |Members(s.rows, KeyFn(q.groupbyCols), k)| == |Group(j, q, k)|
            && SumOf(Members(s.rows, KeyFn(q.groupbyCols), k), FieldFn(RowId(), c)) == SumOf(Group(j, q, k), ValFn(c))
  {
    var s := AddScaleAll(j, AllNumeric(configs));
    var g := KeyFn(q.groupbyCols);
    forall i | 0 <= i < |s.rows|
      ensures g(s.rows[i]) == g(j.rows[i])
      ensures FieldFn(RowId(), c)(s.rows[i]) == ValFn(c)(j.rows[i])
    {
      ScaledKey(j, q, configs, i);
      UnscaledValue(j, AllNumeric(configs), i, c);
    }
    MembersAligned(s.rows, g, FieldFn(RowId(), c), j.rows, g, ValFn(c), k);
  }

  /** `sum(c)` of group `i` is the sum over the group's rows of `c` divided
      by the row's combined rate (main.py:283-299). */
  lemma ModeASum(j: Frame, q: Query, configs: seq<TableConfig>, i: nat, c: string)
    requires ModeAReady(j, q, configs)
    requires i < |Groups(j, q)| && c in q.sumCols && c in AllNumeric(configs)
    ensures i < |ModeA(j, q, configs).entries|
    ensures SumName(c) in ModeA(j, q, configs).entries[i].row
    ensures ModeA(j, q, configs).entries[i].row[SumName(c)]
            == SumOf(Group(j, q, Groups(j, q)[i]), WeightedFn(j.columns, ValFn(c)))
  {
    var s := AddScaleAll(j, AllNumeric(configs));
    var d := ModeADict(q, RateCols(configs));
    ScaledGroups(j, q, configs);
    BaseDictSpecs(q, RateCols(configs), ScaledSumRole, SumName(c));
    GroupByValue(s.rows, KeyFn(q.groupbyCols), RowId(), d, i, SumName(c));
    ScaledGroupSum(j, q, configs, Groups(j, q)[i], c);
    NamesDiffer(c, c);
  }

  /** A column that is no scale column of a numeric column sums as it did
      before the scaling loop. */
  lemma UntouchedGroupSum(j: Frame, q: Query, configs: seq<TableConfig>, k: Key, n: string)
    requires ModeAReady(j, q, configs)
    requires forall b | b in AllNumeric(configs) :: n != ScaleName(b)
    ensures var s := AddScaleAll(j, AllNumeric(configs));
            SumOf(Members(s.rows, KeyFn(q.groupbyCols), k), FieldFn(RowId(), n)) == SumOf(Group(j, q, k), ValFn(n))
  {
    var s := AddScaleAll(j, AllNumeric(configs));
    var g := KeyFn(q.groupbyCols);
    forall i | 0 <= i < |s.rows|
      ensures g(s.rows[i]) == g(j.rows[i])
      ensures FieldFn(RowId(), n)(s.rows[i]) == ValFn(n)(j.rows[i])
    {
      ScaledKey(j, q, configs, i);
      UnscaledValue(j, AllNumeric(configs), i, n);
    }
    MembersAligned(s.rows, g, FieldFn(RowId(), n), j.rows, g, ValFn(n), k);
  }

  /** For a summed column that is not a configured numeric column, no
      `scale_c` is computed, and `sum(c)` of group `i` is the group's total
      of the `scale_c` column the join already holds (main.py:280-295). */
  lemma ModeASumOfExistingScale(j: Frame, q: Query, configs: seq<TableConfig>, i: nat, c: string)
    requires ModeAReady(j, q, configs)
    requires i < |Groups(j, q)| && c in q.sumCols && c !in AllNumeric(configs)
    ensures i < |ModeA(j, q, configs).entries|
    ensures SumName(c) in ModeA(j, q, configs).entries[i].row
    ensures ModeA(j, q, configs).entries[i].row[SumName(c)]
            == SumOf(Group(j, q, Groups(j, q)[i]), ValFn(ScaleName(c)))
  {
    var s := AddScaleAll(j, AllNumeric(configs));
    var d := ModeADict(q, RateCols(configs));
    forall b | b in AllNumeric(configs)
      ensures ScaleName(c) != ScaleName(b)
    {
      assert ScaleName(c)[6..] == c && ScaleName(b)[6..] == b;
    }
    ScaledGroups(j, q, configs);
    BaseDictSpecs(q, RateCols(configs), ScaledSumRole, SumName(c));
    GroupByValue(s.rows, KeyFn(q.groupbyCols), RowId(), d, i, SumName(c));
    UntouchedGroupSum(j, q, configs, Groups(j, q)[i], ScaleName(c));
    NamesDiffer(c, c);
  }

  /** `avg(c)` of group `i` is the plain mean of `c` over the group's rows:
      Mode A does not weight the averages (main.py:283). */
  lemma ModeAMean(j: Frame, q: Query, configs: seq<TableConfig>, i: nat, c: string)
    requires ModeAReady(j, q, configs)
    requires i < |Groups(j, q)| && c in q.avgCols
    ensures i < |ModeA(j, q, configs).entries|
    ensures AvgName(c) in ModeA(j, q, configs).entries[i].row
    ensures ModeA(j, q, configs).entries[i].row[AvgName(c)]
            == SumOf(Group(j, q, Groups(j, q)[i]), ValFn(c)) / (|Group(j, q, Groups(j, q)[i])| as real)
  {
    var s := AddScaleAll(j, AllNumeric(configs));
    var d := ModeADict(q, RateCols(configs));
    ScaledGroups(j, q, configs);
    BaseDictSpecs(q, RateCols(configs), ScaledSumRole, AvgName(c));
    GroupByValue(s.rows, KeyFn(q.groupbyCols), RowId(), d, i, AvgName(c));
    UnscaledGroupSum(j, q, configs, Groups(j, q)[i], c);
    NamesDiffer(c, c);
  }
}
