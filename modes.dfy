/** `sample_aggregation`: the estimate of every `sum(c)` and `avg(c)` from
    the sampled tables, by one of four paths.

    - Mode A: several tables, a group-by, no outlier flag. Every row is
      weighted by the inverse of its rates' product.
    - Mode B: several tables, a group-by, the outlier flag. Subgroups with one
      rate signature are corrected by their rates and then summed per group.
    - Mode C: several tables, no group-by. The same two-phase correction as
      Mode B, collapsed to a single row.
    - Single table: per group, sums are divided by the group's mean rate.

    Each path is a specification function and an imperative method proved
    equal to it. */
module SampleAggregation {
  import opened Frames
  import opened Grouping
  import opened Join
  import opened Aggregation
  import opened Columns
  import opened Config
  import opened Scaling
  import opened Dictionaries

  predicate PositiveIn(t: Table, c: string) {
    forall k | 0 <= k < |t.entries| :: Val(t.entries[k].row, c) > 0.0
  }

  /** Every rate column of `t` is positive on every entry. */
  predicate PositiveRateColumns(t: Table) {
    forall k, c | 0 <= k < |t.entries| && c in t.columns && IsRateColumn(c) :: Val(t.entries[k].row, c) > 0.0
  }

  /** The rate columns are distinct columns of the frame, and positive. */
  predicate RatesReady(j: Frame, rates: seq<string>) {
    && NoDuplicates(rates)
    && (forall c | c in rates :: IsRateColumn(c) && c in j.columns)
    && PositiveRates(j)
  }

  lemma CollapsedPositive(t: Table)
    requires "rate" !in t.columns && PositiveRateColumns(t)
    ensures PositiveIn(CollapseRates(t), "rate")
  {
    forall k | 0 <= k < |t.entries|
      ensures RateProduct(t.columns, t.entries[k].row) > 0.0
    {
      RateProductPositive(t.columns, t.entries[k].row);
    }
  }

  /** A mean over a group of rows whose column `c` is positive is positive. */
  lemma GroupMeanPositive(f: Frame, cols: seq<string>, d: AggDict, k: nat, c: string)
    requires k < |Keys(f.rows, KeyFn(cols))|
    requires c in d.specs && d.specs[c] == AggSpec(c, Mean)
    requires forall r | r in f.rows :: Val(r, c) > 0.0
    ensures c in GroupFrame(f, cols, d).entries[k].row
    ensures GroupFrame(f, cols, d).entries[k].row[c] > 0.0
  {
    var ms := Members(f.rows, KeyFn(cols), Keys(f.rows, KeyFn(cols))[k]);
    var total := SumOf(ms, FieldFn(RowId(), c));
    GroupByValue(f.rows, KeyFn(cols), RowId(), d, k, c);
    forall x | x in ms
      ensures FieldFn(RowId(), c)(x) > 0.0
    {
      assert x in f.rows;
    }
    SumOfPositive(ms, FieldFn(RowId(), c));
    QuotientPositive(total, |ms| as real);
  }

  lemma QuotientPositive(a: real, b: real)
    requires a > 0.0 && b > 0.0
    ensures a / b > 0.0
  {
  }

  // ================================================================ Mode A

  /** Mode A (main.py:273-299). */
  function ModeA(j: Frame, q: Query, configs: seq<TableConfig>): Table
    requires Scalable(j) && ScaleSafe(AllNumeric(configs))
  {
    DropRates(GroupFrame(AddScaleAll(j, AllNumeric(configs)), q.groupbyCols, ModeADict(q, RateCols(configs))))
  }

  method ComputeModeA(j: Frame, q: Query, configs: seq<TableConfig>) returns (t: Table)
    requires Scalable(j) && ScaleSafe(AllNumeric(configs))
    ensures t == ModeA(j, q, configs)
  {
    var d := PutEach(EmptyDict, q.avgCols, AvgRole);
    d := PutEach(d, q.sumCols, ScaledSumRole);
    d := PutEach(d, RateCols(configs), RateRole);
    var scaled := AddScaleColumns(j, configs);
    var grouped := GroupFrame(scaled, q.groupbyCols, d);
    t := DropRateColumns(grouped);
  }

  // ================================================================ Mode B

  predicate ModeBReady(j: Frame, q: Query, rates: seq<string>) {
    |q.avgCols| > 0 && RatesReady(j, rates)
  }

  /** `join_result.groupby(by=groupby_cols + rate_cols).agg(**aggregations)`. */
  function Subgroups(j: Frame, q: Query, rates: seq<string>): Table
    requires |q.avgCols| > 0
  {
    GroupFrame(j, q.groupbyCols + rates, ModeBDict(q, rates))
  }

  lemma SubgroupsFacts(j: Frame, q: Query, rates: seq<string>)
    requires ModeBReady(j, q, rates)
    ensures "rate" !in Subgroups(j, q, rates).columns
    ensures NoDuplicates(Subgroups(j, q, rates).columns)
    ensures PositiveRateColumns(Subgroups(j, q, rates))
  {
    var p := Subgroups(j, q, rates);
    var d := ModeBDict(q, rates);
    ModeBDictFacts(q, rates, "rate");
    forall k, c | 0 <= k < |p.entries| && c in p.columns && IsRateColumn(c)
      ensures Val(p.entries[k].row, c) > 0.0
    {
      ModeBDictFacts(q, rates, c);
      BaseDictSpecs(q, rates, SumRole, c);
      NamesDiffer("", "");
      if IsAvgName(q.avgCols, c) || IsSumName(q.sumCols, c) {
        var a :| a in q.avgCols + q.sumCols && (c == AvgName(a) || c == SumName(a));
        NamesDiffer(a, a);
      }
      GroupMeanPositive(j, q.groupbyCols + rates, d, k, c);
    }
  }

  /** The subgroups after the rate columns were collapsed into `rate` and
      every `sum(...)` column and `cnt` was divided by it. */
  function ModeBCorrected(j: Frame, q: Query, rates: seq<string>): Table
    requires ModeBReady(j, q, rates)
  {
    SubgroupsFacts(j, q, rates);
    CollapsedPositive(Subgroups(j, q, rates));
    var c := CollapseRates(Subgroups(j, q, rates));
    DivideAll(c, c.columns, true, "rate")
  }

  /** `f_aggregations`: every divided column, summed again. */
  function ModeBResum(j: Frame, q: Query, rates: seq<string>): AggDict
    requires ModeBReady(j, q, rates)
  {
    SubgroupsFacts(j, q, rates);
    Resum(CollapseRates(Subgroups(j, q, rates)).columns)
  }

  /** `agg_result.groupby(by=groupby_cols).agg(**f_aggregations)`. */
  function ModeBRegrouped(j: Frame, q: Query, rates: seq<string>): Table
    requires ModeBReady(j, q, rates)
  {
    RegroupTable(ModeBCorrected(j, q, rates), |q.groupbyCols|, ModeBResum(j, q, rates))
  }

  /** Dividing by a positive divisor keeps a positive column positive. */
  lemma DividedPositive(r: Row, cols: seq<string>, withCnt: bool, divisor: string, x: string)
    requires Val(r, divisor) > 0.0 && Val(r, x) > 0.0
    ensures Val(DividedRow(r, cols, withCnt, divisor), x) > 0.0
  {
    if x in cols && Selected(x, withCnt) {
      QuotientPositive(r[x], Val(r, divisor));
    }
  }

  /** Every subgroup's count is positive, and so is its combined rate. */
  lemma SubgroupCountPositive(j: Frame, q: Query, rates: seq<string>, k: nat)
    requires ModeBReady(j, q, rates)
    requires k < |Subgroups(j, q, rates).entries|
    ensures "rate" !in Subgroups(j, q, rates).columns
    ensures Val(CollapseRates(Subgroups(j, q, rates)).entries[k].row, "cnt") > 0.0
    ensures Val(CollapseRates(Subgroups(j, q, rates)).entries[k].row, "rate") > 0.0
  {
    var p := Subgroups(j, q, rates);
    SubgroupsFacts(j, q, rates);
    CollapsedPositive(p);
    ModeBDictFacts(q, rates, "cnt");
    NamesDiffer("", "");
    GroupByValue(j.rows, KeyFn(q.groupbyCols + rates), RowId(), ModeBDict(q, rates), k, "cnt");
    assert Val(p.entries[k].row, "cnt") > 0.0;
  }

  /** Every corrected subgroup count is positive. */
  lemma CorrectedCountPositive(j: Frame, q: Query, rates: seq<string>)
    requires ModeBReady(j, q, rates)
    ensures "rate" !in Subgroups(j, q, rates).columns && "cnt" in CollapseRates(Subgroups(j, q, rates)).columns
    ensures PositiveIn(ModeBCorrected(j, q, rates), "cnt")
  {
    var p := Subgroups(j, q, rates);
    SubgroupsFacts(j, q, rates);
    ModeBDictFacts(q, rates, "cnt");
    NamesDiffer("", "");
    assert "cnt" in p.columns by {
      assert p.columns == ModeBDict(q, rates).names;
      assert ModeBDict(q, rates).names[|ModeBDict(q, rates).names| - 1] == "cnt";
    }
    assert "cnt" in CollapseRates(p).columns;
    forall k | 0 <= k < |ModeBCorrected(j, q, rates).entries|
      ensures Val(ModeBCorrected(j, q, rates).entries[k].row, "cnt") > 0.0
    {
      CorrectedEntryCount(j, q, rates, k);
    }
  }

  lemma CorrectedEntryCount(j: Frame, q: Query, rates: seq<string>, k: nat)
    requires ModeBReady(j, q, rates)
    requires k < |ModeBCorrected(j, q, rates).entries|
    ensures Val(ModeBCorrected(j, q, rates).entries[k].row, "cnt") > 0.0
  {
    var p := Subgroups(j, q, rates);
    SubgroupsFacts(j, q, rates);
    CollapsedPositive(p);
    var c := CollapseRates(p);
    NamesDiffer("", "");
    DivideAllClosed(c, c.columns, true, "rate");
    var row := c.entries[k].row;
    assert ModeBCorrected(j, q, rates).entries[k].row == DividedRow(row, c.columns, true, "rate");
    SubgroupCountPositive(j, q, rates, k);
    DividedPositive(row, c.columns, true, "rate", "cnt");
  }

  /** `f_aggregations` re-sums `cnt`. */
  lemma ResumCount(j: Frame, q: Query, rates: seq<string>)
    requires ModeBReady(j, q, rates)
    ensures "cnt" in ModeBResum(j, q, rates).specs
    ensures ModeBResum(j, q, rates).specs["cnt"] == AggSpec("cnt", Total)
  {
    CorrectedCountPositive(j, q, rates);
    NamesDiffer("", "");
  }

  lemma RegroupedEntryCount(j: Frame, q: Query, rates: seq<string>, k: nat)
    requires ModeBReady(j, q, rates)
    requires k < |ModeBRegrouped(j, q, rates).entries|
    ensures Val(ModeBRegrouped(j, q, rates).entries[k].row, "cnt") > 0.0
  {
    var d := ModeBCorrected(j, q, rates);
    var f := ModeBResum(j, q, rates);
    CorrectedCountPositive(j, q, rates);
    ResumCount(j, q, rates);
    var key := EntryPrefixFn(|q.groupbyCols|);
    GroupByValue(d.entries, key, EntryRowFn(), f, k, "cnt");
    var ms := Members(d.entries, key, Keys(d.entries, key)[k]);
    forall e | e in ms
      ensures FieldFn(EntryRowFn(), "cnt")(e) > 0.0
    {
      var i :| 0 <= i < |d.entries| && d.entries[i] == e;
    }
    SumOfPositive(ms, FieldFn(EntryRowFn(), "cnt"));
  }

  lemma ModeBCountPositive(j: Frame, q: Query, rates: seq<string>)
    requires ModeBReady(j, q, rates)
    ensures PositiveIn(ModeBRegrouped(j, q, rates), "cnt")
  {
    forall k | 0 <= k < |ModeBRegrouped(j, q, rates).entries|
      ensures Val(ModeBRegrouped(j, q, rates).entries[k].row, "cnt") > 0.0
    {
      RegroupedEntryCount(j, q, rates, k);
    }
  }

  /** Mode B (main.py:300-335). */
  function ModeB(j: Frame, q: Query, rates: seq<string>): Table
    requires ModeBReady(j, q, rates)
  {
    ModeBCountPositive(j, q, rates);
    Finish(ModeBRegrouped(j, q, rates), q.avgCols)
  }

  method ComputeModeB(j: Frame, q: Query, rates: seq<string>) returns (t: Table)
    requires ModeBReady(j, q, rates)
    ensures t == ModeB(j, q, rates)
  {
    var d := PutEach(EmptyDict, q.avgCols, AvgRole);
    d := PutEach(d, q.sumCols, SumRole);
    d := PutEach(d, rates, RateRole);
    d := Put(d, "cnt", AggSpec(q.avgCols[0], Size));
    var grouped := GroupFrame(j, q.groupbyCols + rates, d);
    SubgroupsFacts(j, q, rates);
    CollapsedPositive(grouped);
    var collapsed := CollapseRateColumns(grouped);
    var corrected, f := DivideAndCollect(collapsed);
    var regrouped := RegroupTable(corrected, |q.groupbyCols|, f);
    ModeBCountPositive(j, q, rates);
    var derived := DeriveAverages(regrouped, q.avgCols);
    t := DeleteColumn(derived, "cnt");
  }

  // ================================================================ Mode C

  predicate ModeCReady(j: Frame, q: Query, rates: seq<string>) {
    && ModeBReady(j, q, rates)
    && |j.rows| > 0
    && (forall c | c in rates :: !StartsWith(c, "sum"))
  }

  /** `join_result.groupby(by=rate_cols).agg(**aggregations)` and then
      `reset_index`. */
  function RateGroups(j: Frame, q: Query, rates: seq<string>): Table
    requires |q.avgCols| > 0
  {
    ResetIndex(GroupFrame(j, rates, ModeCDict(q, rates)), rates)
  }

  lemma RateGroupsFacts(j: Frame, q: Query, rates: seq<string>)
    requires ModeCReady(j, q, rates)
    ensures "rate" !in RateGroups(j, q, rates).columns && "cnt" in RateGroups(j, q, rates).columns
    ensures NoDuplicates(RateGroups(j, q, rates).columns)
    ensures PositiveRateColumns(RateGroups(j, q, rates))
    ensures |RateGroups(j, q, rates).entries| > 0
  {
    RateGroupsColumns(j, q, rates);
    RateGroupsPositive(j, q, rates);
    assert j.rows[0] in j.rows;
  }

  /** The rate columns come first, then the dictionary's names, all distinct. */
  lemma RateGroupsColumns(j: Frame, q: Query, rates: seq<string>)
    requires ModeCReady(j, q, rates)
    ensures "rate" !in RateGroups(j, q, rates).columns && "cnt" in RateGroups(j, q, rates).columns
    ensures NoDuplicates(RateGroups(j, q, rates).columns)
    ensures forall c | c in RateGroups(j, q, rates).columns && IsRateColumn(c) :: c in rates
  {
    var d := ModeCDict(q, rates);
    var e := RateGroups(j, q, rates);
    NamesDiffer("", "");
    ModeCDictFacts(q, rates, "rate");
    ModeCDictFacts(q, rates, "cnt");
    forall c | c in d.names
      ensures c !in rates && !IsRateColumn(c)
    {
      ModeCDictFacts(q, rates, c);
    }
    forall a, b | 0 <= a < b < |e.columns|
      ensures e.columns[a] != e.columns[b]
    {
      if b >= |rates| && a < |rates| {
        assert e.columns[b] in d.names;
      }
    }
  }

  lemma RateGroupsPositive(j: Frame, q: Query, rates: seq<string>)
    requires ModeCReady(j, q, rates)
    ensures PositiveRateColumns(RateGroups(j, q, rates))
  {
    var e := RateGroups(j, q, rates);
    RateGroupsColumns(j, q, rates);
    forall k, c | 0 <= k < |e.entries| && c in e.columns && IsRateColumn(c)
      ensures Val(e.entries[k].row, c) > 0.0
    {
      RateGroupRatePositive(j, q, rates, k, c);
    }
  }

  /** After `reset_index`, a rate column holds the rate group's own rate. */
  lemma RateGroupRatePositive(j: Frame, q: Query, rates: seq<string>, k: nat, c: string)
    requires ModeCReady(j, q, rates)
    requires k < |RateGroups(j, q, rates).entries| && c in rates
    ensures Val(RateGroups(j, q, rates).entries[k].row, c) > 0.0
  {
    var key := Keys(j.rows, KeyFn(rates))[k];
    var i :| 0 <= i < |rates| && rates[i] == c;
    ModeCDictFacts(q, rates, c);
    KeyRowAt(rates, key, i);
    var ms := Members(j.rows, KeyFn(rates), key);
    assert key in Keys(j.rows, KeyFn(rates));
    assert ms[0] in ms;
    assert KeyAt(key, i) == Val(ms[0], c);
    assert RateGroups(j, q, rates).entries[k].row[c] == KeyRow(rates, key)[c];
  }

  /** The rate groups after the rates were collapsed into `rate`, every
      `sum(...)` column and `cnt` was divided by it, and `rate` was deleted. */
  function ModeCCorrected(j: Frame, q: Query, rates: seq<string>): Table
    requires ModeCReady(j, q, rates)
  {
    RateGroupsFacts(j, q, rates);
    CollapsedPositive(RateGroups(j, q, rates));
    var c := CollapseRates(RateGroups(j, q, rates));
    DeleteColumn(DivideAll(c, c.columns, true, "rate"), "rate")
  }

  lemma CorrectedRateGroupCount(j: Frame, q: Query, rates: seq<string>, k: nat)
    requires ModeCReady(j, q, rates)
    requires k < |ModeCCorrected(j, q, rates).entries|
    ensures Val(ModeCCorrected(j, q, rates).entries[k].row, "cnt") > 0.0
  {
    var e := RateGroups(j, q, rates);
    RateGroupsFacts(j, q, rates);
    CollapsedPositive(e);
    var c := CollapseRates(e);
    NamesDiffer("", "");
    DivideAllClosed(c, c.columns, true, "rate");
    var g := GroupFrame(j, rates, ModeCDict(q, rates));
    ModeCDictFacts(q, rates, "cnt");
    GroupByValue(j.rows, KeyFn(rates), RowId(), ModeCDict(q, rates), k, "cnt");
    assert Val(e.entries[k].row, "cnt") == Val(g.entries[k].row, "cnt");
    var row := c.entries[k].row;
    assert Val(row, "cnt") > 0.0;
    DividedPositive(row, c.columns, true, "rate", "cnt");
    assert ModeCCorrected(j, q, rates).entries[k].row == DividedRow(row, c.columns, true, "rate") - {"rate"};
  }

  lemma CorrectedHasCount(j: Frame, q: Query, rates: seq<string>)
    requires ModeCReady(j, q, rates)
    ensures "cnt" in ModeCCorrected(j, q, rates).columns
  {
    RateGroupsColumns(j, q, rates);
    NamesDiffer("", "");
  }

  /** Summing positive values of `c` over a non-empty table keeps `c` positive. */
  lemma SumRowsPositive(t: Table, c: string)
    requires c in t.columns && |t.entries| > 0
    requires forall k | 0 <= k < |t.entries| :: Val(t.entries[k].row, c) > 0.0
    ensures PositiveIn(SumRows(t), c)
  {
    forall x | x in t.entries
      ensures EntryField(c)(x) > 0.0
    {
      var k :| 0 <= k < |t.entries| && t.entries[k] == x;
    }
    SumOfPositive(t.entries, EntryField(c));
  }

  lemma CorrectedCounts(j: Frame, q: Query, rates: seq<string>)
    requires ModeCReady(j, q, rates)
    ensures |ModeCCorrected(j, q, rates).entries| > 0
    ensures forall k | 0 <= k < |ModeCCorrected(j, q, rates).entries| :: Val(ModeCCorrected(j, q, rates).entries[k].row, "cnt") > 0.0
  {
    RateGroupsFacts(j, q, rates);
    forall k | 0 <= k < |ModeCCorrected(j, q, rates).entries|
      ensures Val(ModeCCorrected(j, q, rates).entries[k].row, "cnt") > 0.0
    {
      CorrectedRateGroupCount(j, q, rates, k);
    }
  }

  lemma ModeCCountPositive(j: Frame, q: Query, rates: seq<string>)
    requires ModeCReady(j, q, rates)
    ensures "cnt" in ModeCCorrected(j, q, rates).columns
    ensures PositiveIn(SumRows(ModeCCorrected(j, q, rates)), "cnt")
  {
    CorrectedHasCount(j, q, rates);
    CorrectedCounts(j, q, rates);
    SumRowsPositive(ModeCCorrected(j, q, rates), "cnt");
  }

  /** Mode C (main.py:336-371). */
  function ModeC(j: Frame, q: Query, rates: seq<string>): Table
    requires ModeCReady(j, q, rates)
  {
    ModeCCountPositive(j, q, rates);
    Finish(SumRows(ModeCCorrected(j, q, rates)), q.avgCols)
  }

  method ComputeModeC(j: Frame, q: Query, rates: seq<string>) returns (t: Table)
    requires ModeCReady(j, q, rates)
    ensures t == ModeC(j, q, rates)
  {
    var d := PutEach(EmptyDict, q.avgCols, AvgRole);
    d := PutEach(d, q.sumCols, SumRole);
    d := PutEach(d, rates, RateRole);
    d := SumOnly(d);
    d := Put(d, "cnt", AggSpec(q.avgCols[0], Size));
    var grouped := GroupFrame(j, rates, d);
    var reset := ResetIndex(grouped, rates);
    RateGroupsFacts(j, q, rates);
    CollapsedPositive(reset);
    var collapsed := CollapseRateColumns(reset);
    var corrected := DivideColumns(collapsed, true, "rate");
    corrected := DeleteColumn(corrected, "rate");
    var total := SumRows(corrected);
    ModeCCountPositive(j, q, rates);
    var derived := DeriveAverages(total, q.avgCols);
    t := DeleteColumn(derived, "cnt");
  }

  // ========================================================= single table

  predicate SingleReady(s: Frame, rates: seq<string>) {
    && |rates| > 0
    && (forall c | c in rates :: IsRateColumn(c))
    && rates[0] in s.columns
    && PositiveRates(s)
  }

  /** `samples.groupby(by=groupby_cols).agg(**aggregations)`. */
  function SingleGroups(s: Frame, q: Query, rates: seq<string>): Table {
    GroupFrame(s, q.groupbyCols, PlainDict(q, rates))
  }

  lemma SingleRatePositive(s: Frame, q: Query, rates: seq<string>)
    requires SingleReady(s, rates)
    ensures PositiveIn(SingleGroups(s, q, rates), rates[0])
  {
    BaseDictSpecs(q, rates, SumRole, rates[0]);
    forall k | 0 <= k < |SingleGroups(s, q, rates).entries|
      ensures Val(SingleGroups(s, q, rates).entries[k].row, rates[0]) > 0.0
    {
      GroupMeanPositive(s, q.groupbyCols, PlainDict(q, rates), k, rates[0]);
    }
  }

  /** The single-table path (main.py:372-389). */
  function SingleTable(s: Frame, q: Query, rates: seq<string>): Table
    requires SingleReady(s, rates)
  {
    SingleRatePositive(s, q, rates);
    var t := SingleGroups(s, q, rates);
    DeleteColumn(DivideAll(t, t.columns, false, rates[0]), rates[0])
  }

  method ComputeSingleTable(s: Frame, q: Query, rates: seq<string>) returns (t: Table)
    requires SingleReady(s, rates)
    ensures t == SingleTable(s, q, rates)
  {
    var d := PutEach(EmptyDict, q.avgCols, AvgRole);
    d := PutEach(d, q.sumCols, SumRole);
    d := PutEach(d, rates, RateRole);
    var grouped := GroupFrame(s, q.groupbyCols, d);
    SingleRatePositive(s, q, rates);
    var divided := DivideColumns(grouped, false, rates[0]);
    t := DeleteColumn(divided, rates[0]);
  }

  // ========================================================== dispatching

  /** What `sample_aggregation` demands of its inputs on the path it takes:
      the configurations, the join's tables and key columns, positive rates,
      and the columns each path reads (a missing one is a `KeyError`). */
  predicate Admissible(samples: seq<Frame>, q: Query, configs: seq<TableConfig>) {
    && |configs| > 0 && |samples| > 0
    && NoDuplicates(RateCols(configs))
    && (|samples| > 1 ==>
          && JoinableSamples(samples, q.joinCols)
          && JoinAdmissible(JoinSamples(samples, q.joinCols), q, configs))
    && (|samples| == 1 ==>
          && |q.groupbyCols| > 0
          && ValidFrame(samples[0])
          && PositiveRates(samples[0])
          && HasColumns(samples[0], RateCols(configs) + q.groupbyCols + q.avgCols + q.sumCols))
  }

  /** What each path over the join `j` reads of it: Mode A the group-by,
      mean and numeric columns and a `scale_` column per sum column
      (main.py:274-293), Mode B the group-by, mean and sum columns and a
      `sum(c)` per mean column (main.py:300-334), Mode C the sum columns, the
      counted column `avg_cols[0]` and a `sum(c)` per mean column
      (main.py:337-370); every path reads the rate columns. */
  predicate JoinAdmissible(j: Frame, q: Query, configs: seq<TableConfig>)
    requires |configs| > 0
  {
    && HasColumns(j, RateCols(configs))
    && (|q.groupbyCols| > 0 && !IsOutlier(configs) ==>
          && ScaleSafe(AllNumeric(configs))
          && HasColumns(j, q.groupbyCols + q.avgCols + AllNumeric(configs))
          && (forall c | c in q.sumCols :: c in AllNumeric(configs) || ScaleName(c) in j.columns))
    && (|q.groupbyCols| > 0 && IsOutlier(configs) ==>
          && |q.avgCols| > 0
          && (forall c | c in q.avgCols :: c in q.sumCols)
          && HasColumns(j, q.groupbyCols + q.avgCols + q.sumCols))
    && (|q.groupbyCols| == 0 ==>
          && |q.avgCols| > 0
          && (forall c | c in q.avgCols :: c in q.sumCols)
          && HasColumns(j, q.sumCols)
          && |j.rows| > 0
          && (forall c | c in RateCols(configs) :: !StartsWith(c, "sum")))
  }

  lemma JoinedReady(samples: seq<Frame>, q: Query, configs: seq<TableConfig>)
    requires Admissible(samples, q, configs) && |samples| > 1
    ensures RatesReady(JoinSamples(samples, q.joinCols), RateCols(configs))
    ensures Scalable(JoinSamples(samples, q.joinCols))
  {
    var j := JoinSamples(samples, q.joinCols);
    JoinSamplesValid(samples, q.joinCols);
    forall i | 0 <= i < |j.rows|
      ensures RateProduct(j.columns, j.rows[i]) != 0.0
    {
      assert j.rows[i] in j.rows;
      RateProductPositive(j.columns, j.rows[i]);
    }
  }

  /** The estimate `sample_aggregation` returns. */
  function Estimate(samples: seq<Frame>, q: Query, configs: seq<TableConfig>): Table
    requires Admissible(samples, q, configs)
  {
    if |samples| > 1 then
      JoinedReady(samples, q, configs);
      var j := JoinSamples(samples, q.joinCols);
      if |q.groupbyCols| > 0 then
        if !IsOutlier(configs) then ModeA(j, q, configs) else ModeB(j, q, RateCols(configs))
      else ModeC(j, q, RateCols(configs))
    else
      SingleTable(samples[0], q, RateCols(configs))
  }

  /** `sample_aggregation(sample_list, query_config, train_config_list)`. */
  method ComputeEstimate(samples: seq<Frame>, q: Query, configs: seq<TableConfig>) returns (t: Table)
    requires Admissible(samples, q, configs)
    ensures t == Estimate(samples, q, configs)
  {
    var rates := RateCols(configs);
    var outlier := configs[0].outliers == Some("true");
    if |samples| > 1 {
      JoinedReady(samples, q, configs);
      var j := JoinSamples(samples, q.joinCols);
      if |q.groupbyCols| > 0 {
        if !outlier {
          t := ComputeModeA(j, q, configs);
        } else {
          t := ComputeModeB(j, q, rates);
        }
      } else {
        t := ComputeModeC(j, q, rates);
      }
    } else {
      t := ComputeSingleTable(samples[0], q, rates);
    }
  }
}
