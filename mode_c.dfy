/** What Mode C's estimate holds: without a group-by, the joined sample is
    split into rate groups (rows sharing every rate value), each group's sums
    and size are divided by its rate product, and everything is summed into a
    single row. */
module ModeCEstimates {
  import opened Frames
  import opened Grouping
  import opened Aggregation
  import opened Columns
  import opened Config
  import opened Dictionaries
  import opened Weights
  import opened SampleAggregation

  /** The rate groups' keys, in order of first appearance. */
  function RateKeys(j: Frame, rates: seq<string>): seq<Key> {
    Keys(j.rows, KeyFn(rates))
  }

  /** A rate group's corrected total of `f`. */
  function Corrected(j: Frame, rates: seq<string>, f: Row -> real): Key -> real {
    SubgroupTotal(j.rows, rates, 0, f)
  }

  lemma RateKeyLength(j: Frame, rates: seq<string>, m: nat)
    requires m < |RateKeys(j, rates)|
    ensures |RateKeys(j, rates)[m]| == |rates|
  {
    var k := RateKeys(j, rates)[m];
    var ms := Members(j.rows, KeyFn(rates), k);
    assert k in RateKeys(j, rates);
    assert ms[0] in ms;
  }

  /** After `reset_index` a rate column holds the group's rate, and a
      dictionary column its aggregate. */
  lemma RateGroupRow(j: Frame, q: Query, rates: seq<string>, m: nat, n: string)
    requires ModeCReady(j, q, rates) && m < |RateKeys(j, rates)|
    ensures m < |RateGroups(j, q, rates).entries|
    ensures n in ModeCDict(q, rates).specs ==>
              n in RateGroups(j, q, rates).entries[m].row
              && RateGroups(j, q, rates).entries[m].row[n] == GroupFrame(j, rates, ModeCDict(q, rates)).entries[m].row[n]
  {
  }

  lemma RateGroupRate(j: Frame, q: Query, rates: seq<string>, m: nat, l: nat)
    requires ModeCReady(j, q, rates) && m < |RateKeys(j, rates)| && l < |rates|
    ensures m < |RateGroups(j, q, rates).entries| && |RateKeys(j, rates)[m]| == |rates|
    ensures Val(RateGroups(j, q, rates).entries[m].row, rates[l]) == RateKeys(j, rates)[m][l]
  {
    var d := ModeCDict(q, rates);
    var g := GroupFrame(j, rates, d);
    assert rates[l] in rates;
    ModeCDictFacts(q, rates, rates[l]);
    GroupFrameEntry(j, rates, d, m);
    ResetKeyValue(g, rates, m, l);
    RateKeyLength(j, rates, m);
  }

  /** A collapsed rate group's `rate` is the product of its rates. */
  lemma RateGroupProduct(j: Frame, q: Query, rates: seq<string>, m: nat)
    requires ModeCReady(j, q, rates) && m < |RateKeys(j, rates)|
    ensures "rate" !in RateGroups(j, q, rates).columns
    ensures m < |CollapseRates(RateGroups(j, q, rates)).entries|
    ensures Val(CollapseRates(RateGroups(j, q, rates)).entries[m].row, "rate") == Product(Suffix(RateKeys(j, rates)[m], 0))
  {
    var e := RateGroups(j, q, rates);
    var d := ModeCDict(q, rates);
    var key := RateKeys(j, rates)[m];
    var row := e.entries[m].row;
    RateGroupsColumns(j, q, rates);
    forall c | c in d.names
      ensures !IsRateColumn(c)
    {
      ModeCDictFacts(q, rates, c);
    }
    RateColumnsAppend(rates, d.names);
    RateColumnsOfRates(rates);
    NoRateColumns(d.names);
    assert e.columns == rates + d.names;
    assert RateColumns(e.columns) == rates;
    RateProductIsProductOfRateColumns(e.columns, row);
    RateKeyLength(j, rates, m);
    forall l | 0 <= l < |rates|
      ensures Val(row, rates[l]) == key[l]
    {
      RateGroupRate(j, q, rates, m, l);
    }
    ProductOfRow(rates, row, key);
    assert Suffix(key, 0) == key;
    assert CollapseRates(e).entries[m].row["rate"] == RateProduct(e.columns, row);
  }

  /** A rate group's `sum(c)` and `cnt` before the correction. */
  lemma RateGroupTotals(j: Frame, q: Query, rates: seq<string>, m: nat, c: string)
    requires ModeCReady(j, q, rates) && m < |RateKeys(j, rates)| && c in q.sumCols
    ensures "rate" !in RateGroups(j, q, rates).columns
    ensures m < |CollapseRates(RateGroups(j, q, rates)).entries|
    ensures var ms := Members(j.rows, KeyFn(rates), RateKeys(j, rates)[m]);
            var row := CollapseRates(RateGroups(j, q, rates)).entries[m].row;
            && SumName(c) in row && row[SumName(c)] == SumOf(ms, ValFn(c))
            && "cnt" in row && row["cnt"] == |ms| as real
  {
    var d := ModeCDict(q, rates);
    RateGroupsColumns(j, q, rates);
    NamesDiffer(c, c);
    assert IsSumName(q.sumCols, SumName(c));
    ModeCDictFacts(q, rates, SumName(c));
    BaseDictSpecs(q, rates, SumRole, SumName(c));
    ModeCDictFacts(q, rates, "cnt");
    GroupFrameTotal(j, rates, d, m, SumName(c), c);
    GroupFrameSize(j, rates, d, m, "cnt");
    RateGroupRow(j, q, rates, m, SumName(c));
    RateGroupRow(j, q, rates, m, "cnt");
  }

  /** The collapsed rate groups' columns: the `sum(...)` names, `cnt` and `rate`. */
  lemma CollapsedColumns(j: Frame, q: Query, rates: seq<string>, n: string)
    requires ModeCReady(j, q, rates)
    ensures "rate" !in RateGroups(j, q, rates).columns
    ensures n in CollapseRates(RateGroups(j, q, rates)).columns <==> IsSumName(q.sumCols, n) || n == "cnt" || n == "rate"
    ensures NoDuplicates(CollapseRates(RateGroups(j, q, rates)).columns)
  {
    var d := ModeCDict(q, rates);
    RateGroupsColumns(j, q, rates);
    ModeCDictFacts(q, rates, n);
    assert n in d.names <==> n in d.specs;
    if n in rates {
      assert IsRateColumn(n);
    }
  }

  /** After the correction, with `rate` deleted, a rate group holds its
      corrected `sum(c)` (or count). */
  lemma CorrectedRateGroupValue(j: Frame, q: Query, rates: seq<string>, m: nat, c: string, name: string, f: Row -> real)
    requires ModeCReady(j, q, rates) && m < |RateKeys(j, rates)| && c in q.sumCols
    requires (name == SumName(c) && f == ValFn(c)) || (name == "cnt" && f == One())
    ensures m < |ModeCCorrected(j, q, rates).entries|
    ensures Val(ModeCCorrected(j, q, rates).entries[m].row, name) == Corrected(j, rates, f)(RateKeys(j, rates)[m])
  {
    var e := RateGroups(j, q, rates);
    var ms := Members(j.rows, KeyFn(rates), RateKeys(j, rates)[m]);
    RateGroupsFacts(j, q, rates);
    CollapsedPositive(e);
    var col := CollapseRates(e);
    NamesDiffer(c, c);
    RateGroupProduct(j, q, rates, m);
    RateGroupTotals(j, q, rates, m, c);
    CollapsedColumns(j, q, rates, name);
    assert IsSumName(q.sumCols, SumName(c));
    NamesDiffer("", "");
    DeletedDividedValue(col, true, "rate", m, name);
    if name == "cnt" {
      SumOfOne(ms);
    }
  }

  lemma CorrectedColumns(j: Frame, q: Query, rates: seq<string>, n: string)
    requires ModeCReady(j, q, rates)
    ensures n in ModeCCorrected(j, q, rates).columns <==> IsSumName(q.sumCols, n) || n == "cnt"
    ensures |ModeCCorrected(j, q, rates).entries| == |RateKeys(j, rates)|
  {
    CollapsedColumns(j, q, rates, n);
    NamesDiffer("", "");
  }

  /** The corrected rate groups line up with the rate keys. */
  lemma CorrectedAligned(j: Frame, q: Query, rates: seq<string>, c: string, name: string, f: Row -> real)
    requires ModeCReady(j, q, rates) && c in q.sumCols
    requires (name == SumName(c) && f == ValFn(c)) || (name == "cnt" && f == One())
    ensures |ModeCCorrected(j, q, rates).entries| == |RateKeys(j, rates)|
    ensures forall m | 0 <= m < |RateKeys(j, rates)| ::
              EntryField(name)(ModeCCorrected(j, q, rates).entries[m]) == Corrected(j, rates, f)(RateKeys(j, rates)[m])
  {
    CorrectedColumns(j, q, rates, name);
    forall m | 0 <= m < |RateKeys(j, rates)|
      ensures EntryField(name)(ModeCCorrected(j, q, rates).entries[m]) == Corrected(j, rates, f)(RateKeys(j, rates)[m])
    {
      CorrectedRateGroupValue(j, q, rates, m, c, name, f);
    }
  }

  /** The single summed row's `sum(c)` and `cnt`: the totals of the rate
      groups' corrected values (main.py:355-368). */
  lemma SummedTotals(j: Frame, q: Query, rates: seq<string>, c: string)
    requires ModeCReady(j, q, rates) && c in q.sumCols
    ensures SumName(c) in SumRows(ModeCCorrected(j, q, rates)).entries[0].row
    ensures SumRows(ModeCCorrected(j, q, rates)).entries[0].row[SumName(c)]
            == SumOf(RateKeys(j, rates), Corrected(j, rates, ValFn(c)))
    ensures "cnt" in SumRows(ModeCCorrected(j, q, rates)).entries[0].row
    ensures SumRows(ModeCCorrected(j, q, rates)).entries[0].row["cnt"]
            == SumOf(RateKeys(j, rates), Corrected(j, rates, One()))
  {
    var t := ModeCCorrected(j, q, rates);
    NamesDiffer(c, c);
    assert IsSumName(q.sumCols, SumName(c));
    CorrectedColumns(j, q, rates, SumName(c));
    CorrectedColumns(j, q, rates, "cnt");
    CorrectedAligned(j, q, rates, c, SumName(c), ValFn(c));
    SumAligned(t.entries, EntryField(SumName(c)), RateKeys(j, rates), Corrected(j, rates, ValFn(c)));
    CorrectedAligned(j, q, rates, c, "cnt", One());
    SumAligned(t.entries, EntryField("cnt"), RateKeys(j, rates), Corrected(j, rates, One()));
  }

  /** The estimate is a single row, index 0, with exactly the `sum(...)` and
      `avg(...)` columns (main.py:336-371). */
  lemma ModeCShape(j: Frame, q: Query, rates: seq<string>)
    requires ModeCReady(j, q, rates)
    ensures |ModeC(j, q, rates).entries| == 1 && ModeC(j, q, rates).entries[0].key == [0.0]
    ensures forall n :: n in ModeC(j, q, rates).columns <==> IsSumName(q.sumCols, n) || IsAvgName(q.avgCols, n)
  {
    var s := SumRows(ModeCCorrected(j, q, rates));
    ModeCCountPositive(j, q, rates);
    FinishShape(s, q.avgCols);
    forall n
      ensures n in ModeC(j, q, rates).columns <==> IsSumName(q.sumCols, n) || IsAvgName(q.avgCols, n)
    {
      CorrectedColumns(j, q, rates, n);
      NamesDiffer("", "");
      if IsSumName(q.sumCols, n) {
        var a :| a in q.sumCols && n == SumName(a);
        NamesDiffer(a, a);
      }
      if IsAvgName(q.avgCols, n) {
        var a :| a in q.avgCols && n == AvgName(a);
        NamesDiffer(a, a);
      }
    }
  }

  /** `sum(c)`: the sum over the rate groups of each group's total of `c`
      divided by its rate product. */
  lemma ModeCSum(j: Frame, q: Query, rates: seq<string>, c: string)
    requires ModeCReady(j, q, rates) && c in q.sumCols
    ensures |ModeC(j, q, rates).entries| == 1
    ensures SumName(c) in ModeC(j, q, rates).entries[0].row
    ensures ModeC(j, q, rates).entries[0].row[SumName(c)] == SumOf(RateKeys(j, rates), Corrected(j, rates, ValFn(c)))
  {
    var s := SumRows(ModeCCorrected(j, q, rates));
    SummedTotals(j, q, rates, c);
    ModeCCountPositive(j, q, rates);
    FinishKeepsSum(s, q.avgCols, 0, c);
  }

  /** `avg(c)`: the corrected sum of `c` over the corrected count. */
  lemma ModeCMean(j: Frame, q: Query, rates: seq<string>, c: string)
    requires ModeCReady(j, q, rates) && c in q.avgCols && c in q.sumCols
    ensures |ModeC(j, q, rates).entries| == 1
    ensures AvgName(c) in ModeC(j, q, rates).entries[0].row
    ensures SumOf(RateKeys(j, rates), Corrected(j, rates, One())) > 0.0
    ensures ModeC(j, q, rates).entries[0].row[AvgName(c)]
            == SumOf(RateKeys(j, rates), Corrected(j, rates, ValFn(c))) / SumOf(RateKeys(j, rates), Corrected(j, rates, One()))
  {
    var s := SumRows(ModeCCorrected(j, q, rates));
    SummedTotals(j, q, rates, c);
    ModeCCountPositive(j, q, rates);
    assert Val(s.entries[0].row, "cnt") > 0.0;
    FinishDerivesMean(s, q.avgCols, 0, c);
  }

  /** When the sample's rate columns are exactly the configured ones, Mode C's
      `sum(c)` is the sum over all rows of `c / rate` (main.py:336-371). */
  lemma ModeCSumIsWeighted(j: Frame, q: Query, rates: seq<string>, c: string)
    requires ModeCReady(j, q, rates) && RateColumns(j.columns) == rates && c in q.sumCols
    ensures |ModeC(j, q, rates).entries| == 1
    ensures SumName(c) in ModeC(j, q, rates).entries[0].row
    ensures ModeC(j, q, rates).entries[0].row[SumName(c)] == SumOf(j.rows, WeightedFn(j.columns, ValFn(c)))
  {
    ModeCSum(j, q, rates, c);
    PositiveRowsNonZero(j);
    UngroupedWeightedSum(j.rows, j.columns, rates, ValFn(c));
  }

  /** ... and its `avg(c)` is the weighted mean: that sum over the estimated
      number of rows, every row counted as the inverse of its rate. */
  lemma ModeCMeanIsWeighted(j: Frame, q: Query, rates: seq<string>, c: string)
    requires ModeCReady(j, q, rates) && RateColumns(j.columns) == rates && c in q.avgCols && c in q.sumCols
    ensures |ModeC(j, q, rates).entries| == 1
    ensures AvgName(c) in ModeC(j, q, rates).entries[0].row
    ensures SumOf(j.rows, WeightedFn(j.columns, One())) > 0.0
    ensures ModeC(j, q, rates).entries[0].row[AvgName(c)]
            == SumOf(j.rows, WeightedFn(j.columns, ValFn(c))) / SumOf(j.rows, WeightedFn(j.columns, One()))
  {
    ModeCMean(j, q, rates, c);
    PositiveRowsNonZero(j);
    UngroupedWeightedSum(j.rows, j.columns, rates, ValFn(c));
    UngroupedWeightedSum(j.rows, j.columns, rates, One());
  }
}
