/** How the estimators relate: Modes A and B give the same group sums on the
    same join, and the same means when every row has the same rate; applied
    to the full tables (every rate 1) Modes A and B and the single-table path
    give `ground_truth_aggregation`'s sums and means, and Mode C the exact
    totals and mean over the join. */
module Agreement {
  import opened Frames
  import opened Grouping
  import opened Join
  import opened Aggregation
  import opened Config
  import opened Weights
  import opened SampleAggregation
  import opened GroundTruth
  import A = ModeAEstimates
  import B = ModeBEstimates
  import S = SingleTableEstimates
  import C = ModeCEstimates

  /** Every rate of every row is 1: the frame is the full table (main.py:85). */
  predicate FullRates(f: Frame) {
    forall r, c | r in f.rows && c in f.columns && IsRateColumn(c) :: Val(r, c) == 1.0
  }

  lemma {:induction false} RateProductOfOnes(cols: seq<string>, r: Row)
    requires forall c | c in cols && IsRateColumn(c) :: Val(r, c) == 1.0
    ensures RateProduct(cols, r) == 1.0
    decreases |cols|
  {
    if cols != [] {
      var front := cols[..|cols| - 1];
      assert forall c | c in front :: c in cols;
      RateProductOfOnes(front, r);
      assert cols[|cols| - 1] in cols;
    }
  }

  /** At full rate the weighted total of a set of rows is their plain total. */
  lemma WeightedAtFullRate(f: Frame, g: seq<Row>, c: string)
    requires FullRates(f) && forall x | x in g :: x in f.rows
    ensures SumOf(g, WeightedFn(f.columns, ValFn(c))) == SumOf(g, ValFn(c))
  {
    forall x | x in g
      ensures WeightedFn(f.columns, ValFn(c))(x) == ValFn(c)(x)
    {
      RateProductOfOnes(f.columns, x);
    }
    SumOfPointwise(g, WeightedFn(f.columns, ValFn(c)), ValFn(c));
  }

  /** On the same join, Mode A's and Mode B's `sum(c)` of every group agree:
      both are the total of `c / rate` over the group's rows (main.py:283-299
      against main.py:300-335). */
  lemma ModeAModeBSums(j: Frame, q: Query, configs: seq<TableConfig>, i: nat, c: string)
    requires A.ModeAReady(j, q, configs) && ModeBReady(j, q, RateCols(configs))
    requires RateColumns(j.columns) == RateCols(configs)
    requires i < |A.Groups(j, q)| && c in q.sumCols && c in AllNumeric(configs)
    ensures i < |ModeA(j, q, configs).entries| && i < |ModeB(j, q, RateCols(configs)).entries|
    ensures ModeA(j, q, configs).entries[i].key == ModeB(j, q, RateCols(configs)).entries[i].key
    ensures SumName(c) in ModeA(j, q, configs).entries[i].row
    ensures SumName(c) in ModeB(j, q, RateCols(configs)).entries[i].row
    ensures ModeA(j, q, configs).entries[i].row[SumName(c)] == ModeB(j, q, RateCols(configs)).entries[i].row[SumName(c)]
  {
    A.ModeAShape(j, q, configs);
    B.ModeBShape(j, q, RateCols(configs));
    A.ModeASum(j, q, configs, i, c);
    B.ModeBSumIsWeighted(j, q, RateCols(configs), i, c);
  }

  /** When every row has the same rate product, Mode B's `avg(c)` is Mode A's
      plain mean (main.py:283 against main.py:334). */
  lemma ModeAModeBMeans(j: Frame, q: Query, configs: seq<TableConfig>, i: nat, c: string, rho: real)
    requires A.ModeAReady(j, q, configs) && ModeBReady(j, q, RateCols(configs))
    requires RateColumns(j.columns) == RateCols(configs)
    requires forall r | r in j.rows :: RateProduct(j.columns, r) == rho
    requires i < |A.Groups(j, q)| && c in q.avgCols && c in q.sumCols
    ensures i < |ModeA(j, q, configs).entries| && i < |ModeB(j, q, RateCols(configs)).entries|
    ensures AvgName(c) in ModeA(j, q, configs).entries[i].row
    ensures AvgName(c) in ModeB(j, q, RateCols(configs)).entries[i].row
    ensures ModeA(j, q, configs).entries[i].row[AvgName(c)] == ModeB(j, q, RateCols(configs)).entries[i].row[AvgName(c)]
  {
    A.ModeAMean(j, q, configs, i, c);
    B.ModeBMeanUnderConstantRate(j, q, RateCols(configs), i, c, rho);
  }

  /** Mode A on the join of two full tables gives the ground truth's groups
      and `sum(c)` (main.py:283-299 against main.py:224-228). */
  lemma ModeASumIsTruth(samples: seq<Frame>, q: Query, configs: seq<TableConfig>, i: nat, c: string)
    requires |samples| == 2 && |q.joinCols| == 2 && |q.groupbyCols| > 0
    requires JoinableSamples(samples, q.joinCols)
    requires HasColumns(JoinSamples(samples, q.joinCols), q.groupbyCols + q.avgCols + q.sumCols)
    requires A.ModeAReady(JoinSamples(samples, q.joinCols), q, configs)
    requires FullRates(JoinSamples(samples, q.joinCols))
    requires i < |A.Groups(JoinSamples(samples, q.joinCols), q)| && c in q.sumCols && c in AllNumeric(configs)
    ensures TruthReady(samples, q)
    ensures i < |ModeA(JoinSamples(samples, q.joinCols), q, configs).entries| && i < |Truth(samples, q).entries|
    ensures ModeA(JoinSamples(samples, q.joinCols), q, configs).entries[i].key == Truth(samples, q).entries[i].key
    ensures SumName(c) in ModeA(JoinSamples(samples, q.joinCols), q, configs).entries[i].row
    ensures SumName(c) in Truth(samples, q).entries[i].row
    ensures ModeA(JoinSamples(samples, q.joinCols), q, configs).entries[i].row[SumName(c)]
            == Truth(samples, q).entries[i].row[SumName(c)]
  {
    var j := JoinSamples(samples, q.joinCols);
    assert j == TruthInput(samples, q);
    A.ModeAShape(j, q, configs);
    TruthShape(samples, q);
    A.ModeASum(j, q, configs, i, c);
    TruthSum(samples, q, i, c);
    WeightedAtFullRate(j, A.Group(j, q, A.Groups(j, q)[i]), c);
  }

  /** ... and its `avg(c)`, a plain mean either way. */
  lemma ModeAMeanIsTruth(samples: seq<Frame>, q: Query, configs: seq<TableConfig>, i: nat, c: string)
    requires |samples| == 2 && |q.joinCols| == 2 && |q.groupbyCols| > 0
    requires JoinableSamples(samples, q.joinCols)
    requires HasColumns(JoinSamples(samples, q.joinCols), q.groupbyCols + q.avgCols + q.sumCols)
    requires A.ModeAReady(JoinSamples(samples, q.joinCols), q, configs)
    requires i < |A.Groups(JoinSamples(samples, q.joinCols), q)| && c in q.avgCols
    ensures TruthReady(samples, q)
    ensures i < |ModeA(JoinSamples(samples, q.joinCols), q, configs).entries| && i < |Truth(samples, q).entries|
    ensures AvgName(c) in ModeA(JoinSamples(samples, q.joinCols), q, configs).entries[i].row
    ensures AvgName(c) in Truth(samples, q).entries[i].row
    ensures ModeA(JoinSamples(samples, q.joinCols), q, configs).entries[i].row[AvgName(c)]
            == Truth(samples, q).entries[i].row[AvgName(c)]
  {
    var j := JoinSamples(samples, q.joinCols);
    assert j == TruthInput(samples, q);
    A.ModeAMean(j, q, configs, i, c);
    TruthMean(samples, q, i, c);
  }

  /** Mode B at full rate: a group's `sum(c)` is the plain total of `c` over
      the group's rows (main.py:300-335). */
  lemma ModeBSumAtFullRate(j: Frame, q: Query, rates: seq<string>, i: nat, c: string)
    requires ModeBReady(j, q, rates) && RateColumns(j.columns) == rates && FullRates(j)
    requires i < |B.GroupKeys(j, q)| && c in q.sumCols
    ensures i < |ModeB(j, q, rates).entries|
    ensures SumName(c) in ModeB(j, q, rates).entries[i].row
    ensures ModeB(j, q, rates).entries[i].row[SumName(c)]
            == SumOf(Members(j.rows, KeyFn(q.groupbyCols), B.GroupKeys(j, q)[i]), ValFn(c))
  {
    B.ModeBSumIsWeighted(j, q, rates, i, c);
    WeightedAtFullRate(j, Members(j.rows, KeyFn(q.groupbyCols), B.GroupKeys(j, q)[i]), c);
  }

  /** At full rate a group's corrected total of `c` over its subgroups is
      the plain total of `c` over its rows. */
  lemma CorrectedTotalAtFullRate(j: Frame, q: Query, rates: seq<string>, k: Key, c: string)
    requires RatesReady(j, rates) && RateColumns(j.columns) == rates && FullRates(j)
    ensures SumOf(B.SubgroupsOf(j, q, rates, k), B.Corrected(j, q, rates, ValFn(c)))
            == SumOf(Members(j.rows, KeyFn(q.groupbyCols), k), ValFn(c))
  {
    PositiveRowsNonZero(j);
    GroupedWeightedSum(j.rows, j.columns, q.groupbyCols, rates, ValFn(c), k);
    WeightedAtFullRate(j, Members(j.rows, KeyFn(q.groupbyCols), k), c);
  }

  /** ... and its corrected count the number of its rows. */
  lemma CorrectedCountAtFullRate(j: Frame, q: Query, rates: seq<string>, k: Key)
    requires RatesReady(j, rates) && RateColumns(j.columns) == rates && FullRates(j)
    ensures SumOf(B.SubgroupsOf(j, q, rates, k), B.Corrected(j, q, rates, One()))
            == |Members(j.rows, KeyFn(q.groupbyCols), k)| as real
  {
    PositiveRowsNonZero(j);
    GroupedWeightedSum(j.rows, j.columns, q.groupbyCols, rates, One(), k);
    CountAtFullRate(j, Members(j.rows, KeyFn(q.groupbyCols), k));
  }

  /** Mode B's `avg(c)` of group `i` is `total / count` for any known values
      of the group's corrected total and count. */
  lemma ModeBMeanFrom(j: Frame, q: Query, rates: seq<string>, i: nat, c: string, total: real, count: nat)
    requires ModeBReady(j, q, rates)
    requires i < |B.GroupKeys(j, q)| && c in q.avgCols && c in q.sumCols
    requires SumOf(B.SubgroupsOf(j, q, rates, B.GroupKeys(j, q)[i]), B.Corrected(j, q, rates, ValFn(c))) == total
    requires SumOf(B.SubgroupsOf(j, q, rates, B.GroupKeys(j, q)[i]), B.Corrected(j, q, rates, One())) == count as real
    ensures i < |ModeB(j, q, rates).entries|
    ensures AvgName(c) in ModeB(j, q, rates).entries[i].row
    ensures count > 0
    ensures ModeB(j, q, rates).entries[i].row[AvgName(c)] == total / (count as real)
  {
    B.ModeBMean(j, q, rates, i, c);
  }

  /** ... so its `avg(c)` is the plain mean of `c` over those rows: their
      total over their number. */
  lemma ModeBMeanAtFullRate(j: Frame, q: Query, rates: seq<string>, i: nat, c: string, total: real, count: nat)
    requires ModeBReady(j, q, rates) && RateColumns(j.columns) == rates && FullRates(j)
    requires i < |B.GroupKeys(j, q)| && c in q.avgCols && c in q.sumCols
    requires total == SumOf(Members(j.rows, KeyFn(q.groupbyCols), B.GroupKeys(j, q)[i]), ValFn(c))
    requires count == |Members(j.rows, KeyFn(q.groupbyCols), B.GroupKeys(j, q)[i])|
    ensures i < |ModeB(j, q, rates).entries|
    ensures AvgName(c) in ModeB(j, q, rates).entries[i].row
    ensures count > 0
    ensures ModeB(j, q, rates).entries[i].row[AvgName(c)] == total / (count as real)
  {
    CorrectedTotalAtFullRate(j, q, rates, B.GroupKeys(j, q)[i], c);
    CorrectedCountAtFullRate(j, q, rates, B.GroupKeys(j, q)[i]);
    ModeBMeanFrom(j, q, rates, i, c, total, count);
  }

  /** Mode B on the join of two full tables gives the ground truth's groups,
      `sum(c)` and `avg(c)` (main.py:300-335 against main.py:224-228). */
  lemma ModeBIsTruth(samples: seq<Frame>, q: Query, rates: seq<string>, i: nat, c: string)
    requires |samples| == 2 && |q.joinCols| == 2 && |q.groupbyCols| > 0
    requires JoinableSamples(samples, q.joinCols)
    requires HasColumns(JoinSamples(samples, q.joinCols), q.groupbyCols + q.avgCols + q.sumCols)
    requires ModeBReady(JoinSamples(samples, q.joinCols), q, rates)
    requires RateColumns(JoinSamples(samples, q.joinCols).columns) == rates
    requires FullRates(JoinSamples(samples, q.joinCols))
    requires i < |B.GroupKeys(JoinSamples(samples, q.joinCols), q)| && c in q.sumCols
    ensures TruthReady(samples, q)
    ensures i < |ModeB(JoinSamples(samples, q.joinCols), q, rates).entries| && i < |Truth(samples, q).entries|
    ensures ModeB(JoinSamples(samples, q.joinCols), q, rates).entries[i].key == Truth(samples, q).entries[i].key
    ensures SumName(c) in ModeB(JoinSamples(samples, q.joinCols), q, rates).entries[i].row
    ensures SumName(c) in Truth(samples, q).entries[i].row
    ensures ModeB(JoinSamples(samples, q.joinCols), q, rates).entries[i].row[SumName(c)]
            == Truth(samples, q).entries[i].row[SumName(c)]
    ensures c in q.avgCols ==>
              && AvgName(c) in ModeB(JoinSamples(samples, q.joinCols), q, rates).entries[i].row
              && AvgName(c) in Truth(samples, q).entries[i].row
              && ModeB(JoinSamples(samples, q.joinCols), q, rates).entries[i].row[AvgName(c)]
                 == Truth(samples, q).entries[i].row[AvgName(c)]
  {
    var j := JoinSamples(samples, q.joinCols);
    assert j == TruthInput(samples, q);
    B.ModeBShape(j, q, rates);
    TruthShape(samples, q);
    ModeBSumAtFullRate(j, q, rates, i, c);
    TruthSum(samples, q, i, c);
    if c in q.avgCols {
      ModeBMeanAtFullRate(j, q, rates, i, c,
                          SumOf(GroupRows(j, q.groupbyCols, i), ValFn(c)), |GroupRows(j, q.groupbyCols, i)|);
      TruthMean(samples, q, i, c);
    }
  }

  /** The single-table path on a full table gives the ground truth's groups,
      sums and means (main.py:372-389 against main.py:226-228). */
  lemma SingleIsTruth(s: Frame, q: Query, rates: seq<string>, i: nat, c: string)
    requires S.SingleTableReady(s, rates) && |q.groupbyCols| > 0
    requires ValidFrame(s) && HasColumns(s, q.groupbyCols + q.avgCols + q.sumCols)
    requires forall r | r in s.rows :: Val(r, rates[0]) == 1.0
    requires i < |S.Groups(s, q)| && c in q.sumCols
    ensures TruthReady([s], q)
    ensures i < |SingleTable(s, q, rates).entries| && i < |Truth([s], q).entries|
    ensures SingleTable(s, q, rates).entries[i].key == Truth([s], q).entries[i].key
    ensures SumName(c) in Truth([s], q).entries[i].row
    ensures Val(SingleTable(s, q, rates).entries[i].row, SumName(c)) == Truth([s], q).entries[i].row[SumName(c)]
    ensures c in q.avgCols ==>
              && AvgName(c) in SingleTable(s, q, rates).entries[i].row
              && AvgName(c) in Truth([s], q).entries[i].row
              && SingleTable(s, q, rates).entries[i].row[AvgName(c)] == Truth([s], q).entries[i].row[AvgName(c)]
  {
    assert TruthInput([s], q) == s;
    S.SingleShape(s, q, rates);
    TruthShape([s], q);
    S.SingleSumAtFullRate(s, q, rates, i, c);
    TruthSum([s], q, i, c);
    if c in q.avgCols {
      S.SingleMean(s, q, rates, i, c);
      TruthMean([s], q, i, c);
    }
  }

  /** Mode C on full tables gives the exact totals over the whole join and,
      as `avg(c)`, the exact mean (main.py:336-371). */
  lemma ModeCAtFullRate(j: Frame, q: Query, rates: seq<string>, c: string)
    requires ModeCReady(j, q, rates) && RateColumns(j.columns) == rates && FullRates(j) && c in q.sumCols
    ensures |ModeC(j, q, rates).entries| == 1
    ensures SumName(c) in ModeC(j, q, rates).entries[0].row
    ensures ModeC(j, q, rates).entries[0].row[SumName(c)] == SumOf(j.rows, ValFn(c))
    ensures c in q.avgCols ==>
              && AvgName(c) in ModeC(j, q, rates).entries[0].row
              && ModeC(j, q, rates).entries[0].row[AvgName(c)] == SumOf(j.rows, ValFn(c)) / (|j.rows| as real)
  {
    C.ModeCSumIsWeighted(j, q, rates, c);
    WeightedAtFullRate(j, j.rows, c);
    if c in q.avgCols {
      C.ModeCMeanIsWeighted(j, q, rates, c);
      CountAtFullRate(j, j.rows);
    }
  }

  /** At full rate every row counts once. */
  lemma CountAtFullRate(f: Frame, g: seq<Row>)
    requires FullRates(f) && forall x | x in g :: x in f.rows
    ensures SumOf(g, WeightedFn(f.columns, One())) == |g| as real
  {
    forall x | x in g
      ensures WeightedFn(f.columns, One())(x) == One<Row>()(x)
    {
      RateProductOfOnes(f.columns, x);
    }
    SumOfPointwise(g, WeightedFn(f.columns, One()), One());
    SumOfOne(g);
  }
}
