/** What Mode B's estimate holds. The joined sample is split into subgroups
    that share the group-by key and every rate value; each subgroup's sums
    and size are divided by the product of its rates, and the corrected
    subgroups are summed per group. `avg(c)` is the corrected sum over the
    corrected count. */
module ModeBEstimates {
  import opened Frames
  import opened Grouping
  import opened Aggregation
  import opened Columns
  import opened Config
  import opened Dictionaries
  import opened Weights
  import opened SampleAggregation

  /** The subgroup key columns: the group-by columns, then the rates. */
  function Fine(q: Query, rates: seq<string>): seq<string> {
    q.groupbyCols + rates
  }

  /** The subgroup keys of the joined sample, in order of first appearance. */
  function SubgroupKeys(j: Frame, q: Query, rates: seq<string>): seq<Key> {
    Keys(j.rows, KeyFn(Fine(q, rates)))
  }

  /** The group keys, in order of first appearance. */
  function GroupKeys(j: Frame, q: Query): seq<Key> {
    Keys(j.rows, KeyFn(q.groupbyCols))
  }

  /** A subgroup's corrected total of `f`: its total over its rate product. */
  function Corrected(j: Frame, q: Query, rates: seq<string>, f: Row -> real): Key -> real {
    SubgroupTotal(j.rows, Fine(q, rates), |q.groupbyCols|, f)
  }

  /** The subgroups of the group with key `k`. */
  function SubgroupsOf(j: Frame, q: Query, rates: seq<string>, k: Key): seq<Key> {
    SubKeys(j.rows, Fine(q, rates), |q.groupbyCols|, k)
  }

  /** A subgroup's mean of a rate column is that rate, read off its key. */
  lemma SubgroupRateMean(j: Frame, q: Query, rates: seq<string>, m: nat, l: nat)
    requires ModeBReady(j, q, rates)
    requires m < |SubgroupKeys(j, q, rates)| && l < |rates|
    ensures m < |Subgroups(j, q, rates).entries|
    ensures |Suffix(SubgroupKeys(j, q, rates)[m], |q.groupbyCols|)| == |rates|
    ensures Val(Subgroups(j, q, rates).entries[m].row, rates[l]) == Suffix(SubgroupKeys(j, q, rates)[m], |q.groupbyCols|)[l]
  {
    SubgroupRateMeanAt(j, q, rates, m, l);
    SuffixIndex(SubgroupKeys(j, q, rates)[m], |q.groupbyCols|, l);
  }

  lemma SubgroupRateMeanAt(j: Frame, q: Query, rates: seq<string>, m: nat, l: nat)
    requires ModeBReady(j, q, rates)
    requires m < |SubgroupKeys(j, q, rates)| && l < |rates|
    ensures |SubgroupKeys(j, q, rates)[m]| == |q.groupbyCols| + |rates|
    ensures m < |Subgroups(j, q, rates).entries|
    ensures Val(Subgroups(j, q, rates).entries[m].row, rates[l]) == SubgroupKeys(j, q, rates)[m][|q.groupbyCols| + l]
  {
    var sk := SubgroupKeys(j, q, rates)[m];
    var c := rates[l];
    assert c in rates;
    SubgroupKeyLength(j, q, rates, m);
    ModeBDictFacts(q, rates, c);
    BaseDictSpecs(q, rates, SumRole, c);
    NamesDiffer("", "");
    SubgroupMembersRate(j, q, rates, m, l);
    GroupFrameConstantMean(j, Fine(q, rates), ModeBDict(q, rates), m, c, sk[|q.groupbyCols| + l]);
  }

  /** Every row of a subgroup carries the rate value named in the subgroup's key. */
  lemma SubgroupMembersRate(j: Frame, q: Query, rates: seq<string>, m: nat, l: nat)
    requires m < |SubgroupKeys(j, q, rates)| && l < |rates|
    requires |SubgroupKeys(j, q, rates)[m]| == |q.groupbyCols| + |rates|
    ensures forall x | x in GroupRows(j, Fine(q, rates), m) :: Val(x, rates[l]) == SubgroupKeys(j, q, rates)[m][|q.groupbyCols| + l]
  {
    var fine := Fine(q, rates);
    var sk := SubgroupKeys(j, q, rates)[m];
    var i := |q.groupbyCols| + l;
    assert fine[i] == rates[l];
    forall x | x in GroupRows(j, fine, m)
      ensures Val(x, rates[l]) == sk[i]
    {
      GroupRowsKey(j, fine, m, x);
    }
  }

  lemma SubgroupKeyLength(j: Frame, q: Query, rates: seq<string>, m: nat)
    requires m < |SubgroupKeys(j, q, rates)|
    ensures |SubgroupKeys(j, q, rates)[m]| == |q.groupbyCols| + |rates|
  {
    var sk := SubgroupKeys(j, q, rates)[m];
    var ms := Members(j.rows, KeyFn(Fine(q, rates)), sk);
    assert sk in SubgroupKeys(j, q, rates);
    assert ms[0] in ms;
  }

  /** The rate means of a subgroup are the rate part of its key. */
  lemma SubgroupRateMeans(j: Frame, q: Query, rates: seq<string>, m: nat)
    requires ModeBReady(j, q, rates)
    requires m < |SubgroupKeys(j, q, rates)|
    ensures |Suffix(SubgroupKeys(j, q, rates)[m], |q.groupbyCols|)| == |rates|
    ensures m < |Subgroups(j, q, rates).entries|
    ensures forall l | 0 <= l < |rates| ::
              Val(Subgroups(j, q, rates).entries[m].row, rates[l])
              == Suffix(SubgroupKeys(j, q, rates)[m], |q.groupbyCols|)[l]
  {
    SubgroupKeyLength(j, q, rates, m);
    forall l | 0 <= l < |rates|
      ensures Val(Subgroups(j, q, rates).entries[m].row, rates[l])
              == Suffix(SubgroupKeys(j, q, rates)[m], |q.groupbyCols|)[l]
    {
      SubgroupRateMean(j, q, rates, m, l);
    }
  }

  /** A collapsed subgroup's `rate` is the product of its rates. */
  lemma SubgroupRate(j: Frame, q: Query, rates: seq<string>, m: nat)
    requires ModeBReady(j, q, rates)
    requires m < |SubgroupKeys(j, q, rates)|
    ensures "rate" !in Subgroups(j, q, rates).columns
    ensures Val(CollapseRates(Subgroups(j, q, rates)).entries[m].row, "rate")
            == Product(Suffix(SubgroupKeys(j, q, rates)[m], |q.groupbyCols|))
  {
    var p := Subgroups(j, q, rates);
    var row := p.entries[m].row;
    SubgroupsFacts(j, q, rates);
    ModeBDictFacts(q, rates, "rate");
    RateProductIsProductOfRateColumns(p.columns, row);
    SubgroupRateMeans(j, q, rates, m);
    ProductOfRow(rates, row, Suffix(SubgroupKeys(j, q, rates)[m], |q.groupbyCols|));
  }

  /** A subgroup's `sum(c)` and `cnt` before the correction. */
  lemma SubgroupRawTotals(j: Frame, q: Query, rates: seq<string>, m: nat, c: string)
    requires ModeBReady(j, q, rates)
    requires m < |SubgroupKeys(j, q, rates)| && c in q.sumCols
    ensures var ms := Members(j.rows, KeyFn(Fine(q, rates)), SubgroupKeys(j, q, rates)[m]);
            var row := Subgroups(j, q, rates).entries[m].row;
            && SumName(c) in row && row[SumName(c)] == SumOf(ms, ValFn(c))
            && "cnt" in row && row["cnt"] == |ms| as real
  {
    var d := ModeBDict(q, rates);
    var fine := Fine(q, rates);
    ModeBDictFacts(q, rates, SumName(c));
    BaseDictSpecs(q, rates, SumRole, SumName(c));
    ModeBDictFacts(q, rates, "cnt");
    GroupFrameTotal(j, fine, d, m, SumName(c), c);
    GroupFrameSize(j, fine, d, m, "cnt");
  }

  lemma SubgroupTotals(j: Frame, q: Query, rates: seq<string>, m: nat, c: string)
    requires ModeBReady(j, q, rates)
    requires m < |SubgroupKeys(j, q, rates)| && c in q.sumCols
    ensures "rate" !in Subgroups(j, q, rates).columns
    ensures var ms := Members(j.rows, KeyFn(Fine(q, rates)), SubgroupKeys(j, q, rates)[m]);
            var row := CollapseRates(Subgroups(j, q, rates)).entries[m].row;
            && SumName(c) in row && row[SumName(c)] == SumOf(ms, ValFn(c))
            && "cnt" in row && row["cnt"] == |ms| as real
  {
    var p := Subgroups(j, q, rates);
    SubgroupsFacts(j, q, rates);
    NamesDiffer(c, c);
    SubgroupRawTotals(j, q, rates, m, c);
    CollapsedKeeps(p, m, SumName(c));
    CollapsedKeeps(p, m, "cnt");
  }

  /** After the correction a subgroup holds its corrected `sum(c)` (or count). */
  lemma CorrectedSubgroupValue(j: Frame, q: Query, rates: seq<string>, m: nat, c: string, name: string, f: Row -> real)
    requires ModeBReady(j, q, rates)
    requires m < |SubgroupKeys(j, q, rates)| && c in q.sumCols
    requires (name == SumName(c) && f == ValFn(c)) || (name == "cnt" && f == One())
    ensures m < |ModeBCorrected(j, q, rates).entries|
    ensures Val(ModeBCorrected(j, q, rates).entries[m].row, name) == Corrected(j, q, rates, f)(SubgroupKeys(j, q, rates)[m])
  {
    var p := Subgroups(j, q, rates);
    SubgroupsFacts(j, q, rates);
    CollapsedPositive(p);
    var col := CollapseRates(p);
    NamesDiffer(c, c);
    SubgroupRate(j, q, rates, m);
    SubgroupTotals(j, q, rates, m, c);
    CollapsedColumns(j, q, rates, name);
    assert IsSumName(q.sumCols, SumName(c));
    DividedValue(col, true, "rate", m, name);
    if name == "cnt" {
      SumOfOne(Members(j.rows, KeyFn(Fine(q, rates)), SubgroupKeys(j, q, rates)[m]));
    }
  }

  /** After the correction a subgroup holds its corrected sums and count. */
  lemma CorrectedSubgroup(j: Frame, q: Query, rates: seq<string>, m: nat, c: string)
    requires ModeBReady(j, q, rates)
    requires m < |SubgroupKeys(j, q, rates)| && c in q.sumCols
    ensures m < |ModeBCorrected(j, q, rates).entries|
    ensures ModeBCorrected(j, q, rates).entries[m].key == SubgroupKeys(j, q, rates)[m]
    ensures Val(ModeBCorrected(j, q, rates).entries[m].row, SumName(c))
            == Corrected(j, q, rates, ValFn(c))(SubgroupKeys(j, q, rates)[m])
    ensures Val(ModeBCorrected(j, q, rates).entries[m].row, "cnt")
            == Corrected(j, q, rates, One())(SubgroupKeys(j, q, rates)[m])
  {
    SubgroupsFacts(j, q, rates);
    CorrectedSubgroupValue(j, q, rates, m, c, SumName(c), ValFn(c));
    CorrectedSubgroupValue(j, q, rates, m, c, "cnt", One());
  }

  /** The collapsed subgroups' columns: the dictionary's measures, `cnt` and
      `rate`. */
  lemma CollapsedColumns(j: Frame, q: Query, rates: seq<string>, n: string)
    requires ModeBReady(j, q, rates)
    ensures "rate" !in Subgroups(j, q, rates).columns
    ensures n in CollapseRates(Subgroups(j, q, rates)).columns
            <==> IsAvgName(q.avgCols, n) || IsSumName(q.sumCols, n) || n == "cnt" || n == "rate"
  {
    SubgroupsFacts(j, q, rates);
    ModeBDictFacts(q, rates, n);
    var d := ModeBDict(q, rates);
    assert n in d.names <==> n in d.specs;
    NamesDiffer("", "");
    if IsAvgName(q.avgCols, n) || IsSumName(q.sumCols, n) {
      var a :| a in q.avgCols + q.sumCols && (n == AvgName(a) || n == SumName(a));
      NamesDiffer(a, a);
    }
  }

  /** `f_aggregations` re-sums exactly the `sum(...)` columns and `cnt`. */
  lemma ResumNames(j: Frame, q: Query, rates: seq<string>, n: string)
    requires ModeBReady(j, q, rates)
    ensures n in ModeBResum(j, q, rates).specs <==> IsSumName(q.sumCols, n) || n == "cnt"
    ensures n in ModeBResum(j, q, rates).specs ==> ModeBResum(j, q, rates).specs[n] == AggSpec(n, Total)
  {
    CollapsedColumns(j, q, rates, n);
    NamesDiffer("", "");
    if IsAvgName(q.avgCols, n) {
      var a :| a in q.avgCols && n == AvgName(a);
      NamesDiffer(a, a);
    }
    if IsSumName(q.sumCols, n) {
      var a :| a in q.sumCols && n == SumName(a);
      NamesDiffer(a, a);
    }
  }

  lemma CorrectedKeys(j: Frame, q: Query, rates: seq<string>)
    requires ModeBReady(j, q, rates)
    ensures |ModeBCorrected(j, q, rates).entries| == |SubgroupKeys(j, q, rates)|
    ensures forall m | 0 <= m < |SubgroupKeys(j, q, rates)| ::
              ModeBCorrected(j, q, rates).entries[m].key == SubgroupKeys(j, q, rates)[m]
  {
    SubgroupsFacts(j, q, rates);
  }

  /** Regrouping the subgroups by their group-by prefix yields the groups. */
  lemma RegroupedKeys(j: Frame, q: Query, rates: seq<string>)
    requires ModeBReady(j, q, rates)
    ensures Keys(ModeBCorrected(j, q, rates).entries, EntryPrefixFn(|q.groupbyCols|)) == GroupKeys(j, q)
  {
    var n := |q.groupbyCols|;
    var fks := SubgroupKeys(j, q, rates);
    var es := ModeBCorrected(j, q, rates).entries;
    CorrectedKeys(j, q, rates);
    KeysAligned(es, EntryPrefixFn(n), fks, PrefixFn(n));
    forall x | x in j.rows
      ensures KeyFn(q.groupbyCols)(x) == PrefixFn(n)(KeyFn(Fine(q, rates))(x))
    {
      KeyOfAppend(q.groupbyCols, rates, x);
    }
    KeysOfKeys(j.rows, KeyFn(Fine(q, rates)), PrefixFn(n), KeyFn(q.groupbyCols));
  }

  /** The corrected subgroups line up with the subgroup keys, value by value. */
  lemma CorrectedAligned(j: Frame, q: Query, rates: seq<string>, c: string, name: string, f: Row -> real)
    requires ModeBReady(j, q, rates) && c in q.sumCols
    requires (name == SumName(c) && f == ValFn(c)) || (name == "cnt" && f == One())
    ensures Aligned(ModeBCorrected(j, q, rates).entries, EntryPrefixFn(|q.groupbyCols|), FieldFn(EntryRowFn(), name),
                    SubgroupKeys(j, q, rates), PrefixFn(|q.groupbyCols|), Corrected(j, q, rates, f))
  {
    CorrectedKeys(j, q, rates);
    forall m | 0 <= m < |SubgroupKeys(j, q, rates)|
      ensures FieldFn(EntryRowFn(), name)(ModeBCorrected(j, q, rates).entries[m])
              == Corrected(j, q, rates, f)(SubgroupKeys(j, q, rates)[m])
    {
      CorrectedSubgroup(j, q, rates, m, c);
    }
  }

  /** Regrouping entries that line up with keys `ks` sums, per coarse key,
      the values the keys stand for. */
  lemma RegroupTotal(t: Table, n: nat, f: AggDict, i: nat, name: string, ks: seq<Key>, h: Key -> real)
    requires Aligned(t.entries, EntryPrefixFn(n), FieldFn(EntryRowFn(), name), ks, PrefixFn(n), h)
    requires i < |Keys(t.entries, EntryPrefixFn(n))|
    requires name in f.specs && f.specs[name] == AggSpec(name, Total)
    ensures i < |RegroupTable(t, n, f).entries|
    ensures name in RegroupTable(t, n, f).entries[i].row
    ensures RegroupTable(t, n, f).entries[i].row[name]
            == SumOf(Members(ks, PrefixFn(n), Keys(t.entries, EntryPrefixFn(n))[i]), h)
  {
    var k := Keys(t.entries, EntryPrefixFn(n))[i];
    GroupByValue(t.entries, EntryPrefixFn(n), EntryRowFn(), f, i, name);
    MembersAligned(t.entries, EntryPrefixFn(n), FieldFn(EntryRowFn(), name), ks, PrefixFn(n), h, k);
  }

  /** The regrouped `sum(c)` and `cnt` of group `i`: the sums of its
      subgroups' corrected values (main.py:316-331). */
  lemma RegroupedTotals(j: Frame, q: Query, rates: seq<string>, i: nat, c: string)
    requires ModeBReady(j, q, rates)
    requires i < |GroupKeys(j, q)| && c in q.sumCols
    ensures i < |ModeBRegrouped(j, q, rates).entries|
    ensures ModeBRegrouped(j, q, rates).entries[i].key == GroupKeys(j, q)[i]
    ensures SumName(c) in ModeBRegrouped(j, q, rates).entries[i].row
    ensures var k := GroupKeys(j, q)[i];
            && Val(ModeBRegrouped(j, q, rates).entries[i].row, SumName(c))
               == SumOf(SubgroupsOf(j, q, rates, k), Corrected(j, q, rates, ValFn(c)))
            && Val(ModeBRegrouped(j, q, rates).entries[i].row, "cnt")
               == SumOf(SubgroupsOf(j, q, rates, k), Corrected(j, q, rates, One()))
  {
    var n := |q.groupbyCols|;
    var t := ModeBCorrected(j, q, rates);
    var f := ModeBResum(j, q, rates);
    RegroupedKeys(j, q, rates);
    ResumNames(j, q, rates, SumName(c));
    ResumNames(j, q, rates, "cnt");
    assert IsSumName(q.sumCols, SumName(c));
    CorrectedAligned(j, q, rates, c, SumName(c), ValFn(c));
    RegroupTotal(t, n, f, i, SumName(c), SubgroupKeys(j, q, rates), Corrected(j, q, rates, ValFn(c)));
    CorrectedAligned(j, q, rates, c, "cnt", One());
    RegroupTotal(t, n, f, i, "cnt", SubgroupKeys(j, q, rates), Corrected(j, q, rates, One()));
  }

  lemma RegroupedColumns(j: Frame, q: Query, rates: seq<string>, n: string)
    requires ModeBReady(j, q, rates)
    ensures n in ModeBRegrouped(j, q, rates).columns <==> IsSumName(q.sumCols, n) || n == "cnt"
  {
    var f := ModeBResum(j, q, rates);
    ResumNames(j, q, rates, n);
    assert n in f.names <==> n in f.specs;
  }

  /** The estimate has one entry per group and exactly the `sum(...)` and
      `avg(...)` columns: the rates, `rate` and `cnt` are gone
      (main.py:300-335). */
  lemma ModeBShape(j: Frame, q: Query, rates: seq<string>)
    requires ModeBReady(j, q, rates)
    ensures |ModeB(j, q, rates).entries| == |GroupKeys(j, q)|
    ensures forall i | 0 <= i < |GroupKeys(j, q)| :: ModeB(j, q, rates).entries[i].key == GroupKeys(j, q)[i]
    ensures forall n :: n in ModeB(j, q, rates).columns <==> IsSumName(q.sumCols, n) || IsAvgName(q.avgCols, n)
  {
    var r := ModeBRegrouped(j, q, rates);
    RegroupedKeys(j, q, rates);
    ModeBCountPositive(j, q, rates);
    FinishShape(r, q.avgCols);
    forall n
      ensures n in ModeB(j, q, rates).columns <==> IsSumName(q.sumCols, n) || IsAvgName(q.avgCols, n)
    {
      RegroupedColumns(j, q, rates, n);
      if IsSumName(q.sumCols, n) {
        var a :| a in q.sumCols && n == SumName(a);
        NamesDiffer(a, a);
      }
      if IsAvgName(q.avgCols, n) {
        var a :| a in q.avgCols && n == AvgName(a);
        NamesDiffer(a, a);
      }
    }
  }

  /** `sum(c)` of group `i`: the sum over its subgroups of the subgroup's
      total of `c` divided by the subgroup's rate product. */
  lemma ModeBSum(j: Frame, q: Query, rates: seq<string>, i: nat, c: string)
    requires ModeBReady(j, q, rates)
    requires i < |GroupKeys(j, q)| && c in q.sumCols
    ensures i < |ModeB(j, q, rates).entries|
    ensures SumName(c) in ModeB(j, q, rates).entries[i].row
    ensures ModeB(j, q, rates).entries[i].row[SumName(c)]
            == SumOf(SubgroupsOf(j, q, rates, GroupKeys(j, q)[i]), Corrected(j, q, rates, ValFn(c)))
  {
    var r := ModeBRegrouped(j, q, rates);
    RegroupedTotals(j, q, rates, i, c);
    ModeBCountPositive(j, q, rates);
    FinishKeepsSum(r, q.avgCols, i, c);
  }

  /** `avg(c)` of group `i`: its corrected sum of `c` over its corrected
      count (main.py:332-333). */
  lemma ModeBMean(j: Frame, q: Query, rates: seq<string>, i: nat, c: string)
    requires ModeBReady(j, q, rates)
    requires i < |GroupKeys(j, q)| && c in q.avgCols && c in q.sumCols
    ensures i < |ModeB(j, q, rates).entries|
    ensures AvgName(c) in ModeB(j, q, rates).entries[i].row
    ensures SumOf(SubgroupsOf(j, q, rates, GroupKeys(j, q)[i]), Corrected(j, q, rates, One())) > 0.0
    ensures var k := GroupKeys(j, q)[i];
            ModeB(j, q, rates).entries[i].row[AvgName(c)]
            == SumOf(SubgroupsOf(j, q, rates, k), Corrected(j, q, rates, ValFn(c)))
               / SumOf(SubgroupsOf(j, q, rates, k), Corrected(j, q, rates, One()))
  {
    var k := GroupKeys(j, q)[i];
    RegroupedTotals(j, q, rates, i, c);
    ModeBCountPositive(j, q, rates);
    FinishMean(ModeBRegrouped(j, q, rates), q.avgCols, i, c,
               SumOf(SubgroupsOf(j, q, rates, k), Corrected(j, q, rates, ValFn(c))),
               SumOf(SubgroupsOf(j, q, rates, k), Corrected(j, q, rates, One())));
    assert ModeB(j, q, rates) == Finish(ModeBRegrouped(j, q, rates), q.avgCols);
  }

  // ------------------------------------------- agreement with Mode A

  /** The group's estimated size: every row counted as the inverse of its
      combined rate. */
  lemma ModeBCount(j: Frame, q: Query, rates: seq<string>, i: nat, c: string)
    requires ModeBReady(j, q, rates) && RateColumns(j.columns) == rates
    requires i < |GroupKeys(j, q)| && c in q.sumCols
    ensures var k := GroupKeys(j, q)[i];
            SumOf(SubgroupsOf(j, q, rates, k), Corrected(j, q, rates, One()))
            == SumOf(Members(j.rows, KeyFn(q.groupbyCols), k), WeightedFn(j.columns, One()))
  {
    PositiveRowsNonZero(j);
    GroupedWeightedSum(j.rows, j.columns, q.groupbyCols, rates, One(), GroupKeys(j, q)[i]);
  }

  /** When the sample's rate columns are exactly the configured ones, Mode B's
      `sum(c)` of a group is the sum of `c / rate` over the group's rows: the
      two-phase correction computes Mode A's estimate. */
  lemma ModeBSumIsWeighted(j: Frame, q: Query, rates: seq<string>, i: nat, c: string)
    requires ModeBReady(j, q, rates) && RateColumns(j.columns) == rates
    requires i < |GroupKeys(j, q)| && c in q.sumCols
    ensures i < |ModeB(j, q, rates).entries|
    ensures SumName(c) in ModeB(j, q, rates).entries[i].row
    ensures ModeB(j, q, rates).entries[i].row[SumName(c)]
            == SumOf(Members(j.rows, KeyFn(q.groupbyCols), GroupKeys(j, q)[i]), WeightedFn(j.columns, ValFn(c)))
  {
    ModeBSum(j, q, rates, i, c);
    PositiveRowsNonZero(j);
    GroupedWeightedSum(j.rows, j.columns, q.groupbyCols, rates, ValFn(c), GroupKeys(j, q)[i]);
  }

  lemma RatioOfScaled(a: real, b: real, rho: real)
    requires rho != 0.0 && b != 0.0
    ensures (a / rho) / (b / rho) == a / b
  {
  }

  /** When every row has the same combined rate, Mode B's `avg(c)` of a group
      is the plain mean of `c` over the group's rows: the rate cancels. */
  lemma ModeBMeanUnderConstantRate(j: Frame, q: Query, rates: seq<string>, i: nat, c: string, rho: real)
    requires ModeBReady(j, q, rates) && RateColumns(j.columns) == rates
    requires i < |GroupKeys(j, q)| && c in q.avgCols && c in q.sumCols
    requires forall r | r in j.rows :: RateProduct(j.columns, r) == rho
    ensures i < |ModeB(j, q, rates).entries|
    ensures AvgName(c) in ModeB(j, q, rates).entries[i].row
    ensures |Members(j.rows, KeyFn(q.groupbyCols), GroupKeys(j, q)[i])| > 0
    ensures var g := Members(j.rows, KeyFn(q.groupbyCols), GroupKeys(j, q)[i]);
            ModeB(j, q, rates).entries[i].row[AvgName(c)] == SumOf(g, ValFn(c)) / (|g| as real)
  {
    ModeBMean(j, q, rates, i, c);
    ConstantRateRatio(j, q, rates, i, c, rho);
  }

  /** The ratio Mode B reports is the plain mean under one combined rate. */
  lemma ConstantRateRatio(j: Frame, q: Query, rates: seq<string>, i: nat, c: string, rho: real)
    requires ModeBReady(j, q, rates) && RateColumns(j.columns) == rates
    requires i < |GroupKeys(j, q)| && c in q.sumCols
    requires forall r | r in j.rows :: RateProduct(j.columns, r) == rho
    ensures |Members(j.rows, KeyFn(q.groupbyCols), GroupKeys(j, q)[i])| > 0
    ensures SumOf(SubgroupsOf(j, q, rates, GroupKeys(j, q)[i]), Corrected(j, q, rates, One())) > 0.0
    ensures var k := GroupKeys(j, q)[i];
            var g := Members(j.rows, KeyFn(q.groupbyCols), k);
            SumOf(SubgroupsOf(j, q, rates, k), Corrected(j, q, rates, ValFn(c)))
              / SumOf(SubgroupsOf(j, q, rates, k), Corrected(j, q, rates, One()))
            == SumOf(g, ValFn(c)) / (|g| as real)
  {
    var k := GroupKeys(j, q)[i];
    var g := Members(j.rows, KeyFn(q.groupbyCols), k);
    assert k in GroupKeys(j, q);
    assert g[0] in g;
    RateProductPositive(j.columns, g[0]);
    WeightedTotals(j, q, rates, i, c);
    ConstantRateSums(g, j.columns, c, rho);
    QuotientPositive(|g| as real, rho);
    RatioOfScaled(SumOf(g, ValFn(c)), |g| as real, rho);
  }

  /** Both corrected totals of a group are its weighted row totals. */
  lemma WeightedTotals(j: Frame, q: Query, rates: seq<string>, i: nat, c: string)
    requires ModeBReady(j, q, rates) && RateColumns(j.columns) == rates
    requires i < |GroupKeys(j, q)| && c in q.sumCols
    ensures var k := GroupKeys(j, q)[i];
            var g := Members(j.rows, KeyFn(q.groupbyCols), k);
            && SumOf(SubgroupsOf(j, q, rates, k), Corrected(j, q, rates, ValFn(c))) == SumOf(g, WeightedFn(j.columns, ValFn(c)))
            && SumOf(SubgroupsOf(j, q, rates, k), Corrected(j, q, rates, One())) == SumOf(g, WeightedFn(j.columns, One()))
  {
    PositiveRowsNonZero(j);
    GroupedWeightedSum(j.rows, j.columns, q.groupbyCols, rates, ValFn(c), GroupKeys(j, q)[i]);
    GroupedWeightedSum(j.rows, j.columns, q.groupbyCols, rates, One(), GroupKeys(j, q)[i]);
  }

  /** Under one combined rate `rho`, weighting divides every total by `rho`. */
  lemma ConstantRateSums(g: seq<Row>, cols: seq<string>, c: string, rho: real)
    requires rho > 0.0
    requires forall r | r in g :: RateProduct(cols, r) == rho
    ensures SumOf(g, WeightedFn(cols, ValFn(c))) == SumOf(g, ValFn(c)) / rho
    ensures SumOf(g, WeightedFn(cols, One())) == (|g| as real) / rho
  {
    forall x | x in g
      ensures WeightedFn(cols, ValFn(c))(x) == ValFn(c)(x) / rho
      ensures WeightedFn(cols, One())(x) == One<Row>()(x) / rho
    {
    }
    SumOfDivide(g, ValFn(c), WeightedFn(cols, ValFn(c)), rho);
    SumOfDivide(g, One(), WeightedFn(cols, One()), rho);
    SumOfOne(g);
  }
}
