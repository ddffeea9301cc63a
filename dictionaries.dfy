/** The `aggregations` dictionaries of `sample_aggregation` and
    `ground_truth_aggregation`, and what each holds under each name. */
module Dictionaries {
  import opened Frames
  import opened Aggregation
  import opened Columns
  import opened Config

  predicate IsAvgName(cols: seq<string>, m: string) {
    exists c | c in cols :: m == AvgName(c)
  }

  predicate IsSumName(cols: seq<string>, m: string) {
    exists c | c in cols :: m == SumName(c)
  }

  /** The first two loops: `avg(c) = (c, 'mean')`, then `sum(c) = (source, 'sum')`. */
  function MeasureDict(q: Query, sumRole: Role): (d: AggDict)
    ensures WellFormed(d)
  {
    PutAll(PutAll(EmptyDict, q.avgCols, AvgRole), q.sumCols, sumRole)
  }

  /** `ground_truth_aggregation`'s dictionary: plain means and sums. */
  function TruthDict(q: Query): (d: AggDict)
    ensures WellFormed(d)
  {
    MeasureDict(q, SumRole)
  }

  /** The three loops every path of `sample_aggregation` starts with; the
      third adds `c = (c, 'mean')` for every rate column. */
  function BaseDict(q: Query, rates: seq<string>, sumRole: Role): (d: AggDict)
    ensures WellFormed(d)
  {
    PutAll(MeasureDict(q, sumRole), rates, RateRole)
  }

  /** Mode A sums the scaled columns. */
  function ModeADict(q: Query, rates: seq<string>): (d: AggDict)
    ensures WellFormed(d)
  {
    BaseDict(q, rates, ScaledSumRole)
  }

  /** Modes B, C and the single-table path sum the raw columns. */
  function PlainDict(q: Query, rates: seq<string>): (d: AggDict)
    ensures WellFormed(d)
  {
    BaseDict(q, rates, SumRole)
  }

  /** `aggregations['cnt'] = (avg_cols[0], 'size')`. */
  function CntSpec(q: Query): AggSpec
    requires |q.avgCols| > 0
  {
    AggSpec(q.avgCols[0], Size)
  }

  function ModeBDict(q: Query, rates: seq<string>): (d: AggDict)
    requires |q.avgCols| > 0
    ensures WellFormed(d)
  {
    Put(PlainDict(q, rates), "cnt", CntSpec(q))
  }

  function NotSumFn(): string -> bool {
    n => !StartsWith(n, "sum")
  }

  /** `{name: d[name] for name in d if name.startswith('sum')}`. */
  function SumOnly(d: AggDict): (r: AggDict)
    requires WellFormed(d)
    ensures WellFormed(r)
    ensures forall m :: m in r.specs <==> m in d.specs && StartsWith(m, "sum")
    ensures forall m | m in r.specs :: r.specs[m] == d.specs[m]
  {
    KeepNoDuplicates(d.names, NotSumFn());
    AggDict(Keep(d.names, NotSumFn()), map n | n in d.specs && StartsWith(n, "sum") :: d.specs[n])
  }

  function ModeCDict(q: Query, rates: seq<string>): (d: AggDict)
    requires |q.avgCols| > 0
    ensures WellFormed(d)
  {
    Put(SumOnly(PlainDict(q, rates)), "cnt", CntSpec(q))
  }

  // ------------------------------------------------------------- facts

  lemma AvgNamesInjective(cols: seq<string>)
    ensures forall a, b | a in cols && b in cols && RoleName(AvgRole, a) == RoleName(AvgRole, b) :: a == b
  {
    forall a, b | a in cols && b in cols && RoleName(AvgRole, a) == RoleName(AvgRole, b)
      ensures a == b
    {
      AvgNameInjective(a, b);
    }
  }

  lemma SumNamesInjective(cols: seq<string>, role: Role)
    requires role == SumRole || role == ScaledSumRole
    ensures forall a, b | a in cols && b in cols && RoleName(role, a) == RoleName(role, b) :: a == b
  {
    forall a, b | a in cols && b in cols && RoleName(role, a) == RoleName(role, b)
      ensures a == b
    {
      SumNameInjective(a, b);
    }
  }

  /** The measure dictionary holds exactly the `avg(...)` and `sum(...)`
      names, each with the specification its loop stored. */
  lemma MeasureDictSpecs(q: Query, role: Role, m: string)
    requires role == SumRole || role == ScaledSumRole
    ensures m in MeasureDict(q, role).specs <==> IsAvgName(q.avgCols, m) || IsSumName(q.sumCols, m)
    ensures forall c | c in q.sumCols && m == SumName(c) :: MeasureDict(q, role).specs[m] == RoleSpec(role, c)
    ensures forall c | c in q.avgCols && m == AvgName(c) :: MeasureDict(q, role).specs[m] == AggSpec(c, Mean)
  {
    var d1 := PutAll(EmptyDict, q.avgCols, AvgRole);
    PutAllNames(EmptyDict, q.avgCols, AvgRole, m);
    PutAllNames(d1, q.sumCols, role, m);
    AvgNamesInjective(q.avgCols);
    SumNamesInjective(q.sumCols, role);
    PutAllStores(EmptyDict, q.avgCols, AvgRole, m);
    PutAllStores(d1, q.sumCols, role, m);
    forall a, b | a in q.avgCols && b in q.sumCols
      ensures m == AvgName(a) ==> m != RoleName(role, b)
    {
      NamesDiffer(a, b);
    }
  }

  /** On top of that the base dictionary holds every rate column as its mean. */
  lemma BaseDictSpecs(q: Query, rates: seq<string>, role: Role, m: string)
    requires role == SumRole || role == ScaledSumRole
    requires forall c | c in rates :: IsRateColumn(c)
    ensures m in BaseDict(q, rates, role).specs <==> IsAvgName(q.avgCols, m) || IsSumName(q.sumCols, m) || m in rates
    ensures forall c | c in q.sumCols && m == SumName(c) :: BaseDict(q, rates, role).specs[m] == RoleSpec(role, c)
    ensures forall c | c in q.avgCols && m == AvgName(c) :: BaseDict(q, rates, role).specs[m] == AggSpec(c, Mean)
    ensures m in rates ==> BaseDict(q, rates, role).specs[m] == AggSpec(m, Mean)
  {
    var d2 := MeasureDict(q, role);
    MeasureDictSpecs(q, role, m);
    PutAllNames(d2, rates, RateRole, m);
    PutAllStores(d2, rates, RateRole, m);
    if IsAvgName(q.avgCols, m) || IsSumName(q.sumCols, m) {
      if m in rates {
        var a :| a in q.avgCols + q.sumCols && (m == AvgName(a) || m == SumName(a));
        NamesDiffer(a, a);
        assert false;
      }
    }
  }

  /** No `avg(...)` or `sum(...)` name is a rate column. */
  lemma MeasureDictNoRates(q: Query, role: Role)
    requires role == SumRole || role == ScaledSumRole
    ensures forall m | m in MeasureDict(q, role).names :: !IsRateColumn(m)
    ensures RateColumns(MeasureDict(q, role).names) == []
  {
    forall m | m in MeasureDict(q, role).names
      ensures !IsRateColumn(m)
    {
      MeasureDictSpecs(q, role, m);
      var a :| a in q.avgCols + q.sumCols && (m == AvgName(a) || m == SumName(a));
      NamesDiffer(a, a);
    }
    forall c | c in q.avgCols
      ensures !IsRateColumn(RoleName(AvgRole, c))
    {
      NamesDiffer(c, c);
    }
    forall c | c in q.sumCols
      ensures !IsRateColumn(RoleName(role, c))
    {
      NamesDiffer(c, c);
    }
    PutAllNoRates(EmptyDict, q.avgCols, AvgRole);
    PutAllNoRates(PutAll(EmptyDict, q.avgCols, AvgRole), q.sumCols, role);
  }

  /** The base dictionary's rate columns are the tables' rate columns, in
      configuration order. */
  lemma BaseDictRates(q: Query, rates: seq<string>, role: Role)
    requires role == SumRole || role == ScaledSumRole
    requires NoDuplicates(rates) && forall c | c in rates :: IsRateColumn(c)
    ensures RateColumns(BaseDict(q, rates, role).names) == rates
  {
    var d := MeasureDict(q, role);
    MeasureDictNoRates(q, role);
    assert forall c | c in rates :: c !in d.names;
    PutAllFreshRates(d, rates);
    assert RateColumns(d.names) + rates == rates;
    assert BaseDict(q, rates, role) == PutAll(d, rates, RateRole);
  }

  lemma CntIsFresh(q: Query, rates: seq<string>)
    requires forall c | c in rates :: IsRateColumn(c)
    ensures "cnt" !in PlainDict(q, rates).specs && "rate" !in PlainDict(q, rates).specs
  {
    BaseDictSpecs(q, rates, SumRole, "cnt");
    BaseDictSpecs(q, rates, SumRole, "rate");
    NamesDiffer("", "");
  }

  /** Mode B's dictionary: the base dictionary and a `cnt` at the end. */
  lemma ModeBDictFacts(q: Query, rates: seq<string>, m: string)
    requires |q.avgCols| > 0
    requires NoDuplicates(rates) && forall c | c in rates :: IsRateColumn(c)
    ensures ModeBDict(q, rates).names == PlainDict(q, rates).names + ["cnt"]
    ensures RateColumns(ModeBDict(q, rates).names) == rates
    ensures "rate" !in ModeBDict(q, rates).names
    ensures m in ModeBDict(q, rates).specs <==> IsAvgName(q.avgCols, m) || IsSumName(q.sumCols, m) || m in rates || m == "cnt"
    ensures m != "cnt" && m in PlainDict(q, rates).specs ==> ModeBDict(q, rates).specs[m] == PlainDict(q, rates).specs[m]
    ensures ModeBDict(q, rates).specs["cnt"] == CntSpec(q)
  {
    var d := PlainDict(q, rates);
    CntIsFresh(q, rates);
    BaseDictRates(q, rates, SumRole);
    BaseDictSpecs(q, rates, SumRole, m);
    RateColumnsAppend(d.names, ["cnt"]);
    NamesDiffer("", "");
    assert RateColumns(["cnt"]) == [];
  }

  /** Mode C's dictionary: the `sum(...)` names and `cnt`, when no rate
      column's name starts with `sum`. */
  lemma ModeCDictFacts(q: Query, rates: seq<string>, m: string)
    requires |q.avgCols| > 0
    requires forall c | c in rates :: IsRateColumn(c) && !StartsWith(c, "sum")
    ensures m in ModeCDict(q, rates).specs <==> IsSumName(q.sumCols, m) || m == "cnt"
    ensures m != "cnt" && m in ModeCDict(q, rates).specs ==> ModeCDict(q, rates).specs[m] == PlainDict(q, rates).specs[m]
    ensures ModeCDict(q, rates).specs["cnt"] == CntSpec(q)
    ensures m in ModeCDict(q, rates).specs ==> !IsRateColumn(m) && m != "rate" && m !in rates
  {
    BaseDictSpecs(q, rates, SumRole, m);
    NamesDiffer("", "");
    NameClasses(q.avgCols, q.sumCols, m);
  }

  /** An `avg(...)` name never starts with `sum`, a `sum(...)` name always
      does, and neither is `cnt`, `rate` or a rate column. */
  lemma NameClasses(avgCols: seq<string>, sumCols: seq<string>, m: string)
    ensures IsAvgName(avgCols, m) ==> !StartsWith(m, "sum") && !IsRateColumn(m) && m != "rate" && m != "cnt"
    ensures IsSumName(sumCols, m) ==> StartsWith(m, "sum") && !IsRateColumn(m) && m != "rate" && m != "cnt"
  {
    if IsAvgName(avgCols, m) {
      var a :| a in avgCols && m == AvgName(a);
      NamesDiffer(a, a);
    }
    if IsSumName(sumCols, m) {
      var a :| a in sumCols && m == SumName(a);
      NamesDiffer(a, a);
    }
  }
}
