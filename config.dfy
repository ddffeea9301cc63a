/** The two configurations `sample_aggregation` reads: the query (which
    columns to sum, average, join on and group by) and one training
    configuration per table. */
module Config {
  import opened Frames

  datatype Option<T> = None | Some(value: T)

  datatype Query = Query(
    sumCols: seq<string>,
    avgCols: seq<string>,
    joinCols: seq<string>,
    groupbyCols: seq<string>)

  /** A table's training configuration; `outliers` is the optional string
      entry of the same name. */
  datatype TableConfig = TableConfig(name: string, numericColumns: seq<string>, outliers: Option<string>)

  /** `config['name'] + "_rate"`: the name of a table's inclusion-rate column. */
  function RateName(t: TableConfig): (c: string)
    ensures IsRateColumn(c)
  {
    assert (t.name + "_rate")[|t.name|..] == "_rate";
    t.name + "_rate"
  }

  /** `rate_cols`, one per table, in configuration order. */
  function RateCols(configs: seq<TableConfig>): (rs: seq<string>)
    ensures |rs| == |configs|
    ensures forall i | 0 <= i < |configs| :: rs[i] == RateName(configs[i])
    ensures forall c | c in rs :: IsRateColumn(c)
  {
    seq(|configs|, i requires 0 <= i < |configs| => RateName(configs[i]))
  }

  /** The outlier flag: set only by the string `'true'` under `outliers` in
      the first table's configuration. */
  predicate IsOutlier(configs: seq<TableConfig>)
    requires |configs| > 0
  {
    configs[0].outliers == Some("true")
  }

  /** Every table's numeric columns, table after table. */
  function AllNumeric(configs: seq<TableConfig>): seq<string> {
    if configs == [] then [] else AllNumeric(configs[..|configs| - 1]) + configs[|configs| - 1].numericColumns
  }

  lemma AllNumericStep(configs: seq<TableConfig>, i: nat)
    requires i < |configs|
    ensures AllNumeric(configs[..i + 1]) == AllNumeric(configs[..i]) + configs[i].numericColumns
  {
    assert configs[..i + 1][..i] == configs[..i];
  }
}
