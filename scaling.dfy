/** Mode A's inverse-probability weighting of the joined sample: for every
    numeric column `c` of every table, `scale_c = c / rate`, where `rate` is
    the product of all columns ending in `_rate` at that moment. */
module Scaling {
  import opened Frames
  import opened Aggregation
  import opened Config

  /** `rate = 1; for col in join_result.columns: if col.endswith('_rate'): rate *= join_result[col]`,
      one value per row. */
  method CombinedRates(f: Frame) returns (rates: seq<real>)
    ensures |rates| == |f.rows|
    ensures forall i | 0 <= i < |f.rows| :: rates[i] == RateProduct(f.columns, f.rows[i])
  {
    rates := seq(|f.rows|, i => 1.0);
    for j := 0 to |f.columns|
      invariant |rates| == |f.rows|
      invariant forall i | 0 <= i < |f.rows| :: rates[i] == RateProduct(f.columns[..j], f.rows[i])
    {
      var c := f.columns[j];
      assert f.columns[..j + 1][..j] == f.columns[..j];
      var prev := rates;
      if IsRateColumn(c) {
        rates := seq(|prev|, i requires 0 <= i < |prev| => prev[i] * Val(f.rows[i], c));
      }
    }
    assert f.columns[..|f.columns|] == f.columns;
  }

  /** Every row's combined rate can be divided by. */
  predicate Scalable(f: Frame) {
    forall i | 0 <= i < |f.rows| :: RateProduct(f.columns, f.rows[i]) != 0.0
  }

  function ScaledValues(f: Frame, c: string): (vs: seq<real>)
    requires Scalable(f)
    ensures |vs| == |f.rows|
    ensures forall i | 0 <= i < |f.rows| :: vs[i] == Val(f.rows[i], c) / RateProduct(f.columns, f.rows[i])
  {
    seq(|f.rows|, i requires 0 <= i < |f.rows| => Val(f.rows[i], c) / RateProduct(f.columns, f.rows[i]))
  }

  /** `join_result['scale_' + c] = join_result[c] / rate`. Adding a column that
      is not a rate column leaves every row's combined rate as it was. */
  function AddScale(f: Frame, c: string): (g: Frame)
    requires Scalable(f) && !IsRateColumn(ScaleName(c))
    ensures |g.rows| == |f.rows| && Scalable(g)
    ensures forall i | 0 <= i < |f.rows| :: RateProduct(g.columns, g.rows[i]) == RateProduct(f.columns, f.rows[i])
    ensures forall i | 0 <= i < |f.rows| ::
              g.rows[i] == f.rows[i][ScaleName(c) := Val(f.rows[i], c) / RateProduct(f.columns, f.rows[i])]
    ensures g.columns == if ScaleName(c) in f.columns then f.columns else f.columns + [ScaleName(c)]
  {
    var g := SetColumn(f, ScaleName(c), ScaledValues(f, c));
    forall i | 0 <= i < |f.rows|
      ensures RateProduct(g.columns, g.rows[i]) == RateProduct(f.columns, f.rows[i])
    {
      RateProductDependsOnRates(f.columns, g.rows[i], f.rows[i]);
      if ScaleName(c) !in f.columns {
        RateProductIgnoresOthers(f.columns, [ScaleName(c)], g.rows[i]);
      }
    }
    g
  }

  /** No scale column of `cols` is a rate column. */
  predicate ScaleSafe(cols: seq<string>) {
    forall c | c in cols :: !IsRateColumn(ScaleName(c))
  }

  /** The scale columns of `cols`, added one after the other. */
  function AddScaleAll(f: Frame, cols: seq<string>): (g: Frame)
    requires Scalable(f) && ScaleSafe(cols)
    ensures |g.rows| == |f.rows| && Scalable(g)
    ensures forall i | 0 <= i < |f.rows| :: RateProduct(g.columns, g.rows[i]) == RateProduct(f.columns, f.rows[i])
  {
    if cols == [] then f
    else
      assert forall c | c in cols[..|cols| - 1] :: c in cols;
      AddScale(AddScaleAll(f, cols[..|cols| - 1]), cols[|cols| - 1])
  }

  lemma AddScaleAllSnoc(f: Frame, cols: seq<string>, c: string)
    requires Scalable(f) && ScaleSafe(cols + [c])
    ensures ScaleSafe(cols)
    ensures AddScaleAll(f, cols + [c]) == AddScale(AddScaleAll(f, cols), c)
  {
    assert forall x | x in cols :: x in cols + [c];
    assert (cols + [c])[..|cols|] == cols;
  }

  /** One more scale column of a prefix of `ncs`. */
  lemma AddScalePrefixStep(f: Frame, ncs: seq<string>, j: nat)
    requires Scalable(f) && ScaleSafe(ncs) && j < |ncs|
    ensures ScaleSafe(ncs[..j]) && ScaleSafe(ncs[..j + 1]) && !IsRateColumn(ScaleName(ncs[j]))
    ensures AddScaleAll(f, ncs[..j + 1]) == AddScale(AddScaleAll(f, ncs[..j]), ncs[j])
  {
    assert ncs[..j + 1] == ncs[..j] + [ncs[j]];
    assert forall x | x in ncs[..j + 1] :: x in ncs;
    AddScaleAllSnoc(f, ncs[..j], ncs[j]);
  }

  /** The loop body computes exactly `AddScale`. */
  lemma AddScaleWithRates(g: Frame, c: string, rates: seq<real>)
    requires Scalable(g) && !IsRateColumn(ScaleName(c))
    requires |rates| == |g.rows|
    requires forall k | 0 <= k < |g.rows| :: rates[k] == RateProduct(g.columns, g.rows[k])
    ensures SetColumn(g, ScaleName(c), seq(|rates|, k requires 0 <= k < |rates| => Val(g.rows[k], c) / rates[k]))
            == AddScale(g, c)
  {
    assert seq(|rates|, k requires 0 <= k < |rates| => Val(g.rows[k], c) / rates[k]) == ScaledValues(g, c);
  }

  lemma {:induction false} AddScaleAllAppend(f: Frame, a: seq<string>, b: seq<string>)
    requires Scalable(f) && ScaleSafe(a) && ScaleSafe(b)
    ensures ScaleSafe(a + b)
    ensures AddScaleAll(f, a + b) == AddScaleAll(AddScaleAll(f, a), b)
    decreases |b|
  {
    assert forall x | x in a + b :: x in a || x in b;
    if b == [] {
      assert a + b == a;
    } else {
      var b' := b[..|b| - 1];
      assert forall x | x in b' :: x in b;
      assert (a + b)[..|a + b| - 1] == a + b';
      AddScaleAllAppend(f, a, b');
    }
  }

  /** `for numeric_column in train_config['numeric_columns']:` with the rate
      recomputed from the current columns before every new scale column. */
  method AddScaleEach(f: Frame, ncs: seq<string>) returns (g: Frame)
    requires Scalable(f) && ScaleSafe(ncs)
    ensures g == AddScaleAll(f, ncs)
  {
    g := f;
    for j := 0 to |ncs|
      invariant ScaleSafe(ncs[..j])
      invariant g == AddScaleAll(f, ncs[..j])
    {
      AddScalePrefixStep(f, ncs, j);
      var rates := CombinedRates(g);
      AddScaleWithRates(g, ncs[j], rates);
      g := SetColumn(g, ScaleName(ncs[j]), seq(|rates|, k requires 0 <= k < |rates| => Val(g.rows[k], ncs[j]) / rates[k]));
    }
    assert ncs[..|ncs|] == ncs;
  }

  /** `for train_config in train_config_list:` around `AddScaleEach`. */
  method AddScaleColumns(f: Frame, configs: seq<TableConfig>) returns (g: Frame)
    requires Scalable(f) && ScaleSafe(AllNumeric(configs))
    ensures g == AddScaleAll(f, AllNumeric(configs))
  {
    g := f;
    for i := 0 to |configs|
      invariant ScaleSafe(AllNumeric(configs[..i]))
      invariant g == AddScaleAll(f, AllNumeric(configs[..i]))
    {
      var ncs := configs[i].numericColumns;
      AllNumericStep(configs, i);
      AllNumericPrefix(configs, i + 1);
      assert forall x | x in ncs :: x in AllNumeric(configs[..i + 1]);
      AddScaleAllAppend(f, AllNumeric(configs[..i]), ncs);
      g := AddScaleEach(g, ncs);
    }
    assert configs[..|configs|] == configs;
  }

  lemma {:induction false} AllNumericPrefix(configs: seq<TableConfig>, n: nat)
    requires n <= |configs| && ScaleSafe(AllNumeric(configs))
    ensures ScaleSafe(AllNumeric(configs[..n]))
    decreases |configs|
  {
    if n < |configs| {
      var front := configs[..|configs| - 1];
      assert configs[..n] == front[..n];
      assert forall c | c in AllNumeric(front) :: c in AllNumeric(configs);
      AllNumericPrefix(front, n);
    } else {
      assert configs[..n] == configs;
    }
  }

  lemma ScaleNameInjective(a: string, b: string)
    ensures ScaleName(a) == ScaleName(b) ==> a == b
  {
    if ScaleName(a) == ScaleName(b) {
      assert a == ScaleName(a)[6..] && b == ScaleName(b)[6..];
    }
  }

  /** A column that is no scale column of `cols` keeps its value. */
  lemma {:induction false} UnscaledValue(f: Frame, cols: seq<string>, i: nat, n: string)
    requires Scalable(f) && ScaleSafe(cols) && i < |f.rows|
    requires forall c | c in cols :: n != ScaleName(c)
    ensures Val(AddScaleAll(f, cols).rows[i], n) == Val(f.rows[i], n)
    decreases |cols|
  {
    if cols != [] {
      assert forall c | c in cols[..|cols| - 1] :: c in cols;
      UnscaledValue(f, cols[..|cols| - 1], i, n);
    }
  }

  /** After the loops, `scale_c` holds `c / rate` for every numeric column `c`,
      when no numeric column is another one's scale column. */
  lemma {:induction false} ScaledValue(f: Frame, cols: seq<string>, i: nat, c: string)
    requires Scalable(f) && ScaleSafe(cols) && i < |f.rows| && c in cols
    requires forall a, b | a in cols && b in cols :: a != ScaleName(b)
    ensures Val(AddScaleAll(f, cols).rows[i], ScaleName(c)) == Val(f.rows[i], c) / RateProduct(f.columns, f.rows[i])
    decreases |cols|
  {
    var front := cols[..|cols| - 1];
    var last := cols[|cols| - 1];
    assert forall x | x in front :: x in cols;
    if c == last {
      UnscaledValue(f, front, i, last);
    } else {
      assert c in front;
      ScaleNameInjective(c, last);
      ScaledValue(f, front, i, c);
    }
  }
}
