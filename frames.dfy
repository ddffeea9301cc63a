/** Tabular values shared by every part of the aggregation engine.

    A row maps column names to numbers; a frame is an ordered list of column
    names with its rows (a sample or a join result); a table is an aggregation
    result whose entries pair a group key (the index) with a row of outputs. */
module Frames {

  type Row = map<string, real>
  type Key = seq<real>

  datatype Frame = Frame(columns: seq<string>, rows: seq<Row>)
  datatype Entry = Entry(key: Key, row: Row)
  datatype Table = Table(columns: seq<string>, entries: seq<Entry>)

  predicate StartsWith(s: string, prefix: string) {
    |prefix| <= |s| && s[..|prefix|] == prefix
  }

  predicate EndsWith(s: string, suffix: string) {
    |suffix| <= |s| && s[|s| - |suffix|..] == suffix
  }

  /** Every inclusion-rate column is named `<table>_rate`. */
  predicate IsRateColumn(c: string) {
    EndsWith(c, "_rate")
  }

  /** The value of column `c` in row `r`; every caller has `c in r`. */
  function Val(r: Row, c: string): real {
    if c in r then r[c] else 0.0
  }

  function ColumnSet(cs: seq<string>): set<string> {
    set c | c in cs
  }

  predicate NoDuplicates<T(==)>(s: seq<T>) {
    forall i, j | 0 <= i < j < |s| :: s[i] != s[j]
  }

  /** Every row of the frame has exactly the frame's columns. */
  predicate ValidFrame(f: Frame) {
    forall r | r in f.rows :: r.Keys == ColumnSet(f.columns)
  }

  predicate ValidTable(t: Table) {
    forall e | e in t.entries :: e.row.Keys == ColumnSet(t.columns)
  }

  /** Every one of `cs` is a column of `f`: reading any of them cannot fail. */
  predicate HasColumns(f: Frame, cs: seq<string>) {
    forall c | c in cs :: c in f.columns
  }

  /** Every inclusion rate on every row is a positive probability. */
  predicate PositiveRates(f: Frame) {
    forall r, c | r in f.rows && c in f.columns && IsRateColumn(c) :: Val(r, c) > 0.0
  }

  // ---------------------------------------------------------------- sums

  function SumOf<T>(xs: seq<T>, f: T -> real): real {
    if xs == [] then 0.0 else SumOf(xs[..|xs| - 1], f) + f(xs[|xs| - 1])
  }

  function Sum(s: seq<real>): real {
    if s == [] then 0.0 else Sum(s[..|s| - 1]) + s[|s| - 1]
  }

  function Product(s: seq<real>): real {
    if s == [] then 1.0 else Product(s[..|s| - 1]) * s[|s| - 1]
  }

  function Mean(s: seq<real>): real
    requires |s| > 0
  {
    Sum(s) / (|s| as real)
  }

  /** The values of one column, in row order. */
  function ColumnValues(rows: seq<Row>, c: string): (vs: seq<real>)
    ensures |vs| == |rows|
    ensures forall i | 0 <= i < |rows| :: vs[i] == Val(rows[i], c)
  {
    seq(|rows|, i requires 0 <= i < |rows| => Val(rows[i], c))
  }

  function ValFn(c: string): Row -> real {
    r => Val(r, c)
  }

  function One<T>(): T -> real {
    x => 1.0
  }

  lemma SumOfSingle<T>(x: T, f: T -> real)
    ensures SumOf([x], f) == f(x)
  {
    assert [x][..0] == [];
  }

  lemma {:induction false} SumOfAppend<T>(xs: seq<T>, ys: seq<T>, f: T -> real)
    ensures SumOf(xs + ys, f) == SumOf(xs, f) + SumOf(ys, f)
    decreases |ys|
  {
    if ys == [] {
      assert xs + ys == xs;
    } else {
      var ys' := ys[..|ys| - 1];
      assert (xs + ys)[..|xs + ys| - 1] == xs + ys';
      SumOfAppend(xs, ys', f);
    }
  }

  lemma {:induction false} SumOfPointwise<T>(xs: seq<T>, f: T -> real, g: T -> real)
    requires forall x | x in xs :: f(x) == g(x)
    ensures SumOf(xs, f) == SumOf(xs, g)
    decreases |xs|
  {
    if xs != [] {
      SumOfPointwise(xs[..|xs| - 1], f, g);
    }
  }

  lemma {:induction false} SumOfDivide<T>(xs: seq<T>, f: T -> real, g: T -> real, d: real)
    requires d != 0.0
    requires forall x | x in xs :: g(x) == f(x) / d
    ensures SumOf(xs, g) == SumOf(xs, f) / d
    decreases |xs|
  {
    if xs != [] {
      SumOfDivide(xs[..|xs| - 1], f, g, d);
    }
  }

  lemma {:induction false} SumOfOne<T>(xs: seq<T>)
    ensures SumOf(xs, One<T>()) == |xs| as real
    decreases |xs|
  {
    if xs != [] {
      SumOfOne(xs[..|xs| - 1]);
    }
  }

  lemma {:induction false} SumOfValues(rows: seq<Row>, c: string)
    ensures Sum(ColumnValues(rows, c)) == SumOf(rows, ValFn(c))
    decreases |rows|
  {
    if rows != [] {
      var front := rows[..|rows| - 1];
      assert ColumnValues(rows, c)[..|rows| - 1] == ColumnValues(front, c);
      SumOfValues(front, c);
    }
  }

  lemma {:induction false} SumOfConstant(xs: seq<real>, v: real)
    requires forall x | x in xs :: x == v
    ensures Sum(xs) == (|xs| as real) * v
    decreases |xs|
  {
    if xs != [] {
      var front := xs[..|xs| - 1];
      assert forall x | x in front :: x in xs;
      SumOfConstant(front, v);
      assert xs[|xs| - 1] in xs;
    }
  }

  lemma {:induction false} SumOfConstantFn<T>(xs: seq<T>, f: T -> real, v: real)
    requires forall x | x in xs :: f(x) == v
    ensures SumOf(xs, f) == (|xs| as real) * v
    decreases |xs|
  {
    if xs != [] {
      assert forall x | x in xs[..|xs| - 1] :: x in xs;
      assert xs[|xs| - 1] in xs;
      SumOfConstantFn(xs[..|xs| - 1], f, v);
    }
  }

  lemma MeanOfConstant(xs: seq<real>, v: real)
    requires |xs| > 0
    requires forall x | x in xs :: x == v
    ensures Mean(xs) == v
  {
    SumOfConstant(xs, v);
  }

  // ------------------------------------------------------- rate products

  /** The product of the row's values in every column named `..._rate`,
      taken over `cols` in order: the combined inclusion probability. */
  function RateProduct(cols: seq<string>, r: Row): real {
    if cols == [] then 1.0 else RateProduct(cols[..|cols| - 1], r) * RateFactor(cols[|cols| - 1], r)
  }

  /** A rate column contributes its value; any other column contributes 1. */
  function RateFactor(c: string, r: Row): real {
    if IsRateColumn(c) then Val(r, c) else 1.0
  }

  lemma {:induction false} RateProductNonZero(cols: seq<string>, r: Row)
    requires forall c | c in cols && IsRateColumn(c) :: Val(r, c) != 0.0
    ensures RateProduct(cols, r) != 0.0
    decreases |cols|
  {
    if cols != [] {
      var front := cols[..|cols| - 1];
      assert forall c | c in front :: c in cols;
      RateProductNonZero(front, r);
      var last := cols[|cols| - 1];
      assert last in cols;
      assert RateFactor(last, r) != 0.0;
    }
  }

  lemma {:induction false} RateProductPositive(cols: seq<string>, r: Row)
    requires forall c | c in cols && IsRateColumn(c) :: Val(r, c) > 0.0
    ensures RateProduct(cols, r) > 0.0
    decreases |cols|
  {
    if cols != [] {
      var front := cols[..|cols| - 1];
      assert forall c | c in front :: c in cols;
      RateProductPositive(front, r);
      var last := cols[|cols| - 1];
      assert last in cols;
      assert RateFactor(last, r) > 0.0;
    }
  }

  lemma {:induction false} SumOfPositive<T>(xs: seq<T>, f: T -> real)
    requires |xs| > 0
    requires forall x | x in xs :: f(x) > 0.0
    ensures SumOf(xs, f) > 0.0
    decreases |xs|
  {
    var front := xs[..|xs| - 1];
    assert forall x | x in front :: x in xs;
    assert xs[|xs| - 1] in xs;
    if front != [] {
      SumOfPositive(front, f);
    }
  }

  lemma {:induction false} SumOfNonNegative<T>(xs: seq<T>, f: T -> real)
    requires forall x | x in xs :: f(x) >= 0.0
    ensures SumOf(xs, f) >= 0.0
    decreases |xs|
  {
    if xs != [] {
      assert forall x | x in xs[..|xs| - 1] :: x in xs;
      assert xs[|xs| - 1] in xs;
      SumOfNonNegative(xs[..|xs| - 1], f);
    }
  }

  /** The rate product reads only rate columns: rows agreeing on them agree on it. */
  lemma {:induction false} RateProductDependsOnRates(cols: seq<string>, r: Row, s: Row)
    requires forall c | c in cols && IsRateColumn(c) :: Val(r, c) == Val(s, c)
    ensures RateProduct(cols, r) == RateProduct(cols, s)
    decreases |cols|
  {
    if cols != [] {
      RateProductDependsOnRates(cols[..|cols| - 1], r, s);
    }
  }

  /** Columns that are not rate columns do not change the product. */
  lemma {:induction false} RateProductIgnoresOthers(cols: seq<string>, extra: seq<string>, r: Row)
    requires forall c | c in extra :: !IsRateColumn(c)
    ensures RateProduct(cols + extra, r) == RateProduct(cols, r)
    decreases |extra|
  {
    if extra == [] {
      assert cols + extra == cols;
    } else {
      var e' := extra[..|extra| - 1];
      assert (cols + extra)[..|cols + extra| - 1] == cols + e';
      RateProductIgnoresOthers(cols, e', r);
    }
  }

  /** When the rate columns, in order, are exactly `rates`, the rate product
      is the product of those columns' values. */
  function RateColumns(cols: seq<string>): seq<string> {
    if cols == [] then []
    else RateColumns(cols[..|cols| - 1]) + (if IsRateColumn(cols[|cols| - 1]) then [cols[|cols| - 1]] else [])
  }

  function ProductOf(cols: seq<string>, r: Row): real {
    if cols == [] then 1.0 else ProductOf(cols[..|cols| - 1], r) * Val(r, cols[|cols| - 1])
  }

  lemma {:induction false} RateProductIsProductOfRateColumns(cols: seq<string>, r: Row)
    ensures RateProduct(cols, r) == ProductOf(RateColumns(cols), r)
    decreases |cols|
  {
    if cols != [] {
      var front := cols[..|cols| - 1];
      var last := cols[|cols| - 1];
      RateProductIsProductOfRateColumns(front, r);
      if IsRateColumn(last) {
        var rs := RateColumns(front) + [last];
        assert rs[..|rs| - 1] == RateColumns(front);
      } else {
        assert RateColumns(front) + [] == RateColumns(front);
      }
    }
  }

  // ------------------------------------------------------ column updates

  /** `df[name] = vals`: overwrite the column if present, else append it. */
  function SetColumn(f: Frame, name: string, vals: seq<real>): (g: Frame)
    requires |vals| == |f.rows|
    ensures |g.rows| == |f.rows|
    ensures ColumnSet(g.columns) == ColumnSet(f.columns) + {name}
    ensures forall i | 0 <= i < |f.rows| :: g.rows[i] == f.rows[i][name := vals[i]]
  {
    Frame(if name in f.columns then f.columns else f.columns + [name],
          seq(|f.rows|, i requires 0 <= i < |f.rows| => f.rows[i][name := vals[i]]))
  }

  /** Applies `op` to every entry's row; keys are untouched. */
  function MapRows(t: Table, columns: seq<string>, op: Row -> Row): (u: Table)
    ensures u.columns == columns && |u.entries| == |t.entries|
    ensures forall i | 0 <= i < |t.entries| :: u.entries[i] == Entry(t.entries[i].key, op(t.entries[i].row))
  {
    Table(columns, seq(|t.entries|, i requires 0 <= i < |t.entries| => Entry(t.entries[i].key, op(t.entries[i].row))))
  }

  /** The columns of `cs` that do not satisfy `drop`, in order. */
  lemma {:induction false} KeepNoDuplicates(cs: seq<string>, drop: string -> bool)
    ensures NoDuplicates(cs) ==> NoDuplicates(Keep(cs, drop))
    decreases |cs|
  {
    if cs != [] && NoDuplicates(cs) {
      var front := cs[..|cs| - 1];
      assert NoDuplicates(front);
      KeepNoDuplicates(front, drop);
      assert cs[|cs| - 1] !in front;
    }
  }

  function Keep(cs: seq<string>, drop: string -> bool): (ks: seq<string>)
    ensures forall c :: c in ks <==> c in cs && !drop(c)
    ensures |ks| <= |cs|
  {
    if cs == [] then [] else Keep(cs[..|cs| - 1], drop) + (if drop(cs[|cs| - 1]) then [] else [cs[|cs| - 1]])
  }

  function RemoveColumns(r: Row, drop: string -> bool): (r': Row)
    ensures r'.Keys == set c | c in r.Keys && !drop(c)
    ensures forall c | c in r' :: r'[c] == r[c]
  {
    map c | c in r.Keys && !drop(c) :: r[c]
  }
}
