/** The in-place column edits `sample_aggregation` applies to an aggregation
    result: `del`, `*=` into a `rate` column, `/=` by a rate, and derived
    `avg(c) = sum(c) / cnt` columns. Each edit is a vectorised pandas
    operation, so it is a function on the whole table; the loops over the
    columns that apply them are methods proved equal to a closed form. */
module Columns {
  import opened Frames
  import opened Grouping
  import opened Aggregation

  function InSet(s: set<string>): string -> bool {
    c => c in s
  }

  /** The rate columns among `cols`. */
  function RateSet(cols: seq<string>): (s: set<string>)
    ensures forall c :: c in s <==> c in cols && IsRateColumn(c)
  {
    set c | c in cols && IsRateColumn(c)
  }

  lemma RateSetStep(cols: seq<string>, i: nat)
    requires i < |cols|
    ensures RateSet(cols[..i + 1]) == if IsRateColumn(cols[i]) then RateSet(cols[..i]) + {cols[i]} else RateSet(cols[..i])
  {
    assert cols[..i + 1] == cols[..i] + [cols[i]];
  }

  /** `del t[c]` for every `c` in `s`. */
  function Drop(t: Table, s: set<string>): (u: Table)
    ensures u.columns == Keep(t.columns, InSet(s))
    ensures |u.entries| == |t.entries|
    ensures forall i | 0 <= i < |t.entries| :: u.entries[i] == Entry(t.entries[i].key, t.entries[i].row - s)
  {
    Table(Keep(t.columns, InSet(s)),
          seq(|t.entries|, i requires 0 <= i < |t.entries| => Entry(t.entries[i].key, t.entries[i].row - s)))
  }

  /** `del t[c]`. */
  function DeleteColumn(t: Table, c: string): Table {
    Drop(t, {c})
  }

  lemma {:induction false} KeepNone(cs: seq<string>)
    ensures Keep(cs, InSet({})) == cs
    decreases |cs|
  {
    if cs != [] {
      KeepNone(cs[..|cs| - 1]);
    }
  }

  lemma {:induction false} KeepTwice(cs: seq<string>, s: set<string>, c: string)
    ensures Keep(Keep(cs, InSet(s)), InSet({c})) == Keep(cs, InSet(s + {c}))
    decreases |cs|
  {
    if cs != [] {
      var front := cs[..|cs| - 1];
      var last := cs[|cs| - 1];
      KeepTwice(front, s, c);
      var k := Keep(front, InSet(s));
      if last !in s {
        assert (k + [last])[..|k + [last]| - 1] == k;
      } else {
        assert k + [] == k;
      }
    }
  }

  lemma DropNone(t: Table)
    ensures Drop(t, {}) == t
  {
    KeepNone(t.columns);
    forall i | 0 <= i < |t.entries|
      ensures Drop(t, {}).entries[i] == t.entries[i]
    {
      assert t.entries[i].row - {} == t.entries[i].row;
    }
  }

  lemma DropTwice(t: Table, s: set<string>, c: string)
    ensures Drop(Drop(t, s), {c}) == Drop(t, s + {c})
  {
    KeepTwice(t.columns, s, c);
    forall i | 0 <= i < |t.entries|
      ensures Drop(Drop(t, s), {c}).entries[i] == Drop(t, s + {c}).entries[i]
    {
      assert (t.entries[i].row - s) - {c} == t.entries[i].row - (s + {c});
    }
  }

  // ------------------------------------------------ deleting rate columns

  /** Mode A's cleanup: every column ending in `_rate` is deleted, and only those. */
  function DropRates(t: Table): (u: Table)
    ensures forall c :: c in u.columns <==> c in t.columns && !IsRateColumn(c)
    ensures |u.entries| == |t.entries|
    ensures forall i | 0 <= i < |u.entries| ::
              && u.entries[i].key == t.entries[i].key
              && (forall c :: c in u.entries[i].row <==> c in t.entries[i].row && !(c in t.columns && IsRateColumn(c)))
              && (forall c | c in u.entries[i].row :: u.entries[i].row[c] == t.entries[i].row[c])
  {
    Drop(t, RateSet(t.columns))
  }

  /** `for col in agg_result.columns: if col.endswith('_rate'): del agg_result[col]` */
  method DropRateColumns(t: Table) returns (u: Table)
    ensures u == DropRates(t)
  {
    var cols := t.columns;
    DropNone(t);
    assert RateSet(cols[..0]) == {};
    u := t;
    for i := 0 to |cols|
      invariant u == Drop(t, RateSet(cols[..i]))
    {
      RateSetStep(cols, i);
      if IsRateColumn(cols[i]) {
        DropTwice(t, RateSet(cols[..i]), cols[i]);
        u := DeleteColumn(u, cols[i]);
      }
    }
    assert cols[..|cols|] == cols;
  }

  // ------------------------------------------- collapsing rates into `rate`

  function MulRow(r: Row, target: string, c: string): Row {
    r[target := Val(r, target) * Val(r, c)]
  }

  /** `t[target] *= t[c]` */
  function MulInto(t: Table, target: string, c: string): (u: Table)
    ensures u.columns == t.columns && |u.entries| == |t.entries|
    ensures forall i | 0 <= i < |t.entries| :: u.entries[i] == Entry(t.entries[i].key, MulRow(t.entries[i].row, target, c))
  {
    Table(t.columns, seq(|t.entries|, i requires 0 <= i < |t.entries| => Entry(t.entries[i].key, MulRow(t.entries[i].row, target, c))))
  }

  /** `t['rate'] = 1` */
  function SetRateOne(t: Table): (u: Table)
    requires "rate" !in t.columns
    ensures u.columns == t.columns + ["rate"] && |u.entries| == |t.entries|
    ensures forall i | 0 <= i < |t.entries| :: u.entries[i] == Entry(t.entries[i].key, t.entries[i].row["rate" := 1.0])
  {
    Table(t.columns + ["rate"], seq(|t.entries|, i requires 0 <= i < |t.entries| =>
      Entry(t.entries[i].key, t.entries[i].row["rate" := 1.0])))
  }

  /** A row after the rate columns among `done` were multiplied into `rate`
      and deleted. */
  function CollapsedRow(r: Row, done: seq<string>): Row {
    (r - RateSet(done))["rate" := RateProduct(done, r)]
  }

  lemma MulRowOf(r: Row, target: string, c: string, p: real, v: real)
    requires Val(r, target) == p && Val(r, c) == v
    ensures MulRow(r, target, c) == r[target := p * v]
  {
  }

  lemma CollapsedRowStep(r: Row, done: seq<string>, c: string)
    requires c !in done && c != "rate"
    ensures IsRateColumn(c) ==> CollapsedRow(r, done + [c]) == MulRow(CollapsedRow(r, done), "rate", c) - {c}
    ensures !IsRateColumn(c) ==> CollapsedRow(r, done + [c]) == CollapsedRow(r, done)
  {
    assert (done + [c])[..|done + [c]| - 1] == done;
    var p := RateProduct(done, r);
    var cr := CollapsedRow(r, done);
    if IsRateColumn(c) {
      var v := Val(r, c);
      var s := RateSet(done) + {c};
      assert RateSet(done + [c]) == s;
      assert RateProduct(done + [c], r) == p * v;
      MulRowOf(cr, "rate", c, p, v);
      assert (r - s)["rate" := p * v] == (cr["rate" := p * v]) - {c};
    } else {
      assert RateSet(done + [c]) == RateSet(done);
    }
  }

  /** Modes B and C: after `t['rate'] = 1` and the loop, the rate columns are
      gone and `rate` holds the product of the row's rates, in column order. */
  function CollapseRates(t: Table): (u: Table)
    requires "rate" !in t.columns
    ensures forall c :: c in u.columns <==> (c in t.columns && !IsRateColumn(c)) || c == "rate"
    ensures NoDuplicates(t.columns) ==> NoDuplicates(u.columns)
    ensures |u.entries| == |t.entries|
    ensures forall i | 0 <= i < |u.entries| ::
              && u.entries[i].key == t.entries[i].key
              && "rate" in u.entries[i].row && u.entries[i].row["rate"] == RateProduct(t.columns, t.entries[i].row)
              && (forall c | c != "rate" :: c in u.entries[i].row <==> c in t.entries[i].row && !(c in t.columns && IsRateColumn(c)))
              && (forall c | c != "rate" && c in u.entries[i].row :: u.entries[i].row[c] == t.entries[i].row[c])
  {
    KeepNoDuplicates(t.columns, InSet(RateSet(t.columns)));
    Table(Keep(t.columns, InSet(RateSet(t.columns))) + ["rate"],
          seq(|t.entries|, i requires 0 <= i < |t.entries| =>
            Entry(t.entries[i].key, (t.entries[i].row - RateSet(t.columns))["rate" := RateProduct(t.columns, t.entries[i].row)])))
  }

  /** The table after the rate columns among `done` were multiplied into
      `rate` and deleted. */
  function CollapsedTable(t: Table, done: seq<string>): (u: Table)
    ensures u.columns == Keep(t.columns, InSet(RateSet(done))) && |u.entries| == |t.entries|
    ensures forall k | 0 <= k < |t.entries| :: u.entries[k] == Entry(t.entries[k].key, CollapsedRow(t.entries[k].row, done))
  {
    Table(Keep(t.columns, InSet(RateSet(done))),
          seq(|t.entries|, k requires 0 <= k < |t.entries| => Entry(t.entries[k].key, CollapsedRow(t.entries[k].row, done))))
  }

  /** Collapsing the rate columns leaves every other cell of an entry as it was. */
  lemma CollapsedKeeps(t: Table, m: nat, n: string)
    requires "rate" !in t.columns && m < |t.entries|
    requires n != "rate" && !IsRateColumn(n) && n in t.entries[m].row
    ensures m < |CollapseRates(t).entries|
    ensures n in CollapseRates(t).entries[m].row && CollapseRates(t).entries[m].row[n] == t.entries[m].row[n]
  {
  }

  lemma CollapsedTableStart(t: Table)
    requires forall k | 0 <= k < |t.entries| :: "rate" in t.entries[k].row && t.entries[k].row["rate"] == 1.0
    ensures CollapsedTable(t, []) == t
  {
    KeepNone(t.columns);
    assert RateSet([]) == {};
    forall k | 0 <= k < |t.entries|
      ensures CollapsedRow(t.entries[k].row, []) == t.entries[k].row
    {
      assert t.entries[k].row - {} == t.entries[k].row;
    }
  }

  lemma CollapsedTableStep(t: Table, done: seq<string>, c: string)
    requires c !in done && c != "rate"
    ensures IsRateColumn(c) ==> CollapsedTable(t, done + [c]) == DeleteColumn(MulInto(CollapsedTable(t, done), "rate", c), c)
    ensures !IsRateColumn(c) ==> CollapsedTable(t, done + [c]) == CollapsedTable(t, done)
  {
    if IsRateColumn(c) {
      assert RateSet(done + [c]) == RateSet(done) + {c};
      KeepTwice(t.columns, RateSet(done), c);
    } else {
      assert RateSet(done + [c]) == RateSet(done);
    }
    forall k | 0 <= k < |t.entries|
      ensures IsRateColumn(c) ==> CollapsedRow(t.entries[k].row, done + [c]) == MulRow(CollapsedRow(t.entries[k].row, done), "rate", c) - {c}
      ensures !IsRateColumn(c) ==> CollapsedRow(t.entries[k].row, done + [c]) == CollapsedRow(t.entries[k].row, done)
    {
      CollapsedRowStep(t.entries[k].row, done, c);
    }
  }

  lemma CollapsedTableEnd(t: Table)
    requires "rate" !in t.columns
    ensures CollapsedTable(SetRateOne(t), t.columns + ["rate"]) == CollapseRates(t)
  {
    var cols := t.columns + ["rate"];
    assert !IsRateColumn("rate");
    assert RateSet(cols) == RateSet(t.columns);
    assert cols[..|cols| - 1] == t.columns;
    forall k | 0 <= k < |t.entries|
      ensures CollapsedTable(SetRateOne(t), cols).entries[k] == CollapseRates(t).entries[k]
    {
      CollapsedRowEnd(t.entries[k].row, t.columns);
    }
  }

  /** A row with `rate = 1` appended, collapsed over all its columns. */
  lemma CollapsedRowEnd(r: Row, cols: seq<string>)
    requires "rate" !in cols
    ensures CollapsedRow(r["rate" := 1.0], cols + ["rate"]) == (r - RateSet(cols))["rate" := RateProduct(cols, r)]
  {
    var r1 := r["rate" := 1.0];
    assert !IsRateColumn("rate");
    assert RateSet(cols + ["rate"]) == RateSet(cols);
    RateProductWithRate(cols, r);
    assert (r1 - RateSet(cols))["rate" := RateProduct(cols, r)] == (r - RateSet(cols))["rate" := RateProduct(cols, r)];
  }

  /** Appending `rate = 1` leaves a row's combined rate as it was. */
  lemma RateProductWithRate(cols: seq<string>, r: Row)
    requires "rate" !in cols
    ensures RateProduct(cols + ["rate"], r["rate" := 1.0]) == RateProduct(cols, r)
  {
    var cs := cols + ["rate"];
    var r1 := r["rate" := 1.0];
    assert cs[..|cs| - 1] == cols;
    assert !IsRateColumn("rate");
    assert RateFactor("rate", r1) == 1.0;
    RateProductDependsOnRates(cols, r1, r);
  }

  /** `agg_result['rate'] = 1`, then for every rate column: `agg_result['rate'] *= agg_result[col]`
      and `del agg_result[col]`. */
  method CollapseRateColumns(t: Table) returns (u: Table)
    requires NoDuplicates(t.columns) && "rate" !in t.columns
    ensures u == CollapseRates(t)
  {
    var start := SetRateOne(t);
    var cols := start.columns;
    CollapsedTableStart(start);
    u := start;
    for i := 0 to |cols|
      invariant u == CollapsedTable(start, cols[..i])
    {
      var c := cols[i];
      assert cols[..i + 1] == cols[..i] + [c];
      assert c !in cols[..i];
      if IsRateColumn(c) {
        assert c != "rate";
        CollapsedTableStep(start, cols[..i], c);
        u := MulInto(u, "rate", c);
        u := DeleteColumn(u, c);
      } else if c != "rate" {
        CollapsedTableStep(start, cols[..i], c);
      } else {
        assert i == |cols| - 1 && cols[..i + 1] == cols;
        assert RateSet(cols[..i + 1]) == RateSet(cols[..i]);
        assert CollapsedTable(start, cols[..i + 1]) == u by {
          forall k | 0 <= k < |start.entries|
            ensures CollapsedRow(start.entries[k].row, cols[..i + 1]) == CollapsedRow(start.entries[k].row, cols[..i])
          {
            assert RateProduct(cols[..i + 1], start.entries[k].row) == RateProduct(cols[..i], start.entries[k].row) * RateFactor(c, start.entries[k].row);
          }
        }
      }
    }
    assert cols[..|cols|] == cols;
    CollapsedTableEnd(t);
  }

  // --------------------------------------------------- dividing by a rate

  /** The columns the correction loops divide: names starting with `sum`,
      and `cnt` where the path keeps a count. */
  predicate Selected(c: string, withCnt: bool) {
    StartsWith(c, "sum") || (withCnt && c == "cnt")
  }

  function UnselectedFn(withCnt: bool): string -> bool {
    c => !Selected(c, withCnt)
  }

  predicate NonZeroIn(t: Table, c: string) {
    forall k | 0 <= k < |t.entries| :: Val(t.entries[k].row, c) != 0.0
  }

  function DivRow(r: Row, c: string, divisor: string): Row
    requires Val(r, divisor) != 0.0
  {
    if c in r then r[c := r[c] / Val(r, divisor)] else r
  }

  /** `t[c] /= t[divisor]` */
  function DivColumn(t: Table, c: string, divisor: string): (u: Table)
    requires NonZeroIn(t, divisor)
    ensures u.columns == t.columns && |u.entries| == |t.entries|
    ensures forall k | 0 <= k < |t.entries| :: u.entries[k] == Entry(t.entries[k].key, DivRow(t.entries[k].row, c, divisor))
    ensures NonZeroIn(u, divisor)
  {
    Table(t.columns, seq(|t.entries|, k requires 0 <= k < |t.entries| =>
      Entry(t.entries[k].key, DivRow(t.entries[k].row, c, divisor))))
  }

  /** `for col in cols: if Selected(col): t[col] /= t[divisor]`, one column after
      the other (a divisor that is itself selected becomes 1 on the way). */
  function DivideAll(t: Table, cols: seq<string>, withCnt: bool, divisor: string): (u: Table)
    requires NonZeroIn(t, divisor)
    ensures u.columns == t.columns && |u.entries| == |t.entries|
    ensures forall k | 0 <= k < |t.entries| :: u.entries[k].key == t.entries[k].key
    ensures NonZeroIn(u, divisor)
  {
    if cols == [] then t
    else
      var u := DivideAll(t, cols[..|cols| - 1], withCnt, divisor);
      if Selected(cols[|cols| - 1], withCnt) then DivColumn(u, cols[|cols| - 1], divisor) else u
  }

  /** A row whose selected columns among `cols` were divided by `divisor`. */
  function DividedRow(r: Row, cols: seq<string>, withCnt: bool, divisor: string): (r': Row)
    requires Val(r, divisor) != 0.0
    ensures r'.Keys == r.Keys
  {
    map c | c in r :: if c in cols && Selected(c, withCnt) then r[c] / Val(r, divisor) else r[c]
  }

  /** One more column divided in a row whose divisor is never divided. */
  lemma DividedRowStep(r: Row, front: seq<string>, c: string, withCnt: bool, divisor: string)
    requires Val(r, divisor) != 0.0 && !Selected(divisor, withCnt) && c !in front
    ensures Val(DividedRow(r, front, withCnt, divisor), divisor) == Val(r, divisor)
    ensures (if Selected(c, withCnt) then DivRow(DividedRow(r, front, withCnt, divisor), c, divisor)
             else DividedRow(r, front, withCnt, divisor))
            == DividedRow(r, front + [c], withCnt, divisor)
  {
    var d := DividedRow(r, front, withCnt, divisor);
    assert Val(d, divisor) == Val(r, divisor);
    if Selected(c, withCnt) && c in r {
      assert d[c] == r[c];
    }
  }

  /** When the divisor is not itself divided, the loop divides every selected
      column once by the row's original divisor and leaves the rest alone. */
  lemma {:induction false} DivideAllClosed(t: Table, cols: seq<string>, withCnt: bool, divisor: string)
    requires NonZeroIn(t, divisor) && !Selected(divisor, withCnt) && NoDuplicates(cols)
    ensures forall k | 0 <= k < |t.entries| ::
              DivideAll(t, cols, withCnt, divisor).entries[k].row == DividedRow(t.entries[k].row, cols, withCnt, divisor)
    decreases |cols|
  {
    if cols == [] {
      forall k | 0 <= k < |t.entries|
        ensures t.entries[k].row == DividedRow(t.entries[k].row, cols, withCnt, divisor)
      {
      }
    } else {
      var front := cols[..|cols| - 1];
      var c := cols[|cols| - 1];
      assert cols == front + [c];
      assert NoDuplicates(front);
      assert c !in front;
      DivideAllClosed(t, front, withCnt, divisor);
      forall k | 0 <= k < |t.entries|
        ensures DivideAll(t, cols, withCnt, divisor).entries[k].row == DividedRow(t.entries[k].row, cols, withCnt, divisor)
      {
        DividedRowStep(t.entries[k].row, front, c, withCnt, divisor);
      }
    }
  }

  /** After the division loop a selected column holds its value over the
      row's divisor. */
  lemma DividedValue(t: Table, withCnt: bool, divisor: string, k: nat, n: string)
    requires NonZeroIn(t, divisor) && !Selected(divisor, withCnt) && NoDuplicates(t.columns)
    requires k < |t.entries| && n in t.columns && n in t.entries[k].row && Selected(n, withCnt)
    ensures k < |DivideAll(t, t.columns, withCnt, divisor).entries|
    ensures Val(DivideAll(t, t.columns, withCnt, divisor).entries[k].row, n)
            == t.entries[k].row[n] / Val(t.entries[k].row, divisor)
  {
    DivideAllClosed(t, t.columns, withCnt, divisor);
  }

  /** Dividing by a column and then deleting it leaves every selected column
      divided by the entry's divisor. */
  lemma DeletedDividedValue(t: Table, withCnt: bool, divisor: string, k: nat, n: string)
    requires NonZeroIn(t, divisor) && !Selected(divisor, withCnt) && NoDuplicates(t.columns)
    requires k < |t.entries| && n in t.columns && n in t.entries[k].row && Selected(n, withCnt)
    ensures k < |DeleteColumn(DivideAll(t, t.columns, withCnt, divisor), divisor).entries|
    ensures Val(DeleteColumn(DivideAll(t, t.columns, withCnt, divisor), divisor).entries[k].row, n)
            == t.entries[k].row[n] / Val(t.entries[k].row, divisor)
  {
    DividedValue(t, withCnt, divisor, k, n);
  }

  /** ... and every other column but the divisor as it was. */
  lemma DeletedKeptValue(t: Table, withCnt: bool, divisor: string, k: nat, n: string)
    requires NonZeroIn(t, divisor) && !Selected(divisor, withCnt) && NoDuplicates(t.columns)
    requires k < |t.entries| && n in t.entries[k].row && !Selected(n, withCnt) && n != divisor
    ensures k < |DeleteColumn(DivideAll(t, t.columns, withCnt, divisor), divisor).entries|
    ensures n in DeleteColumn(DivideAll(t, t.columns, withCnt, divisor), divisor).entries[k].row
    ensures DeleteColumn(DivideAll(t, t.columns, withCnt, divisor), divisor).entries[k].row[n] == t.entries[k].row[n]
  {
    DivideAllClosed(t, t.columns, withCnt, divisor);
  }

  /** The selected columns of `cols`, in order. */
  function Chosen(cols: seq<string>, withCnt: bool): seq<string> {
    Keep(cols, UnselectedFn(withCnt))
  }

  /** `for col in agg_result.columns: if col.startswith('sum') [or col == 'cnt']:
      agg_result[col] /= agg_result[divisor]` */
  method DivideColumns(t: Table, withCnt: bool, divisor: string) returns (u: Table)
    requires NonZeroIn(t, divisor)
    ensures u == DivideAll(t, t.columns, withCnt, divisor)
  {
    var cols := t.columns;
    u := t;
    for i := 0 to |cols|
      invariant u == DivideAll(t, cols[..i], withCnt, divisor)
    {
      assert cols[..i + 1][..i] == cols[..i];
      if Selected(cols[i], withCnt) {
        u := DivColumn(u, cols[i], divisor);
      }
    }
    assert cols[..|cols|] == cols;
  }

  lemma DivideAllStep(t: Table, cols: seq<string>, i: nat, withCnt: bool, divisor: string)
    requires NonZeroIn(t, divisor) && i < |cols|
    ensures DivideAll(t, cols[..i + 1], withCnt, divisor)
            == if Selected(cols[i], withCnt) then DivColumn(DivideAll(t, cols[..i], withCnt, divisor), cols[i], divisor)
               else DivideAll(t, cols[..i], withCnt, divisor)
  {
    assert cols[..i + 1][..i] == cols[..i];
  }

  lemma ChosenStep(cols: seq<string>, i: nat, withCnt: bool)
    requires i < |cols|
    ensures Chosen(cols[..i + 1], withCnt) == Chosen(cols[..i], withCnt) + (if Selected(cols[i], withCnt) then [cols[i]] else [])
  {
    assert cols[..i + 1][..i] == cols[..i];
  }

  lemma PutAllSnoc(d: AggDict, xs: seq<string>, c: string, role: Role)
    requires WellFormed(d)
    ensures PutAll(d, xs + [c], role) == Put(PutAll(d, xs, role), RoleName(role, c), RoleSpec(role, c))
  {
    assert (xs + [c])[..|xs|] == xs;
  }

  lemma CollectStep(cols: seq<string>, i: nat)
    requires i < |cols|
    ensures PutAll(EmptyDict, Chosen(cols[..i + 1], true), TotalRole)
            == if Selected(cols[i], true) then Put(PutAll(EmptyDict, Chosen(cols[..i], true), TotalRole), cols[i], AggSpec(cols[i], Total))
               else PutAll(EmptyDict, Chosen(cols[..i], true), TotalRole)
  {
    var a := Chosen(cols[..i], true);
    var b := Chosen(cols[..i + 1], true);
    ChosenStep(cols, i, true);
    if Selected(cols[i], true) {
      assert b == a + [cols[i]];
      PutAllSnoc(EmptyDict, a, cols[i], TotalRole);
      assert RoleName(TotalRole, cols[i]) == cols[i] && RoleSpec(TotalRole, cols[i]) == AggSpec(cols[i], Total);
    } else {
      assert b == a + [] == a;
    }
  }

  lemma ResumIsPutAll(cols: seq<string>)
    ensures Resum(cols) == PutAll(EmptyDict, Chosen(cols, true), TotalRole)
  {
  }

  /** Mode B's version of the loop, which also records `f_aggregations[col] =
      (col, 'sum')` for every divided column. */
  method DivideAndCollect(t: Table) returns (u: Table, f: AggDict)
    requires NonZeroIn(t, "rate")
    ensures u == DivideAll(t, t.columns, true, "rate")
    ensures f == Resum(t.columns)
  {
    var cols := t.columns;
    u := t;
    f := EmptyDict;
    for i := 0 to |cols|
      invariant u == DivideAll(t, cols[..i], true, "rate")
      invariant f == PutAll(EmptyDict, Chosen(cols[..i], true), TotalRole)
    {
      DivideAllStep(t, cols, i, true, "rate");
      CollectStep(cols, i);
      if Selected(cols[i], true) {
        u := DivColumn(u, cols[i], "rate");
        f := Put(f, cols[i], AggSpec(cols[i], Total));
      }
    }
    assert cols[..|cols|] == cols;
    ResumIsPutAll(cols);
  }

  /** `f_aggregations` sums every divided column under its own name. */
  function Resum(cols: seq<string>): (f: AggDict)
    ensures WellFormed(f)
    ensures forall n :: n in f.specs <==> n in cols && Selected(n, true)
    ensures forall n | n in f.specs :: f.specs[n] == AggSpec(n, Total)
  {
    var f := PutAll(EmptyDict, Chosen(cols, true), TotalRole);
    forall n
      ensures n in f.specs <==> n in cols && Selected(n, true)
      ensures n in f.specs ==> f.specs[n] == AggSpec(n, Total)
    {
      PutAllNames(EmptyDict, Chosen(cols, true), TotalRole, n);
      PutAllStores(EmptyDict, Chosen(cols, true), TotalRole, n);
      assert RoleName(TotalRole, n) == n;
    }
    f
  }

  // ------------------------------------------------ derived average columns

  lemma NamesDiffer(a: string, b: string)
    ensures AvgName(a) != SumName(b) && AvgName(a) != "cnt" && AvgName(a) != "rate"
    ensures SumName(b) != "cnt" && SumName(b) != "rate"
    ensures StartsWith(SumName(b), "sum") && !StartsWith(AvgName(a), "sum")
    ensures !IsRateColumn(AvgName(a)) && !IsRateColumn(SumName(b))
    ensures !StartsWith("cnt", "sum") && !StartsWith("rate", "sum") && !IsRateColumn("cnt") && !IsRateColumn("rate")
  {
    assert AvgName(a)[0] == 'a' && SumName(b)[0] == 's';
    assert AvgName(a)[|AvgName(a)| - 1] == ')' && SumName(b)[|SumName(b)| - 1] == ')';
    assert SumName(b)[..3] == "sum";
    assert "_rate"[4] == 'e';
  }

  lemma AvgNameInjective(a: string, b: string)
    ensures AvgName(a) == AvgName(b) ==> a == b
  {
    if AvgName(a) == AvgName(b) {
      assert a == AvgName(a)[4..|AvgName(a)| - 1];
      assert b == AvgName(b)[4..|AvgName(b)| - 1];
    }
  }

  lemma SumNameInjective(a: string, b: string)
    ensures SumName(a) == SumName(b) ==> a == b
  {
    if SumName(a) == SumName(b) {
      assert a == SumName(a)[4..|SumName(a)| - 1];
      assert b == SumName(b)[4..|SumName(b)| - 1];
    }
  }

  function DeriveRow(r: Row, c: string): Row
    requires Val(r, "cnt") != 0.0
  {
    r[AvgName(c) := Val(r, SumName(c)) / Val(r, "cnt")]
  }

  /** `t['avg(c)'] = t['sum(c)'] / t['cnt']` */
  function DeriveOne(t: Table, c: string): (u: Table)
    requires NonZeroIn(t, "cnt")
    ensures u.columns == if AvgName(c) in t.columns then t.columns else t.columns + [AvgName(c)]
    ensures |u.entries| == |t.entries|
    ensures forall k | 0 <= k < |t.entries| :: u.entries[k] == Entry(t.entries[k].key, DeriveRow(t.entries[k].row, c))
    ensures NonZeroIn(u, "cnt")
  {
    NamesDiffer(c, c);
    Table(if AvgName(c) in t.columns then t.columns else t.columns + [AvgName(c)],
          seq(|t.entries|, k requires 0 <= k < |t.entries| => Entry(t.entries[k].key, DeriveRow(t.entries[k].row, c))))
  }

  /** `for c in avg_cols: t['avg(c)'] = t['sum(c)'] / t['cnt']` */
  function DeriveAll(t: Table, cols: seq<string>): (u: Table)
    requires NonZeroIn(t, "cnt")
    ensures |u.entries| == |t.entries| && NonZeroIn(u, "cnt")
    ensures forall k | 0 <= k < |t.entries| :: u.entries[k].key == t.entries[k].key
    ensures forall n :: n in u.columns <==> n in t.columns || exists c | c in cols :: n == AvgName(c)
  {
    if cols == [] then t
    else DeriveOne(DeriveAll(t, cols[..|cols| - 1]), cols[|cols| - 1])
  }

  method DeriveAverages(t: Table, cols: seq<string>) returns (u: Table)
    requires NonZeroIn(t, "cnt")
    ensures u == DeriveAll(t, cols)
  {
    u := t;
    for i := 0 to |cols|
      invariant u == DeriveAll(t, cols[..i])
    {
      assert cols[..i + 1][..i] == cols[..i];
      u := DeriveOne(u, cols[i]);
    }
    assert cols[..|cols|] == cols;
  }

  /** Every derived column holds its sum over the count: sums and the count
      are never overwritten on the way. */
  lemma {:induction false} DeriveAllValue(t: Table, cols: seq<string>, k: nat, c: string)
    requires NonZeroIn(t, "cnt") && k < |t.entries| && c in cols
    ensures AvgName(c) in DeriveAll(t, cols).entries[k].row
    ensures DeriveAll(t, cols).entries[k].row[AvgName(c)]
            == Val(t.entries[k].row, SumName(c)) / Val(t.entries[k].row, "cnt")
    decreases |cols|
  {
    var front := cols[..|cols| - 1];
    var last := cols[|cols| - 1];
    var m := DeriveAll(t, front).entries[k].row;
    NamesDiffer(last, last);
    if c == last {
      DeriveAllKeeps(t, front, k, "cnt");
      DeriveAllKeeps(t, front, k, SumName(last));
    } else {
      assert c in front;
      AvgNameInjective(c, last);
      DeriveAllValue(t, front, k, c);
    }
  }

  /** Every column that is not a derived one keeps its value. */
  lemma {:induction false} DeriveAllKeeps(t: Table, cols: seq<string>, k: nat, n: string)
    requires NonZeroIn(t, "cnt") && k < |t.entries|
    requires forall c | c in cols :: n != AvgName(c)
    ensures Val(DeriveAll(t, cols).entries[k].row, n) == Val(t.entries[k].row, n)
    ensures n in DeriveAll(t, cols).entries[k].row <==> n in t.entries[k].row
    decreases |cols|
  {
    if cols != [] {
      var front := cols[..|cols| - 1];
      assert forall c | c in front :: c in cols;
      DeriveAllKeeps(t, front, k, n);
    }
  }

  /** Sum columns and the count are never derived columns. */
  lemma DeriveAllKeepsInputs(t: Table, cols: seq<string>, k: nat, c: string)
    requires NonZeroIn(t, "cnt") && k < |t.entries|
    ensures Val(DeriveAll(t, cols).entries[k].row, SumName(c)) == Val(t.entries[k].row, SumName(c))
    ensures Val(DeriveAll(t, cols).entries[k].row, "cnt") == Val(t.entries[k].row, "cnt")
  {
    forall a | a in cols
      ensures SumName(c) != AvgName(a) && "cnt" != AvgName(a)
    {
      NamesDiffer(a, c);
    }
    DeriveAllKeeps(t, cols, k, SumName(c));
    DeriveAllKeeps(t, cols, k, "cnt");
  }

  // ------------------------------------- deriving averages, dropping `cnt`

  /** The last two steps of Modes B and C: derive every average, then
      `del t['cnt']`. */
  function Finish(t: Table, avgCols: seq<string>): Table
    requires NonZeroIn(t, "cnt")
  {
    DeleteColumn(DeriveAll(t, avgCols), "cnt")
  }

  lemma FinishShape(t: Table, avgCols: seq<string>)
    requires NonZeroIn(t, "cnt")
    ensures |Finish(t, avgCols).entries| == |t.entries|
    ensures forall k | 0 <= k < |t.entries| :: Finish(t, avgCols).entries[k].key == t.entries[k].key
    ensures forall n :: n in Finish(t, avgCols).columns <==>
              n != "cnt" && (n in t.columns || exists c | c in avgCols :: n == AvgName(c))
  {
  }

  /** A `sum(...)` column reaches the result unchanged. */
  lemma FinishKeepsSum(t: Table, avgCols: seq<string>, k: nat, c: string)
    requires NonZeroIn(t, "cnt") && k < |t.entries| && SumName(c) in t.entries[k].row
    ensures k < |Finish(t, avgCols).entries|
    ensures SumName(c) in Finish(t, avgCols).entries[k].row
    ensures Finish(t, avgCols).entries[k].row[SumName(c)] == t.entries[k].row[SumName(c)]
  {
    NamesDiffer(c, c);
    forall a | a in avgCols
      ensures SumName(c) != AvgName(a)
    {
      NamesDiffer(a, c);
    }
    DeriveAllKeeps(t, avgCols, k, SumName(c));
  }

  /** An average is its sum over the count. */
  lemma FinishDerivesMean(t: Table, avgCols: seq<string>, k: nat, c: string)
    requires NonZeroIn(t, "cnt") && k < |t.entries| && c in avgCols
    ensures k < |Finish(t, avgCols).entries|
    ensures AvgName(c) in Finish(t, avgCols).entries[k].row
    ensures Finish(t, avgCols).entries[k].row[AvgName(c)]
            == Val(t.entries[k].row, SumName(c)) / Val(t.entries[k].row, "cnt")
  {
    NamesDiffer(c, c);
    DeriveAllValue(t, avgCols, k, c);
  }

  /** The finished `avg(c)` of an entry, given its `sum(c)` and `cnt`. */
  lemma FinishMean(t: Table, avgCols: seq<string>, k: nat, c: string, total: real, count: real)
    requires NonZeroIn(t, "cnt") && k < |t.entries| && c in avgCols
    requires Val(t.entries[k].row, SumName(c)) == total && Val(t.entries[k].row, "cnt") == count
    ensures count != 0.0
    ensures k < |Finish(t, avgCols).entries|
    ensures AvgName(c) in Finish(t, avgCols).entries[k].row
    ensures Finish(t, avgCols).entries[k].row[AvgName(c)] == total / count
  {
    FinishDerivesMean(t, avgCols, k, c);
  }

  // ---------------------------------------- Mode C: reset_index and sum()

  function KeyAt(k: Key, j: nat): real {
    if j < |k| then k[j] else 0.0
  }

  /** The index levels `names` of key `k` as columns. */
  function KeyRow(names: seq<string>, k: Key): (r: Row)
    ensures r.Keys == ColumnSet(names)
  {
    if names == [] then map[]
    else KeyRow(names[..|names| - 1], k)[names[|names| - 1] := KeyAt(k, |names| - 1)]
  }

  lemma {:induction false} KeyRowAt(names: seq<string>, k: Key, j: nat)
    requires NoDuplicates(names) && j < |names|
    ensures KeyRow(names, k)[names[j]] == KeyAt(k, j)
    decreases |names|
  {
    if j < |names| - 1 {
      assert NoDuplicates(names[..|names| - 1]);
      KeyRowAt(names[..|names| - 1], k, j);
    }
  }

  /** `t.reset_index()`: the index levels become the first columns and the
      index becomes the row number. */
  function ResetIndex(t: Table, names: seq<string>): (u: Table)
    ensures u.columns == names + t.columns && |u.entries| == |t.entries|
    ensures forall i | 0 <= i < |t.entries| ::
              u.entries[i] == Entry([i as real], KeyRow(names, t.entries[i].key) + t.entries[i].row)
  {
    Table(names + t.columns, seq(|t.entries|, i requires 0 <= i < |t.entries| =>
      Entry([i as real], KeyRow(names, t.entries[i].key) + t.entries[i].row)))
  }

  /** A former index level holds the entry's key component ... */
  lemma ResetKeyValue(t: Table, names: seq<string>, i: nat, l: nat)
    requires i < |t.entries| && l < |names| && NoDuplicates(names)
    requires names[l] !in t.entries[i].row
    ensures i < |ResetIndex(t, names).entries|
    ensures Val(ResetIndex(t, names).entries[i].row, names[l]) == KeyAt(t.entries[i].key, l)
  {
    KeyRowAt(names, t.entries[i].key, l);
  }

  /** ... and every former column keeps its value. */
  lemma ResetKeepsValue(t: Table, names: seq<string>, i: nat, n: string)
    requires i < |t.entries| && n in t.entries[i].row
    ensures i < |ResetIndex(t, names).entries|
    ensures n in ResetIndex(t, names).entries[i].row
    ensures ResetIndex(t, names).entries[i].row[n] == t.entries[i].row[n]
  {
  }

  function EntryField(c: string): Entry -> real {
    (e: Entry) => Val(e.row, c)
  }

  /** `pd.DataFrame(t.sum()).transpose()`: one row, index 0, holding every
      column's total over all entries. */
  function SumRows(t: Table): (u: Table)
    ensures u.columns == t.columns && |u.entries| == 1 && u.entries[0].key == [0.0]
    ensures ValidTable(u)
    ensures forall c | c in t.columns :: u.entries[0].row[c] == SumOf(t.entries, EntryField(c))
  {
    Table(t.columns, [Entry([0.0], map c | c in t.columns :: SumOf(t.entries, EntryField(c)))])
  }

  /** Summing the entries of two tables over the same columns at once gives,
      column by column, the sum of the two one-row totals. */
  lemma SumRowsAppend(t1: Table, t2: Table, c: string)
    requires t1.columns == t2.columns && c in t1.columns
    ensures var u := SumRows(Table(t1.columns, t1.entries + t2.entries));
            u.entries[0].row[c] == SumRows(t1).entries[0].row[c] + SumRows(t2).entries[0].row[c]
  {
    SumOfAppend(t1.entries, t2.entries, EntryField(c));
  }

  /** The total of a one-entry table is that entry's row. */
  lemma SumRowsSingle(e: Entry, columns: seq<string>, c: string)
    requires c in columns
    ensures SumRows(Table(columns, [e])).entries[0].row[c] == Val(e.row, c)
  {
    assert [e][..0] == [];
    assert SumOf([e], EntryField(c)) == SumOf([], EntryField(c)) + EntryField(c)(e);
  }
}
