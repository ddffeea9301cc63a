/** Named aggregations (`df.groupby(...).agg(**aggregations)`): the
    insertion-ordered dictionary the source builds in loops, and the group-by
    that evaluates it on every group. */
module Aggregation {
  import opened Frames
  import opened Grouping

  datatype AggKind = Mean | Total | Size
  datatype AggSpec = AggSpec(source: string, kind: AggKind)

  /** A Python dict from output name to `(column, how)`: its names in
      insertion order and the specification stored under each. */
  datatype AggDict = AggDict(names: seq<string>, specs: map<string, AggSpec>)

  predicate WellFormed(d: AggDict) {
    NoDuplicates(d.names) && d.specs.Keys == ColumnSet(d.names)
  }

  const EmptyDict := AggDict([], map[])

  function AvgName(c: string): string { "avg(" + c + ")" }
  function SumName(c: string): string { "sum(" + c + ")" }
  function ScaleName(c: string): string { "scale_" + c }

  /** `d[name] = spec`: a present name keeps its place, a new one goes last. */
  function Put(d: AggDict, name: string, spec: AggSpec): (r: AggDict)
    requires WellFormed(d)
    ensures WellFormed(r)
    ensures |d.names| <= |r.names| && r.names[..|d.names|] == d.names
    ensures forall n :: n in r.names <==> n in d.names || n == name
    ensures name in r.specs && r.specs[name] == spec
    ensures forall n | n in d.specs && n != name :: n in r.specs && r.specs[n] == d.specs[n]
  {
    AggDict(if name in d.names then d.names else d.names + [name], d.specs[name := spec])
  }

  /** The roles an input column plays in the dictionaries of `sample_aggregation`. */
  datatype Role =
    | AvgRole         // avg(c) = (c, 'mean')
    | SumRole         // sum(c) = (c, 'sum')
    | ScaledSumRole   // sum(c) = ('scale_' + c, 'sum')
    | RateRole        // c      = (c, 'mean'), for a rate column
    | TotalRole       // c      = (c, 'sum'), re-summing a corrected column

  function RoleName(role: Role, c: string): string {
    match role
    case AvgRole => AvgName(c)
    case SumRole => SumName(c)
    case ScaledSumRole => SumName(c)
    case RateRole => c
    case TotalRole => c
  }

  function RoleSpec(role: Role, c: string): AggSpec {
    match role
    case AvgRole => AggSpec(c, Mean)
    case SumRole => AggSpec(c, Total)
    case ScaledSumRole => AggSpec(ScaleName(c), Total)
    case RateRole => AggSpec(c, Mean)
    case TotalRole => AggSpec(c, Total)
  }

  /** `for c in cols: d[RoleName(c)] = RoleSpec(c)`. */
  function PutAll(d: AggDict, cols: seq<string>, role: Role): (r: AggDict)
    requires WellFormed(d)
    ensures WellFormed(r)
  {
    if cols == [] then d
    else Put(PutAll(d, cols[..|cols| - 1], role), RoleName(role, cols[|cols| - 1]), RoleSpec(role, cols[|cols| - 1]))
  }

  /** One dictionary-building `for` loop of `sample_aggregation`. */
  method PutEach(d: AggDict, cols: seq<string>, role: Role) returns (r: AggDict)
    requires WellFormed(d)
    ensures r == PutAll(d, cols, role)
  {
    r := d;
    for i := 0 to |cols|
      invariant r == PutAll(d, cols[..i], role)
    {
      assert cols[..i + 1][..i] == cols[..i];
      r := Put(r, RoleName(role, cols[i]), RoleSpec(role, cols[i]));
    }
    assert cols[..|cols|] == cols;
  }

  /** After the loop the dictionary holds the names it held before and the
      role names of `cols`, and nothing else. */
  lemma {:induction false} PutAllNames(d: AggDict, cols: seq<string>, role: Role, m: string)
    requires WellFormed(d)
    ensures m in PutAll(d, cols, role).specs <==> m in d.specs || exists c | c in cols :: m == RoleName(role, c)
    decreases |cols|
  {
    if cols != [] {
      var front := cols[..|cols| - 1];
      assert forall c | c in front :: c in cols;
      assert cols == front + [cols[|cols| - 1]];
      PutAllNames(d, front, role, m);
    }
  }

  /** Every column of `cols` is stored under its role's name with its role's
      specification (when no two columns share a name), and every other
      entry keeps its specification. */
  lemma PutAllStores(d: AggDict, cols: seq<string>, role: Role, m: string)
    requires WellFormed(d)
    requires forall a, b | a in cols && b in cols && RoleName(role, a) == RoleName(role, b) :: a == b
    ensures forall c | c in cols && m == RoleName(role, c) ::
              m in PutAll(d, cols, role).specs && PutAll(d, cols, role).specs[m] == RoleSpec(role, c)
    ensures m in d.specs && (forall c | c in cols :: m != RoleName(role, c)) ==>
              m in PutAll(d, cols, role).specs && PutAll(d, cols, role).specs[m] == d.specs[m]
  {
    forall c | c in cols && m == RoleName(role, c)
      ensures m in PutAll(d, cols, role).specs && PutAll(d, cols, role).specs[m] == RoleSpec(role, c)
    {
      PutAllStoresNew(d, cols, role, c);
    }
    if m in d.specs && (forall c | c in cols :: m != RoleName(role, c)) {
      PutAllKeepsOthers(d, cols, role, m);
    }
  }

  lemma {:induction false} PutAllStoresNew(d: AggDict, cols: seq<string>, role: Role, c: string)
    requires WellFormed(d) && c in cols
    requires forall a | a in cols && RoleName(role, a) == RoleName(role, c) :: a == c
    ensures RoleName(role, c) in PutAll(d, cols, role).specs
    ensures PutAll(d, cols, role).specs[RoleName(role, c)] == RoleSpec(role, c)
    decreases |cols|
  {
    var front := cols[..|cols| - 1];
    var last := cols[|cols| - 1];
    assert cols == front + [last];
    if last != c {
      assert c in front;
      assert RoleName(role, last) != RoleName(role, c);
      PutAllStoresNew(d, front, role, c);
    }
  }

  lemma {:induction false} PutAllKeepsOthers(d: AggDict, cols: seq<string>, role: Role, m: string)
    requires WellFormed(d) && m in d.specs
    requires forall c | c in cols :: m != RoleName(role, c)
    ensures m in PutAll(d, cols, role).specs && PutAll(d, cols, role).specs[m] == d.specs[m]
    decreases |cols|
  {
    if cols != [] {
      var front := cols[..|cols| - 1];
      assert forall c | c in front :: c in cols;
      assert cols[|cols| - 1] in cols;
      PutAllKeepsOthers(d, front, role, m);
    }
  }

  /** Output names that are not rate columns leave the dictionary's rate
      columns as they were. */
  lemma {:induction false} PutAllNoRates(d: AggDict, cols: seq<string>, role: Role)
    requires WellFormed(d)
    requires forall c | c in cols :: !IsRateColumn(RoleName(role, c))
    ensures RateColumns(PutAll(d, cols, role).names) == RateColumns(d.names)
    decreases |cols|
  {
    if cols != [] {
      var front := cols[..|cols| - 1];
      var last := cols[|cols| - 1];
      assert forall c | c in front :: c in cols;
      PutAllNoRates(d, front, role);
      var p := PutAll(d, front, role);
      assert last in cols;
      if RoleName(role, last) !in p.names {
        RateColumnsSnocOther(p.names, RoleName(role, last));
      }
    }
  }

  /** Fresh, distinct names are appended in their own order. */
  lemma PutAllFresh(d: AggDict, cols: seq<string>)
    requires WellFormed(d)
    requires NoDuplicates(cols)
    requires forall c | c in cols :: c !in d.names
    ensures PutAll(d, cols, RateRole).names == d.names + cols
    ensures PutAll(d, cols, TotalRole).names == d.names + cols
  {
    PutAllFreshAs(d, cols, RateRole);
    PutAllFreshAs(d, cols, TotalRole);
  }

  lemma {:induction false} PutAllFreshAs(d: AggDict, cols: seq<string>, role: Role)
    requires WellFormed(d)
    requires role == RateRole || role == TotalRole
    requires NoDuplicates(cols)
    requires forall c | c in cols :: c !in d.names
    ensures PutAll(d, cols, role).names == d.names + cols
    decreases |cols|
  {
    if cols == [] {
      assert d.names + cols == d.names;
    } else {
      var front := cols[..|cols| - 1];
      var last := cols[|cols| - 1];
      assert NoDuplicates(front) && forall c | c in front :: c !in d.names by {
        assert forall c | c in front :: c in cols;
      }
      PutAllFreshAs(d, front, role);
      assert last !in PutAll(d, front, role).names by {
        assert last !in d.names && last !in front;
      }
      var p := PutAll(d, front, role);
      assert PutAll(d, cols, role) == Put(p, last, RoleSpec(role, last));
      PutFresh(p, last, RoleSpec(role, last));
      AppendLast(d.names, cols);
    }
  }

  lemma AppendLast(names: seq<string>, cols: seq<string>)
    requires |cols| > 0
    ensures (names + cols[..|cols| - 1]) + [cols[|cols| - 1]] == names + cols
  {
    assert cols == cols[..|cols| - 1] + [cols[|cols| - 1]];
  }

  /** A name the dictionary does not hold goes last. */
  lemma PutFresh(d: AggDict, name: string, spec: AggSpec)
    requires WellFormed(d) && name !in d.names
    ensures Put(d, name, spec).names == d.names + [name]
  {
  }

  /** Appending a name that is not a rate column keeps the rate columns. */
  lemma RateColumnsSnocOther(names: seq<string>, n: string)
    requires !IsRateColumn(n)
    ensures RateColumns(names + [n]) == RateColumns(names)
  {
    var ns := names + [n];
    assert ns[..|ns| - 1] == names;
    assert RateColumns(names) + [] == RateColumns(names);
  }

  lemma {:induction false} RateColumnsAppend(a: seq<string>, b: seq<string>)
    ensures RateColumns(a + b) == RateColumns(a) + RateColumns(b)
    decreases |b|
  {
    if b == [] {
      assert a + b == a;
    } else {
      var b' := b[..|b| - 1];
      assert (a + b)[..|a + b| - 1] == a + b';
      RateColumnsAppend(a, b');
    }
  }

  lemma {:induction false} RateColumnsOfRates(cols: seq<string>)
    requires forall c | c in cols :: IsRateColumn(c)
    ensures RateColumns(cols) == cols
    decreases |cols|
  {
    if cols != [] {
      var front, last := cols[..|cols| - 1], cols[|cols| - 1];
      assert forall c | c in front :: c in cols;
      RateColumnsOfRates(front);
      assert IsRateColumn(last) by {
        assert last in cols;
      }
      assert cols == front + [last];
    }
  }

  lemma {:induction false} NoRateColumns(cols: seq<string>)
    requires forall c | c in cols :: !IsRateColumn(c)
    ensures RateColumns(cols) == []
    decreases |cols|
  {
    if cols != [] {
      assert forall c | c in cols[..|cols| - 1] :: c in cols;
      NoRateColumns(cols[..|cols| - 1]);
      assert cols[|cols| - 1] in cols;
    }
  }

  /** Fresh, distinct rate columns are appended to the dictionary's rate
      columns in their own order. */
  lemma PutAllFreshRates(d: AggDict, cols: seq<string>)
    requires WellFormed(d)
    requires NoDuplicates(cols)
    requires forall c | c in cols :: IsRateColumn(c) && c !in d.names
    ensures RateColumns(PutAll(d, cols, RateRole).names) == RateColumns(d.names) + cols
  {
    PutAllFresh(d, cols);
    RateColumnsAppend(d.names, cols);
    RateColumnsOfRates(cols);
  }

  // ------------------------------------------------------------ group-by

  function KeyOf(cols: seq<string>, r: Row): (k: Key)
    ensures |k| == |cols|
    ensures forall i | 0 <= i < |cols| :: k[i] == Val(r, cols[i])
  {
    seq(|cols|, i requires 0 <= i < |cols| => Val(r, cols[i]))
  }

  function KeyFn(cols: seq<string>): Row -> Key {
    r => KeyOf(cols, r)
  }

  function Prefix(k: Key, n: nat): Key {
    if |k| <= n then k else k[..n]
  }

  function PrefixFn(n: nat): Key -> Key {
    k => Prefix(k, n)
  }

  function EntryPrefixFn(n: nat): Entry -> Key {
    (e: Entry) => Prefix(e.key, n)
  }

  function EntryRowFn(): Entry -> Row {
    (e: Entry) => e.row
  }

  function RowId(): Row -> Row {
    r => r
  }

  function FieldFn<T>(rowOf: T -> Row, c: string): T -> real {
    x => Val(rowOf(x), c)
  }

  /** One named aggregation evaluated on the rows of a group. A group is
      never empty, so the zero-row branch of `Mean` is never taken. */
  function Apply(spec: AggSpec, rows: seq<Row>): real {
    match spec.kind
    case Mean => if |rows| == 0 then 0.0 else SumOf(rows, ValFn(spec.source)) / (|rows| as real)
    case Total => SumOf(rows, ValFn(spec.source))
    case Size => |rows| as real
  }

  function AggRow(d: AggDict, rows: seq<Row>): (r: Row)
    ensures r.Keys == d.specs.Keys
  {
    map n | n in d.specs :: Apply(d.specs[n], rows)
  }

  function GroupEntry<T>(xs: seq<T>, key: T -> Key, rowOf: T -> Row, d: AggDict): Key -> Entry {
    k => Entry(k, AggRow(d, MapSeq(Members(xs, key, k), rowOf)))
  }

  /** One output entry per distinct key, holding every named aggregation of
      that key's group. */
  function GroupBy<T>(xs: seq<T>, key: T -> Key, rowOf: T -> Row, d: AggDict): (t: Table)
    ensures t.columns == d.names
    ensures WellFormed(d) ==> ValidTable(t)
    ensures |t.entries| == |Keys(xs, key)|
    ensures forall i | 0 <= i < |t.entries| :: t.entries[i] == GroupEntry(xs, key, rowOf, d)(Keys(xs, key)[i])
  {
    Table(d.names, MapSeq(Keys(xs, key), GroupEntry(xs, key, rowOf, d)))
  }

  /** `frame.groupby(by=cols).agg(**d)`. */
  function GroupFrame(f: Frame, cols: seq<string>, d: AggDict): Table {
    GroupBy(f.rows, KeyFn(cols), RowId(), d)
  }

  /** `table.groupby(by=<first n index levels>).agg(**d)`. */
  function RegroupTable(t: Table, n: nat, d: AggDict): Table {
    GroupBy(t.entries, EntryPrefixFn(n), EntryRowFn(), d)
  }

  /** What each output of a group-by holds: a `Total` is the sum of its source
      column over the group's members, a `Mean` that sum over the group's
      size, a `Size` the group's size; every group has a member. */
  lemma GroupByValue<T>(xs: seq<T>, key: T -> Key, rowOf: T -> Row, d: AggDict, i: nat, n: string)
    requires i < |Keys(xs, key)|
    requires n in d.specs
    ensures var ms := Members(xs, key, Keys(xs, key)[i]);
            var total := SumOf(ms, FieldFn(rowOf, d.specs[n].source));
            var v := GroupBy(xs, key, rowOf, d).entries[i].row[n];
            && |ms| > 0
            && (d.specs[n].kind == Total ==> v == total)
            && (d.specs[n].kind == Mean ==> v == total / (|ms| as real))
            && (d.specs[n].kind == Size ==> v == |ms| as real)
  {
    var ms := Members(xs, key, Keys(xs, key)[i]);
    assert Keys(xs, key)[i] in Keys(xs, key);
    SumOfMap(ms, rowOf, ValFn(d.specs[n].source), FieldFn(rowOf, d.specs[n].source));
  }

  /** The rows of a frame's group `i` over the key columns `cols`. */
  function GroupRows(f: Frame, cols: seq<string>, i: nat): seq<Row>
    requires i < |Keys(f.rows, KeyFn(cols))|
  {
    Members(f.rows, KeyFn(cols), Keys(f.rows, KeyFn(cols))[i])
  }

  /** Every row of a group carries the group's key. */
  lemma GroupRowsKey(f: Frame, cols: seq<string>, i: nat, x: Row)
    requires i < |Keys(f.rows, KeyFn(cols))| && x in GroupRows(f, cols, i)
    ensures KeyOf(cols, x) == Keys(f.rows, KeyFn(cols))[i]
  {
    assert KeyFn(cols)(x) == Keys(f.rows, KeyFn(cols))[i];
  }

  /** A summed column of a frame's group-by holds the group's total. */
  lemma GroupFrameTotal(f: Frame, cols: seq<string>, d: AggDict, i: nat, n: string, source: string)
    requires i < |Keys(f.rows, KeyFn(cols))|
    requires n in d.specs && d.specs[n] == AggSpec(source, Total)
    ensures i < |GroupFrame(f, cols, d).entries|
    ensures n in GroupFrame(f, cols, d).entries[i].row
    ensures GroupFrame(f, cols, d).entries[i].row[n] == SumOf(GroupRows(f, cols, i), ValFn(source))
  {
    GroupByValue(f.rows, KeyFn(cols), RowId(), d, i, n);
    SumOfPointwise(GroupRows(f, cols, i), FieldFn(RowId(), source), ValFn(source));
  }

  /** A frame's group-by entry carries its group's key and exactly the
      dictionary's outputs. */
  lemma GroupFrameEntry(f: Frame, cols: seq<string>, d: AggDict, i: nat)
    requires WellFormed(d) && i < |Keys(f.rows, KeyFn(cols))|
    ensures i < |GroupFrame(f, cols, d).entries|
    ensures GroupFrame(f, cols, d).entries[i].key == Keys(f.rows, KeyFn(cols))[i]
    ensures GroupFrame(f, cols, d).entries[i].row.Keys == d.specs.Keys
  {
    var t := GroupFrame(f, cols, d);
    assert t.entries[i] in t.entries;
  }

  /** A `size` column of a frame's group-by holds the group's size. */
  lemma GroupFrameSize(f: Frame, cols: seq<string>, d: AggDict, i: nat, n: string)
    requires i < |Keys(f.rows, KeyFn(cols))|
    requires n in d.specs && d.specs[n].kind == Size
    ensures i < |GroupFrame(f, cols, d).entries|
    ensures n in GroupFrame(f, cols, d).entries[i].row
    ensures GroupFrame(f, cols, d).entries[i].row[n] == |GroupRows(f, cols, i)| as real
  {
    GroupByValue(f.rows, KeyFn(cols), RowId(), d, i, n);
  }

  /** A mean column of a frame's group-by holds the group's mean. */
  lemma GroupFrameMean(f: Frame, cols: seq<string>, d: AggDict, i: nat, n: string, source: string)
    requires i < |Keys(f.rows, KeyFn(cols))|
    requires n in d.specs && d.specs[n] == AggSpec(source, Mean)
    ensures i < |GroupFrame(f, cols, d).entries| && |GroupRows(f, cols, i)| > 0
    ensures n in GroupFrame(f, cols, d).entries[i].row
    ensures GroupFrame(f, cols, d).entries[i].row[n]
            == SumOf(GroupRows(f, cols, i), ValFn(source)) / (|GroupRows(f, cols, i)| as real)
  {
    GroupByValue(f.rows, KeyFn(cols), RowId(), d, i, n);
    SumOfPointwise(GroupRows(f, cols, i), FieldFn(RowId(), source), ValFn(source));
  }

  /** The mean of a column that is constant on the rows is that constant. */
  lemma MeanOfConstant(ms: seq<Row>, c: string, v: real)
    requires |ms| > 0 && forall x | x in ms :: Val(x, c) == v
    ensures SumOf(ms, ValFn(c)) / (|ms| as real) == v
  {
    SumOfConstantFn(ms, ValFn(c), v);
  }

  /** A mean over a group on which the column is constant is that constant. */
  lemma GroupFrameConstantMean(f: Frame, cols: seq<string>, d: AggDict, i: nat, c: string, v: real)
    requires i < |Keys(f.rows, KeyFn(cols))|
    requires c in d.specs && d.specs[c] == AggSpec(c, Mean)
    requires forall x | x in GroupRows(f, cols, i) :: Val(x, c) == v
    ensures i < |GroupFrame(f, cols, d).entries|
    ensures Val(GroupFrame(f, cols, d).entries[i].row, c) == v
  {
    GroupFrameMean(f, cols, d, i, c, c);
    MeanOfConstant(GroupRows(f, cols, i), c, v);
  }
}
