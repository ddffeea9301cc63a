/** The inner joins that combine the per-table samples (main.py:258-261). */
module Join {
  import opened Frames

  predicate KeysMatch(l: Row, lk: string, r: Row, rk: string) {
    Val(l, lk) == Val(r, rk)
  }

  /** The right rows matching one left row, each glued onto it, in right order. */
  function Matches(l: Row, rs: seq<Row>, lk: string, rk: string): seq<Row> {
    if rs == [] then []
    else Matches(l, rs[..|rs| - 1], lk, rk) + (if KeysMatch(l, lk, rs[|rs| - 1], rk) then [l + rs[|rs| - 1]] else [])
  }

  function Pairs(ls: seq<Row>, rs: seq<Row>, lk: string, rk: string): seq<Row> {
    if ls == [] then [] else Pairs(ls[..|ls| - 1], rs, lk, rk) + Matches(ls[|ls| - 1], rs, lk, rk)
  }

  /** `pd.merge(left, right, left_on=lk, right_on=rk, how='inner')`. */
  function JoinOn(left: Frame, lk: string, right: Frame, rk: string): Frame {
    Frame(left.columns + right.columns, Pairs(left.rows, right.rows, lk, rk))
  }

  predicate IsMatch(r: Row, l: Row, lk: string, rs: seq<Row>, rk: string, j: int) {
    0 <= j < |rs| && KeysMatch(l, lk, rs[j], rk) && r == l + rs[j]
  }

  lemma {:induction false} MatchesExactly(l: Row, rs: seq<Row>, lk: string, rk: string, r: Row)
    ensures r in Matches(l, rs, lk, rk) <==> exists j :: IsMatch(r, l, lk, rs, rk, j)
    decreases |rs|
  {
    if rs != [] {
      var front := rs[..|rs| - 1];
      MatchesExactly(l, front, lk, rk, r);
      if exists j :: IsMatch(r, l, lk, front, rk, j) {
        var j :| IsMatch(r, l, lk, front, rk, j);
        assert IsMatch(r, l, lk, rs, rk, j);
      }
      if exists j :: IsMatch(r, l, lk, rs, rk, j) {
        var j :| IsMatch(r, l, lk, rs, rk, j);
        if j < |rs| - 1 {
          assert IsMatch(r, l, lk, front, rk, j);
        }
      }
      var last := rs[|rs| - 1];
      if r in Matches(l, rs, lk, rk) && r !in Matches(l, front, lk, rk) {
        assert KeysMatch(l, lk, last, rk) && r == l + last;
        assert IsMatch(r, l, lk, rs, rk, |rs| - 1);
      }
    }
  }

  predicate IsPair(r: Row, ls: seq<Row>, lk: string, rs: seq<Row>, rk: string, i: int, j: int) {
    0 <= i < |ls| && IsMatch(r, ls[i], lk, rs, rk, j)
  }

  /** The rows of an inner join are exactly the glued pairs whose keys are equal. */
  lemma {:induction false} JoinOnExactly(left: Frame, lk: string, right: Frame, rk: string, r: Row)
    ensures r in JoinOn(left, lk, right, rk).rows <==>
            exists i, j :: IsPair(r, left.rows, lk, right.rows, rk, i, j)
  {
    PairsExactly(left.rows, right.rows, lk, rk, r);
  }

  lemma {:induction false} PairsExactly(ls: seq<Row>, rs: seq<Row>, lk: string, rk: string, r: Row)
    ensures r in Pairs(ls, rs, lk, rk) <==> exists i, j :: IsPair(r, ls, lk, rs, rk, i, j)
    decreases |ls|
  {
    if ls != [] {
      var front := ls[..|ls| - 1];
      var last := ls[|ls| - 1];
      PairsExactly(front, rs, lk, rk, r);
      MatchesExactly(last, rs, lk, rk, r);
      if exists i, j :: IsPair(r, front, lk, rs, rk, i, j) {
        var i, j :| IsPair(r, front, lk, rs, rk, i, j);
        assert IsPair(r, ls, lk, rs, rk, i, j);
      }
      if exists j :: IsMatch(r, last, lk, rs, rk, j) {
        var j :| IsMatch(r, last, lk, rs, rk, j);
        assert IsPair(r, ls, lk, rs, rk, |ls| - 1, j);
      }
      if exists i, j :: IsPair(r, ls, lk, rs, rk, i, j) {
        var i, j :| IsPair(r, ls, lk, rs, rk, i, j);
        if i < |ls| - 1 {
          assert IsPair(r, front, lk, rs, rk, i, j);
        } else {
          assert IsMatch(r, last, lk, rs, rk, j);
        }
      }
    }
  }

  /** Joining two well-formed frames with disjoint columns gives a well-formed
      frame, and positive rates stay positive. */
  lemma JoinOnValid(left: Frame, lk: string, right: Frame, rk: string)
    requires ValidFrame(left) && ValidFrame(right)
    requires ColumnSet(left.columns) !! ColumnSet(right.columns)
    ensures ValidFrame(JoinOn(left, lk, right, rk))
    ensures PositiveRates(left) && PositiveRates(right) ==> PositiveRates(JoinOn(left, lk, right, rk))
  {
    var j := JoinOn(left, lk, right, rk);
    forall r | r in j.rows
      ensures r.Keys == ColumnSet(j.columns)
      ensures PositiveRates(left) && PositiveRates(right) ==>
                forall c | c in j.columns && IsRateColumn(c) :: Val(r, c) > 0.0
    {
      JoinOnExactly(left, lk, right, rk, r);
      var i, k :| IsPair(r, left.rows, lk, right.rows, rk, i, k);
      assert left.rows[i] in left.rows && right.rows[k] in right.rows;
      GluedRow(left.rows[i], right.rows[k], left.columns, right.columns);
    }
  }

  /** A left row glued onto a right row with disjoint columns has both rows'
      columns and keeps each row's values. */
  lemma GluedRow(l: Row, r: Row, lcols: seq<string>, rcols: seq<string>)
    requires l.Keys == ColumnSet(lcols) && r.Keys == ColumnSet(rcols)
    requires ColumnSet(lcols) !! ColumnSet(rcols)
    ensures (l + r).Keys == ColumnSet(lcols + rcols)
    ensures forall c | c in lcols :: Val(l + r, c) == Val(l, c)
    ensures forall c | c in rcols :: Val(l + r, c) == Val(r, c)
  {
    assert ColumnSet(lcols + rcols) == ColumnSet(lcols) + ColumnSet(rcols);
    forall c | c in lcols
      ensures Val(l + r, c) == Val(l, c)
    {
      assert c in ColumnSet(lcols) && c !in r;
    }
  }

  /** The join of the samples (main.py:258-261): table 0 with table 1 on
      `join_cols[0] == join_cols[1]`, then, only when there are more than two
      join columns, the result with table 2 on `join_cols[1] == join_cols[2]`. */
  function JoinSamples(samples: seq<Frame>, joinCols: seq<string>): Frame
    requires |samples| >= 2 && |joinCols| >= 2
    requires |joinCols| > 2 ==> |samples| >= 3
  {
    var first := JoinOn(samples[0], joinCols[0], samples[1], joinCols[1]);
    if |joinCols| > 2 then JoinOn(first, joinCols[1], samples[2], joinCols[2]) else first
  }

  /** The tables take part in the join as `JoinSamples` says, with the key
      columns each table must hold. */
  predicate JoinableSamples(samples: seq<Frame>, joinCols: seq<string>) {
    && |samples| >= 2 && |joinCols| >= 2
    && (|joinCols| > 2 ==> |samples| >= 3)
    && (forall t | t in samples :: ValidFrame(t) && PositiveRates(t))
    && joinCols[0] in samples[0].columns && joinCols[1] in samples[1].columns
    && ColumnSet(samples[0].columns) !! ColumnSet(samples[1].columns)
    && (|joinCols| > 2 ==>
          && joinCols[2] in samples[2].columns
          && ColumnSet(samples[0].columns + samples[1].columns) !! ColumnSet(samples[2].columns))
  }

  predicate IsTriple(r: Row, samples: seq<Frame>, joinCols: seq<string>, a: Row, b: Row, c: Row)
    requires |samples| >= 3 && |joinCols| >= 3
  {
    && a in samples[0].rows && b in samples[1].rows && c in samples[2].rows
    && Val(a, joinCols[0]) == Val(b, joinCols[1])
    && Val(a + b, joinCols[1]) == Val(c, joinCols[2])
    && r == a + b + c
  }

  /** A two-table join is exactly the matching pairs; a three-table join is
      exactly the triples where the third key is compared with `join_cols[1]`
      (read from the joined row) rather than with `join_cols[0]`. */
  lemma JoinSamplesExactly(samples: seq<Frame>, joinCols: seq<string>, r: Row)
    requires |samples| >= 2 && |joinCols| >= 2
    requires |joinCols| > 2 ==> |samples| >= 3
    ensures |joinCols| == 2 ==>
              (r in JoinSamples(samples, joinCols).rows <==>
                 exists i, j :: IsPair(r, samples[0].rows, joinCols[0], samples[1].rows, joinCols[1], i, j))
    ensures |joinCols| > 2 ==>
              (r in JoinSamples(samples, joinCols).rows <==>
                 exists a, b, c :: IsTriple(r, samples, joinCols, a, b, c))
  {
    var first := JoinOn(samples[0], joinCols[0], samples[1], joinCols[1]);
    JoinOnExactly(samples[0], joinCols[0], samples[1], joinCols[1], r);
    if |joinCols| > 2 {
      JoinOnExactly(first, joinCols[1], samples[2], joinCols[2], r);
      if r in JoinSamples(samples, joinCols).rows {
        var i, k :| IsPair(r, first.rows, joinCols[1], samples[2].rows, joinCols[2], i, k);
        var ab := first.rows[i];
        JoinOnExactly(samples[0], joinCols[0], samples[1], joinCols[1], ab);
        var p, q :| IsPair(ab, samples[0].rows, joinCols[0], samples[1].rows, joinCols[1], p, q);
        assert IsTriple(r, samples, joinCols, samples[0].rows[p], samples[1].rows[q], samples[2].rows[k]);
      }
      if exists a, b, c :: IsTriple(r, samples, joinCols, a, b, c) {
        var a, b, c :| IsTriple(r, samples, joinCols, a, b, c);
        var p :| 0 <= p < |samples[0].rows| && samples[0].rows[p] == a;
        var q :| 0 <= q < |samples[1].rows| && samples[1].rows[q] == b;
        var k :| 0 <= k < |samples[2].rows| && samples[2].rows[k] == c;
        JoinOnExactly(samples[0], joinCols[0], samples[1], joinCols[1], a + b);
        assert IsPair(a + b, samples[0].rows, joinCols[0], samples[1].rows, joinCols[1], p, q);
        var i :| 0 <= i < |first.rows| && first.rows[i] == a + b;
        assert IsPair(r, first.rows, joinCols[1], samples[2].rows, joinCols[2], i, k);
      }
    }
  }

  /** The joined sample is well formed and keeps every rate positive. */
  lemma JoinSamplesValid(samples: seq<Frame>, joinCols: seq<string>)
    requires JoinableSamples(samples, joinCols)
    ensures ValidFrame(JoinSamples(samples, joinCols)) && PositiveRates(JoinSamples(samples, joinCols))
  {
    assert samples[0] in samples && samples[1] in samples;
    JoinOnValid(samples[0], joinCols[0], samples[1], joinCols[1]);
    if |joinCols| > 2 {
      assert samples[2] in samples;
      var first := JoinOn(samples[0], joinCols[0], samples[1], joinCols[1]);
      JoinOnValid(first, joinCols[1], samples[2], joinCols[2]);
    }
  }
}
