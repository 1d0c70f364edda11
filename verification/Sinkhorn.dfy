/**
 The log-domain variance normalisation that balances a tile before quantisation: alternating
 column and row passes with best-so-far selection, and its batched form.
 */
module Sinkhorn {
  import opened Vectors
  import opened Floats
  import opened Quantizer

  /** The exponential pair and the standard deviation of a vector (any function of it). */
  datatype Stats = Stats(e: ExpLog, std: Vec -> real)

  /** A tile to balance, with at least one row and one column. */
  datatype Tile = Tile(m: Matrix, cols: nat)

  predicate ValidTile(x: Tile) { |x.m| >= 1 && x.cols >= 1 && IsMatrix(x.m, |x.m|, x.cols) }

  /** Log scales: one per column, one per row. */
  datatype Logs = Logs(col: Vec, row: Vec)

  predicate LogsFit(x: Tile, g: Logs) { |g.col| == x.cols && |g.row| == |x.m| }

  const STD_MIN: real := 0.001
  const STD_MAX: real := 1000.0
  const LOG_MIN: real := -0.3
  const LOG_MAX: real := 10.0

  function Between(v: real, lo: real, hi: real): (r: real)
    requires lo <= hi
    ensures lo <= r <= hi
  {
    if v < lo then lo else if v > hi then hi else v
  }

  predicate AllPositive(v: Vec) { forall i | 0 <= i < |v| :: v[i] > 0.0 }

  /** `m / s_col / s_row`. */
  function Balanced(x: Tile, col: Vec, row: Vec): (b: Matrix)
    requires ValidTile(x) && |col| == x.cols && |row| == |x.m|
    requires AllPositive(col) && AllPositive(row)
    ensures IsMatrix(b, |x.m|, x.cols)
    ensures forall i, j | 0 <= i < |x.m| && 0 <= j < x.cols :: b[i][j] == x.m[i][j] / col[j] / row[i]
  {
    seq(|x.m|, i requires 0 <= i < |x.m| =>
      seq(x.cols, j requires 0 <= j < x.cols => x.m[i][j] / col[j] / row[i]))
  }

  lemma ExpsArePositive(e: ExpLog, v: Vec)
    requires Laws(e)
    ensures AllPositive(Exps(e, v))
  {
    forall i | 0 <= i < |v| ensures Exps(e, v)[i] > 0.0 { assert ExpPositive(e, v[i]); }
  }

  /** The tile divided by the exponentials of the log scales. */
  function Current(st: Stats, x: Tile, g: Logs): (b: Matrix)
    requires Laws(st.e) && ValidTile(x) && LogsFit(x, g)
    ensures IsMatrix(b, |x.m|, x.cols)
  {
    ExpsArePositive(st.e, g.col);
    ExpsArePositive(st.e, g.row);
    Balanced(x, Exps(st.e, g.col), Exps(st.e, g.row))
  }

  function ColStds(st: Stats, b: Matrix, cols: nat): (v: Vec)
    requires IsMatrix(b, |b|, cols)
    ensures |v| == cols
  {
    seq(cols, j requires 0 <= j < cols => st.std(Column(b, cols, j)))
  }

  function RowStds(st: Stats, b: Matrix): (v: Vec)
    ensures |v| == |b|
  {
    seq(|b|, i requires 0 <= i < |b| => st.std(b[i]))
  }

  /** `(log_s + std.clamp(..).log()).clip(..)`. */
  function Bumped(e: ExpLog, logs: Vec, stds: Vec): (v: Vec)
    requires |logs| == |stds|
    ensures |v| == |logs| && forall i | 0 <= i < |v| :: LOG_MIN <= v[i] <= LOG_MAX
  {
    var v := seq(|logs|, i requires 0 <= i < |logs| =>
      Between(logs[i] + e.log(Between(stds[i], STD_MIN, STD_MAX)), LOG_MIN, LOG_MAX));
    assert forall i | 0 <= i < |v| ::
        v[i] == Between(logs[i] + e.log(Between(stds[i], STD_MIN, STD_MAX)), LOG_MIN, LOG_MAX);
    v
  }

  /** One iteration: the column pass, then the row pass on the updated tile. */
  function Next(st: Stats, x: Tile, g: Logs): (r: Logs)
    requires Laws(st.e) && ValidTile(x) && LogsFit(x, g)
    ensures LogsFit(x, r)
  {
    var col := Bumped(st.e, g.col, ColStds(st, Current(st, x, g), x.cols));
    var half := Logs(col, g.row);
    Logs(col, Bumped(st.e, g.row, RowStds(st, Current(st, x, half))))
  }

  /** The log scales after `k` iterations. */
  function Visited(st: Stats, x: Tile, k: nat): (g: Logs)
    requires Laws(st.e) && ValidTile(x)
    ensures LogsFit(x, g)
  {
    if k == 0 then Logs(Zeros(x.cols), Zeros(|x.m|)) else Next(st, x, Visited(st, x, k - 1))
  }

  function Spread(v: Vec): real
    requires v != []
  {
    MaxOf(v) / (if MinOf(v) < SCALE_FLOOR then SCALE_FLOOR else MinOf(v))
  }

  function Imbalance(st: Stats, b: Matrix, cols: nat): real
    requires |b| >= 1 && cols >= 1 && IsMatrix(b, |b|, cols)
  {
    Spread(ColStds(st, b, cols)) + Spread(RowStds(st, b))
  }

  function ImbalanceAt(st: Stats, x: Tile, k: nat): real
    requires Laws(st.e) && ValidTile(x)
  {
    Imbalance(st, Current(st, x, Visited(st, x, k)), x.cols)
  }

  /** The iteration kept by the `imb <= imb_best` test after `k` iterations. */
  function BestAt(st: Stats, x: Tile, k: nat): (b: nat)
    requires Laws(st.e) && ValidTile(x)
    ensures b <= k
  {
    if k == 0 then 0
    else
      var b := BestAt(st, x, k - 1);
      if ImbalanceAt(st, x, k) <= ImbalanceAt(st, x, b) then k else b
  }

  /** The kept iteration is the last one of least imbalance, the starting state included. */
  lemma {:induction false} BestIsLeast(st: Stats, x: Tile, k: nat, j: nat)
    requires Laws(st.e) && ValidTile(x) && j <= k
    ensures ImbalanceAt(st, x, BestAt(st, x, k)) <= ImbalanceAt(st, x, j)
    ensures BestAt(st, x, k) < j ==> ImbalanceAt(st, x, BestAt(st, x, k)) < ImbalanceAt(st, x, j)
  {
    hide ImbalanceAt;
    if k > 0 && j < k { BestIsLeast(st, x, k - 1, j); }
    if k > 0 && j == k { BestIsLeast(st, x, k - 1, k - 1); }
  }

  lemma VisitedInRange(st: Stats, x: Tile, k: nat)
    requires Laws(st.e) && ValidTile(x)
    ensures forall j | 0 <= j < x.cols :: LOG_MIN <= Visited(st, x, k).col[j] <= LOG_MAX
    ensures forall i | 0 <= i < |x.m| :: LOG_MIN <= Visited(st, x, k).row[i] <= LOG_MAX
  {
    hide Current, ColStds, RowStds, Laws;
    if k > 0 { assert Visited(st, x, k) == Next(st, x, Visited(st, x, k - 1)); }
  }

  /** What a call returns: the scales of the kept iteration. */
  function BestCol(st: Stats, x: Tile, iters: nat): (v: Vec)
    requires Laws(st.e) && ValidTile(x)
    ensures |v| == x.cols
  {
    Exps(st.e, Visited(st, x, BestAt(st, x, iters)).col)
  }

  function BestRow(st: Stats, x: Tile, iters: nat): (v: Vec)
    requires Laws(st.e) && ValidTile(x)
    ensures |v| == |x.m|
  {
    Exps(st.e, Visited(st, x, BestAt(st, x, iters)).row)
  }

  /** Every returned scale lies in `exp(-0.3) .. exp(10)`; in particular it is positive. */
  lemma BestScalesInRange(st: Stats, x: Tile, iters: nat)
    requires Laws(st.e) && ValidTile(x)
    ensures forall j | 0 <= j < x.cols :: 0.0 < st.e.exp(-0.3) <= BestCol(st, x, iters)[j] <= st.e.exp(10.0)
    ensures forall i | 0 <= i < |x.m| :: 0.0 < st.e.exp(-0.3) <= BestRow(st, x, iters)[i] <= st.e.exp(10.0)
  {
    hide Visited, BestAt, Laws;
    var g := Visited(st, x, BestAt(st, x, iters));
    VisitedInRange(st, x, BestAt(st, x, iters));
    forall j | 0 <= j < x.cols
      ensures 0.0 < st.e.exp(LOG_MIN) <= BestCol(st, x, iters)[j] <= st.e.exp(LOG_MAX)
    {
      ExpBetween(st.e, g.col[j]);
    }
    forall i | 0 <= i < |x.m|
      ensures 0.0 < st.e.exp(LOG_MIN) <= BestRow(st, x, iters)[i] <= st.e.exp(LOG_MAX)
    {
      ExpBetween(st.e, g.row[i]);
    }
  }

  lemma ExpBetween(e: ExpLog, a: real)
    requires Laws(e) && LOG_MIN <= a <= LOG_MAX
    ensures 0.0 < e.exp(LOG_MIN) <= e.exp(a) <= e.exp(LOG_MAX)
  {
    assert ExpPositive(e, LOG_MIN);
    ExpMonotone(e, LOG_MIN, a);
    ExpMonotone(e, a, LOG_MAX);
  }

  /** Multiplying the balanced tile back by both scales restores the tile. */
  lemma BalancedRestores(x: Tile, col: Vec, row: Vec, i: nat, j: nat)
    requires ValidTile(x) && |col| == x.cols && |row| == |x.m| && i < |x.m| && j < x.cols
    requires AllPositive(col) && AllPositive(row)
    ensures Balanced(x, col, row)[i][j] * row[i] * col[j] == x.m[i][j]
  {
    DivideTwice(x.m[i][j], col[j], row[i]);
  }

  lemma DivideTwice(v: real, a: real, b: real)
    requires a > 0.0 && b > 0.0
    ensures v / a / b * b * a == v
  {
  }

  // ----- the same passes on the scales themselves

  /** Column and row scales. */
  datatype Scales = Scales(col: Vec, row: Vec)

  ghost predicate ScalesFit(x: Tile, s: Scales) {
    |s.col| == x.cols && |s.row| == |x.m| && AllPositive(s.col) && AllPositive(s.row)
  }

  /**
   A scale after a pass: it takes up the deviation, read as at least a thousandth and at most a
   thousand, and stays between `exp(-0.3)` and `exp(10)`.
   */
  ghost function Adjusted(e: ExpLog, scale: real, std: real): (r: real)
    requires Laws(e)
    ensures r > 0.0
  {
    hide Laws;
    ExpBetween(e, LOG_MIN);
    ExpMonotone(e, -0.3, 10.0);
    Between(scale * Between(std, 0.001, 1000.0), e.exp(-0.3), e.exp(10.0))
  }

  /** Adding the logarithm of the deviation and clipping is that adjustment. */
  lemma BumpAdjusts(e: ExpLog, log: real, std: real)
    requires Laws(e)
    ensures e.exp(Between(log + e.log(Between(std, STD_MIN, STD_MAX)), LOG_MIN, LOG_MAX))
              == Adjusted(e, e.exp(log), std)
  {
    hide Laws;
    var b := Between(std, STD_MIN, STD_MAX);
    var a := log + e.log(b);
    ExpOfLog(e, b);
    ExpSum(e, log, e.log(b), a);
    ExpMonotone(e, LOG_MIN, LOG_MAX);
    if a < LOG_MIN {
      ExpMonotone(e, a, LOG_MIN);
    } else if a > LOG_MAX {
      ExpMonotone(e, LOG_MAX, a);
    } else {
      ExpMonotone(e, LOG_MIN, a);
      ExpMonotone(e, a, LOG_MAX);
    }
  }

  /** The column pass: every column scale takes up the deviation of its column. */
  ghost function ColumnPass(st: Stats, x: Tile, s: Scales): (r: Scales)
    requires Laws(st.e) && ValidTile(x) && ScalesFit(x, s)
    ensures ScalesFit(x, r) && r.row == s.row
    ensures forall j | 0 <= j < x.cols ::
              r.col[j] == Adjusted(st.e, s.col[j], st.std(Column(Balanced(x, s.col, s.row), x.cols, j)))
  {
    hide Laws, Adjusted, Balanced;
    var b := Balanced(x, s.col, s.row);
    var col := seq(x.cols, j requires 0 <= j < x.cols => Adjusted(st.e, s.col[j], st.std(Column(b, x.cols, j))));
    assert forall j | 0 <= j < x.cols :: col[j] == Adjusted(st.e, s.col[j], st.std(Column(b, x.cols, j)));
    Scales(col, s.row)
  }

  /** The row pass: every row scale takes up the deviation of its row. */
  ghost function RowPass(st: Stats, x: Tile, s: Scales): (r: Scales)
    requires Laws(st.e) && ValidTile(x) && ScalesFit(x, s)
    ensures ScalesFit(x, r) && r.col == s.col
    ensures forall i | 0 <= i < |x.m| :: r.row[i] == Adjusted(st.e, s.row[i], st.std(Balanced(x, s.col, s.row)[i]))
  {
    hide Laws, Adjusted, Balanced;
    var b := Balanced(x, s.col, s.row);
    var row := seq(|x.m|, i requires 0 <= i < |x.m| => Adjusted(st.e, s.row[i], st.std(b[i])));
    assert forall i | 0 <= i < |x.m| :: row[i] == Adjusted(st.e, s.row[i], st.std(b[i]));
    Scales(s.col, row)
  }

  /** The scales after `k` rounds of a column pass and a row pass, from all ones. */
  ghost function Passes(st: Stats, x: Tile, k: nat): (s: Scales)
    requires Laws(st.e) && ValidTile(x)
    ensures ScalesFit(x, s)
  {
    if k == 0 then Scales(seq(x.cols, _ => 1.0), seq(|x.m|, _ => 1.0))
    else RowPass(st, x, ColumnPass(st, x, Passes(st, x, k - 1)))
  }

  /** The log scales and the scales stand for the same thing. */
  ghost predicate SameScales(e: ExpLog, g: Logs, s: Scales) { Exps(e, g.col) == s.col && Exps(e, g.row) == s.row }

  lemma ColumnBump(st: Stats, x: Tile, g: Logs, s: Scales)
    requires Laws(st.e) && ValidTile(x) && LogsFit(x, g) && ScalesFit(x, s) && SameScales(st.e, g, s)
    ensures Exps(st.e, Bumped(st.e, g.col, ColStds(st, Current(st, x, g), x.cols))) == ColumnPass(st, x, s).col
  {
    hide Laws, Adjusted, Balanced, Exps, ColumnPass, Between;
    var b := Balanced(x, s.col, s.row);
    var v, w := Exps(st.e, Bumped(st.e, g.col, ColStds(st, b, x.cols))), ColumnPass(st, x, s).col;
    forall j | 0 <= j < x.cols ensures v[j] == w[j] {
      BumpAdjusts(st.e, g.col[j], st.std(Column(b, x.cols, j)));
    }
    assert v == w;
  }

  lemma RowBump(st: Stats, x: Tile, g: Logs, s: Scales)
    requires Laws(st.e) && ValidTile(x) && LogsFit(x, g) && ScalesFit(x, s) && SameScales(st.e, g, s)
    ensures Exps(st.e, Bumped(st.e, g.row, RowStds(st, Current(st, x, g)))) == RowPass(st, x, s).row
  {
    hide Laws, Adjusted, Balanced, Exps, RowPass, Between;
    var b := Balanced(x, s.col, s.row);
    var v, w := Exps(st.e, Bumped(st.e, g.row, RowStds(st, b))), RowPass(st, x, s).row;
    forall i | 0 <= i < |x.m| ensures v[i] == w[i] {
      BumpAdjusts(st.e, g.row[i], st.std(b[i]));
    }
    assert v == w;
  }

  /** The log-domain loop visits exactly the scales of the passes. */
  lemma {:induction false} VisitedIsPasses(st: Stats, x: Tile, k: nat)
    requires Laws(st.e) && ValidTile(x)
    ensures SameScales(st.e, Visited(st, x, k), Passes(st, x, k))
  {
    hide Laws, Bumped, ColStds, RowStds, Current, ColumnPass, RowPass, ScalesFit;
    if k == 0 {
      UnitScales(st.e, x.cols);
      UnitScales(st.e, |x.m|);
    } else {
      VisitedIsPasses(st, x, k - 1);
      var g, s := Visited(st, x, k - 1), Passes(st, x, k - 1);
      ColumnBump(st, x, g, s);
      var half := Logs(Bumped(st.e, g.col, ColStds(st, Current(st, x, g), x.cols)), g.row);
      RowBump(st, x, half, ColumnPass(st, x, s));
    }
  }

  lemma UnitScales(e: ExpLog, n: nat)
    requires Laws(e)
    ensures Exps(e, Zeros(n)) == seq(n, _ => 1.0)
  {
    hide Laws;
    ExpZero(e, 0.0);
  }

  // ----- what a pass achieves

  /** The deviation scales with its vector. */
  ghost predicate Homogeneous(std: Vec -> real) { forall a, v :: a > 0.0 ==> std(Scale(a, v)) == a * std(v) }

  lemma ScaledDeviation(std: Vec -> real, a: real, v: Vec)
    requires Homogeneous(std) && a > 0.0
    ensures std(Scale(a, v)) == a * std(v)
  {
  }

  /** A deviation and the scale it goes into that no clip touches. */
  predicate Unclipped(e: ExpLog, scale: real, std: real) {
    0.001 <= std <= 1000.0 && e.exp(-0.3) <= scale * std <= e.exp(10.0)
  }

  lemma DivideMore(m: real, c: real, r: real, d: real, c': real, r': real)
    requires c > 0.0 && r > 0.0 && d > 0.0 && c' > 0.0 && r' > 0.0 && c' * r' == c * r * d
    ensures m / c' / r' == 1.0 / d * (m / c / r)
  {
    var y, z := m / c / r, 1.0 / d;
    assert z * d == 1.0 && y * r * c == m;
    assert z * y * (c' * r') == (z * d) * (y * r * c);
    QuotientUnique(m, c', r', z * y);
  }

  lemma QuotientUnique(m: real, a: real, b: real, y: real)
    requires a > 0.0 && b > 0.0 && y * b * a == m
    ensures m / a / b == y
  {
  }

  lemma UnclippedAdjusts(e: ExpLog, scale: real, std: real)
    requires Laws(e) && Unclipped(e, scale, std)
    ensures Adjusted(e, scale, std) == scale * std
  {
    hide Laws;
  }

  lemma ColumnShrinks(x: Tile, s: Scales, r: Scales, j: nat, d: real)
    requires ValidTile(x) && ScalesFit(x, s) && ScalesFit(x, r) && j < x.cols && d > 0.0
    requires r.col[j] == s.col[j] * d && r.row == s.row
    ensures Column(Balanced(x, r.col, r.row), x.cols, j) == Scale(1.0 / d, Column(Balanced(x, s.col, s.row), x.cols, j))
  {
    hide Scale, Balanced;
    var before, after := Column(Balanced(x, s.col, s.row), x.cols, j), Column(Balanced(x, r.col, r.row), x.cols, j);
    forall i | 0 <= i < |x.m| ensures after[i] == Scale(1.0 / d, before)[i] {
      DivideMore(x.m[i][j], s.col[j], s.row[i], d, r.col[j], r.row[i]);
      ScaleAt(1.0 / d, before, i);
    }
    assert after == Scale(1.0 / d, before);
  }

  lemma RowShrinks(x: Tile, s: Scales, r: Scales, i: nat, d: real)
    requires ValidTile(x) && ScalesFit(x, s) && ScalesFit(x, r) && i < |x.m| && d > 0.0
    requires r.row[i] == s.row[i] * d && r.col == s.col
    ensures Balanced(x, r.col, r.row)[i] == Scale(1.0 / d, Balanced(x, s.col, s.row)[i])
  {
    hide Scale, Balanced;
    var before, after := Balanced(x, s.col, s.row)[i], Balanced(x, r.col, r.row)[i];
    forall j | 0 <= j < x.cols ensures after[j] == Scale(1.0 / d, before)[j] {
      DivideMore(x.m[i][j], s.col[j], s.row[i], d, r.col[j], r.row[i]);
      ScaleAt(1.0 / d, before, j);
    }
    assert after == Scale(1.0 / d, before);
  }

  lemma UnitQuotient(d: real)
    requires d > 0.0
    ensures 1.0 / d * d == 1.0 && 1.0 / d > 0.0
  {
  }

  /** After the column pass, a column that no clip touches has deviation exactly 1. */
  lemma ColumnPassLevels(st: Stats, x: Tile, s: Scales, j: nat)
    requires Laws(st.e) && ValidTile(x) && ScalesFit(x, s) && Homogeneous(st.std) && j < x.cols
    requires Unclipped(st.e, s.col[j], st.std(Column(Balanced(x, s.col, s.row), x.cols, j)))
    ensures var r := ColumnPass(st, x, s);
            st.std(Column(Balanced(x, r.col, r.row), x.cols, j)) == 1.0
  {
    hide Laws, ColumnPass, Scale, Homogeneous, Balanced, Adjusted;
    var before := Column(Balanced(x, s.col, s.row), x.cols, j);
    var d := st.std(before);
    UnclippedAdjusts(st.e, s.col[j], d);
    ColumnShrinks(x, s, ColumnPass(st, x, s), j, d);
    UnitQuotient(d);
    ScaledDeviation(st.std, 1.0 / d, before);
  }

  /** After the row pass, a row that no clip touches has deviation exactly 1. */
  lemma RowPassLevels(st: Stats, x: Tile, s: Scales, i: nat)
    requires Laws(st.e) && ValidTile(x) && ScalesFit(x, s) && Homogeneous(st.std) && i < |x.m|
    requires Unclipped(st.e, s.row[i], st.std(Balanced(x, s.col, s.row)[i]))
    ensures var r := RowPass(st, x, s);
            st.std(Balanced(x, r.col, r.row)[i]) == 1.0
  {
    hide Laws, RowPass, Scale, Homogeneous, Balanced, Adjusted;
    var before := Balanced(x, s.col, s.row)[i];
    var d := st.std(before);
    UnclippedAdjusts(st.e, s.row[i], d);
    RowShrinks(x, s, RowPass(st, x, s), i, d);
    UnitQuotient(d);
    ScaledDeviation(st.std, 1.0 / d, before);
  }

  // ----- what the imbalance measures

  /** The spread of deviations is their largest ratio; below the floor, the largest over 1e-8. */
  lemma SpreadIsLargestRatio(v: Vec)
    requires v != [] && AllPositive(v)
    ensures MinOf(v) >= 0.00000001 ==> forall i, j | 0 <= i < |v| && 0 <= j < |v| :: v[i] / v[j] <= Spread(v)
    ensures MinOf(v) >= 0.00000001 ==> exists i, j :: 0 <= i < |v| && 0 <= j < |v| && v[i] / v[j] == Spread(v)
    ensures MinOf(v) < 0.00000001 ==> Spread(v) == MaxOf(v) / 0.00000001
  {
    hide MinOf, MaxOf;
    var i :| 0 <= i < |v| && v[i] == MaxOf(v);
    var j :| 0 <= j < |v| && v[j] == MinOf(v);
    assert MinOf(v) >= 0.00000001 ==> v[i] / v[j] == Spread(v);
    forall a, b | 0 <= a < |v| && 0 <= b < |v| ensures v[a] / v[b] <= MaxOf(v) / MinOf(v) {
      RatioGrows(v[a], v[b], MaxOf(v), MinOf(v));
    }
  }

  lemma RatioGrows(a: real, b: real, c: real, d: real)
    requires 0.0 < a <= c && 0.0 < d <= b
    ensures a / b <= c / d
  {
    var x, y := a / b, c / d;
    assert x * b == a && y * d == c && y > 0.0;
    assert y * d <= y * b;
    if x > y { StrictProduct(y, x, b); }
  }

  /** A tile's imbalance is at least 2, and 2 exactly when all columns and all rows deviate alike. */
  lemma ImbalanceIsTwoExactly(st: Stats, b: Matrix, cols: nat)
    requires |b| >= 1 && cols >= 1 && IsMatrix(b, |b|, cols)
    requires MinOf(ColStds(st, b, cols)) >= 0.00000001 && MinOf(RowStds(st, b)) >= 0.00000001
    ensures Imbalance(st, b, cols) >= 2.0
    ensures Imbalance(st, b, cols) == 2.0 <==>
            && (forall i, j | 0 <= i < cols && 0 <= j < cols ::
                  st.std(Column(b, cols, i)) == st.std(Column(b, cols, j)))
            && (forall i, j | 0 <= i < |b| && 0 <= j < |b| :: st.std(b[i]) == st.std(b[j]))
  {
    hide MinOf, MaxOf, Spread;
    var u, v := ColStds(st, b, cols), RowStds(st, b);
    SpreadIsOneExactly(u);
    SpreadIsOneExactly(v);
    forall i | 0 <= i < cols ensures u[i] == st.std(Column(b, cols, i)) {}
    forall i | 0 <= i < |b| ensures v[i] == st.std(b[i]) {}
  }

  lemma SpreadIsOneExactly(v: Vec)
    requires v != [] && MinOf(v) >= 0.00000001
    ensures Spread(v) >= 1.0
    ensures Spread(v) == 1.0 <==> forall i, j | 0 <= i < |v| && 0 <= j < |v| :: v[i] == v[j]
  {
    hide MinOf, MaxOf;
    var lo, hi := MinOf(v), MaxOf(v);
    var i :| 0 <= i < |v| && v[i] == hi;
    var j :| 0 <= j < |v| && v[j] == lo;
    var q := hi / lo;
    assert q * lo == hi;
    if q < 1.0 { StrictProduct(q, 1.0, lo); }
    if q > 1.0 { StrictProduct(1.0, q, lo); }
  }

  // ----- single tile

  /** What the single-tile routine returns for `x`. */
  ghost predicate SingleResult(st: Stats, x: Tile, iters: nat, balanced: Matrix, sCol: Vec, sRow: Vec)
    requires Laws(st.e)
  {
    && ValidTile(x) && sCol == BestCol(st, x, iters) && sRow == BestRow(st, x, iters)
    && AllPositive(sCol) && AllPositive(sRow)
    && balanced == Balanced(x, sCol, sRow)
    && Scales(sCol, sRow) == Passes(st, x, BestAt(st, x, iters))
  }

  /** What is returned is balanced best among all rounds, and of equally good rounds it is the last. */
  lemma ResultIsLeast(st: Stats, x: Tile, iters: nat, balanced: Matrix, sCol: Vec, sRow: Vec, j: nat)
    requires Laws(st.e) && SingleResult(st, x, iters, balanced, sCol, sRow) && j <= iters
    ensures BestAt(st, x, iters) <= iters && Scales(sCol, sRow) == Passes(st, x, BestAt(st, x, iters))
    ensures var s := Passes(st, x, j);
            && Imbalance(st, balanced, x.cols) <= Imbalance(st, Balanced(x, s.col, s.row), x.cols)
            && (BestAt(st, x, iters) < j ==>
                Imbalance(st, balanced, x.cols) < Imbalance(st, Balanced(x, s.col, s.row), x.cols))
  {
    hide Laws, Visited, BestAt, Passes, Imbalance, Balanced;
    BestIsLeast(st, x, iters, j);
    VisitedIsPasses(st, x, j);
  }

  /** The loop over one tile: returns the scales of the least-imbalance iteration. */
  method VarianceNormalize(st: Stats, x: Tile, iters: nat) returns (balanced: Matrix, sCol: Vec, sRow: Vec)
    requires Laws(st.e) && ValidTile(x)
    ensures SingleResult(st, x, iters, balanced, sCol, sRow)
  {
    hide Laws, Next, Current, Imbalance, Balanced, Exps;
    var g := Logs(Zeros(x.cols), Zeros(|x.m|));
    var imbBest := Imbalance(st, Current(st, x, g), x.cols);
    sCol, sRow := Exps(st.e, g.col), Exps(st.e, g.row);
    var k := 0;
    while k < iters
      invariant k <= iters && g == Visited(st, x, k)
      invariant imbBest == ImbalanceAt(st, x, BestAt(st, x, k))
      invariant sCol == BestCol(st, x, k) && sRow == BestRow(st, x, k)
    {
      g := Next(st, x, g);
      var imb := Imbalance(st, Current(st, x, g), x.cols);
      k := k + 1;
      if imb <= imbBest {
        imbBest := imb;
        sCol, sRow := Exps(st.e, g.col), Exps(st.e, g.row);
      }
    }
    BestScalesInRange(st, x, iters);
    VisitedIsPasses(st, x, BestAt(st, x, iters));
    balanced := Balanced(x, sCol, sRow);
  }

  // ----- batch of tiles

  /** `mask * new + (1 - mask) * old`. */
  function Blend(mask: real, new_: Vec, old_: Vec): (v: Vec)
    requires |new_| == |old_|
    ensures |v| == |new_|
  {
    seq(|new_|, i requires 0 <= i < |new_| => mask * new_[i] + (1.0 - mask) * old_[i])
  }

  lemma BlendSelects(better: bool, new_: Vec, old_: Vec)
    requires |new_| == |old_|
    ensures Blend(if better then 1.0 else 0.0, new_, old_) == if better then new_ else old_
  {
    var v, w := Blend(if better then 1.0 else 0.0, new_, old_), if better then new_ else old_;
    forall i | 0 <= i < |new_| ensures v[i] == w[i] {
      if better { UnitBlend(new_[i], old_[i]); } else { UnitBlend(old_[i], new_[i]); }
    }
  }

  lemma UnitBlend(a: real, b: real)
    ensures 1.0 * a + (1.0 - 1.0) * b == a && 0.0 * b + (1.0 - 0.0) * a == a
  {
  }

  ghost predicate ValidBatch(tiles: seq<Tile>) { forall n | 0 <= n < |tiles| :: ValidTile(tiles[n]) }

  /** Per-tile loop state of the batched form after `k` iterations. */
  ghost predicate BatchAt(st: Stats, tiles: seq<Tile>, k: nat, g: seq<Logs>, imbBest: Vec, sc: seq<Vec>, sr: seq<Vec>)
    requires Laws(st.e) && ValidBatch(tiles)
  {
    && |g| == |imbBest| == |sc| == |sr| == |tiles|
    && forall n | 0 <= n < |tiles| :: TileAt(st, tiles[n], k, g[n], imbBest[n], sc[n], sr[n])
  }

  ghost predicate TileAt(st: Stats, x: Tile, k: nat, g: Logs, imbBest: real, sc: Vec, sr: Vec)
    requires Laws(st.e)
  {
    && ValidTile(x)
    && g == Visited(st, x, k) && imbBest == ImbalanceAt(st, x, BestAt(st, x, k))
    && sc == BestCol(st, x, k) && sr == BestRow(st, x, k)
  }

  /** The masked update of one tile is the single-tile update. */
  lemma TileStep(st: Stats, x: Tile, k: nat, g: Logs, imbBest: real, sc: Vec, sr: Vec)
    requires Laws(st.e) && TileAt(st, x, k, g, imbBest, sc, sr)
    ensures var g' := Next(st, x, g);
            var imb := Imbalance(st, Current(st, x, g'), x.cols);
            var mask := if imb <= imbBest then 1.0 else 0.0;
            && TileAt(st, x, k + 1, g', if imb <= imbBest then imb else imbBest,
                      Blend(mask, Exps(st.e, g'.col), sc), Blend(mask, Exps(st.e, g'.row), sr))
            && (imb > imbBest ==> TileAt(st, x, k + 1, g', imbBest, sc, sr))
  {
    hide Laws, Next, Current, Imbalance, Blend, Exps;
    var g' := Next(st, x, g);
    var better := Imbalance(st, Current(st, x, g'), x.cols) <= imbBest;
    BlendSelects(better, Exps(st.e, g'.col), sc);
    BlendSelects(better, Exps(st.e, g'.row), sr);
  }

  /** One iteration of the batched loop over all tiles, with the `better.any()` shortcut. */
  method BatchIteration(st: Stats, tiles: seq<Tile>, ghost k: nat, g: seq<Logs>, imbBest: Vec, sc: seq<Vec>,
                        sr: seq<Vec>)
    returns (g': seq<Logs>, imbBest': Vec, sc': seq<Vec>, sr': seq<Vec>)
    requires Laws(st.e) && ValidBatch(tiles) && BatchAt(st, tiles, k, g, imbBest, sc, sr)
    ensures BatchAt(st, tiles, k + 1, g', imbBest', sc', sr')
  {
    hide Laws, Next, Current, Imbalance, Blend, Exps, TileAt;
    g' := [];
    var imb: Vec, any := [], false;
    var n := 0;
    while n < |tiles|
      invariant n <= |tiles| && |g'| == |imb| == n
      invariant forall i | 0 <= i < n :: LogsFit(tiles[i], g[i]) && g'[i] == Next(st, tiles[i], g[i])
      invariant forall i | 0 <= i < n :: imb[i] == Imbalance(st, Current(st, tiles[i], g'[i]), tiles[i].cols)
      invariant any <==> exists i | 0 <= i < n :: imb[i] <= imbBest[i]
    {
      TileFits(st, tiles[n], k, g[n], imbBest[n], sc[n], sr[n]);
      g' := g' + [Next(st, tiles[n], g[n])];
      imb := imb + [Imbalance(st, Current(st, tiles[n], g'[n]), tiles[n].cols)];
      any := any || imb[n] <= imbBest[n];
      n := n + 1;
    }
    forall i | 0 <= i < |tiles|
      ensures TileAt(st, tiles[i], k, g[i], imbBest[i], sc[i], sr[i])
    {
    }
    if any {
      sc', sr', imbBest' := [], [], [];
      n := 0;
      while n < |tiles|
        invariant n <= |tiles| && |sc'| == |sr'| == |imbBest'| == n
        invariant forall i | 0 <= i < n :: TileAt(st, tiles[i], k + 1, g'[i], imbBest'[i], sc'[i], sr'[i])
      {
        TileStep(st, tiles[n], k, g[n], imbBest[n], sc[n], sr[n]);
        TileFits(st, tiles[n], k, g[n], imbBest[n], sc[n], sr[n]);
        var mask := if imb[n] <= imbBest[n] then 1.0 else 0.0;
        sc' := sc' + [Blend(mask, Exps(st.e, g'[n].col), sc[n])];
        sr' := sr' + [Blend(mask, Exps(st.e, g'[n].row), sr[n])];
        imbBest' := imbBest' + [if imb[n] <= imbBest[n] then imb[n] else imbBest[n]];
        n := n + 1;
      }
    } else {
      sc', sr', imbBest' := sc, sr, imbBest;
      forall i | 0 <= i < |tiles| ensures TileAt(st, tiles[i], k + 1, g'[i], imbBest'[i], sc'[i], sr'[i]) {
        TileStep(st, tiles[i], k, g[i], imbBest[i], sc[i], sr[i]);
      }
    }
  }

  lemma TileFits(st: Stats, x: Tile, k: nat, g: Logs, imbBest: real, sc: Vec, sr: Vec)
    requires Laws(st.e) && TileAt(st, x, k, g, imbBest, sc, sr)
    ensures ValidTile(x) && LogsFit(x, g) && LogsFit(x, Next(st, x, g))
    ensures |sc| == x.cols && |sr| == |x.m|
  {
  }

  lemma TileStart(st: Stats, x: Tile)
    requires Laws(st.e) && ValidTile(x)
    ensures var g := Logs(Zeros(x.cols), Zeros(|x.m|));
            LogsFit(x, g) && TileAt(st, x, 0, g, Imbalance(st, Current(st, x, g), x.cols), Exps(st.e, g.col),
                                    Exps(st.e, g.row))
  {
    hide Laws, Next, Current, Imbalance, Exps;
  }

  /**
   The batched form is exact: for every batch it returns, tile by tile, the scales that the
   single-tile routine returns for that tile.
   */
  method VarianceNormalizeBatched(st: Stats, tiles: seq<Tile>, iters: nat)
    returns (balanced: seq<Matrix>, sCol: seq<Vec>, sRow: seq<Vec>)
    requires Laws(st.e) && ValidBatch(tiles)
    ensures |balanced| == |sCol| == |sRow| == |tiles|
    ensures forall n | 0 <= n < |tiles| :: SingleResult(st, tiles[n], iters, balanced[n], sCol[n], sRow[n])
  {
    hide Laws, Next, Current, Imbalance, Exps, TileAt, BestCol, BestRow, Balanced;
    var g: seq<Logs>, imbBest: Vec := [], [];
    sCol, sRow := [], [];
    var n := 0;
    while n < |tiles|
      invariant n <= |tiles| && |g| == |imbBest| == |sCol| == |sRow| == n
      invariant forall i | 0 <= i < n :: TileAt(st, tiles[i], 0, g[i], imbBest[i], sCol[i], sRow[i])
    {
      TileStart(st, tiles[n]);
      var z := Logs(Zeros(tiles[n].cols), Zeros(|tiles[n].m|));
      g := g + [z];
      imbBest := imbBest + [Imbalance(st, Current(st, tiles[n], z), tiles[n].cols)];
      sCol, sRow := sCol + [Exps(st.e, z.col)], sRow + [Exps(st.e, z.row)];
      n := n + 1;
    }
    var k := 0;
    while k < iters
      invariant k <= iters && BatchAt(st, tiles, k, g, imbBest, sCol, sRow)
    {
      g, imbBest, sCol, sRow := BatchIteration(st, tiles, k, g, imbBest, sCol, sRow);
      k := k + 1;
    }
    balanced := [];
    n := 0;
    while n < |tiles|
      invariant n <= |tiles| && |balanced| == n
      invariant forall i | 0 <= i < n :: SingleResult(st, tiles[i], iters, balanced[i], sCol[i], sRow[i])
    {
      TileScales(st, tiles[n], iters, g[n], imbBest[n], sCol[n], sRow[n]);
      balanced := balanced + [Balanced(tiles[n], sCol[n], sRow[n])];
      n := n + 1;
    }
  }

  lemma TileScales(st: Stats, x: Tile, k: nat, g: Logs, imbBest: real, sc: Vec, sr: Vec)
    requires Laws(st.e) && TileAt(st, x, k, g, imbBest, sc, sr)
    ensures sc == BestCol(st, x, k) && sr == BestRow(st, x, k)
    ensures |sc| == x.cols && |sr| == |x.m| && AllPositive(sc) && AllPositive(sr)
    ensures Scales(sc, sr) == Passes(st, x, BestAt(st, x, k))
  {
    hide Laws, Visited, BestAt, Passes;
    BestScalesInRange(st, x, k);
    VisitedIsPasses(st, x, BestAt(st, x, k));
  }
}
