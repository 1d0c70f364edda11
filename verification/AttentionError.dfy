/**
 How far quantised rows can move attention: the error of a score, of the log-sum-exp and of an
 output channel, from entrywise bounds on the rows.
 */
module AttentionError {
  import opened Vectors
  import opened Floats
  import opened Softmax
  import opened TileRecord
  import opened DecodeMemory
  import opened Quantizer

  function Minus(u: Vec, v: Vec): (w: Vec)
    requires |u| == |v|
    ensures |w| == |u| && forall i | 0 <= i < |w| :: w[i] == u[i] - v[i]
  {
    seq(|u|, i requires 0 <= i < |u| => u[i] - v[i])
  }

  lemma DotMinus(u: Vec, v: Vec, y: Vec)
    requires |u| == |v| == |y|
    ensures Dot(Minus(u, v), y) == Dot(u, y) - Dot(v, y)
  {
    hide Dot, Minus, Add;
    assert Add(Minus(u, v), v) == u;
    DotAdd(Minus(u, v), v, y);
  }

  // ----- scores

  /** `(|q_lat| . bl + |q_rope| . br) * |sm|`. */
  function ScoreBound(q: Row, bl: Vec, br: Vec, sm: real): real
    requires |q.lat| == |bl| && |q.rope| == |br|
  {
    (Dot(AbsVec(q.lat), bl) + Dot(AbsVec(q.rope), br)) * Abs(sm)
  }

  /** The stored row is within the given entrywise bounds of the true one. */
  predicate RowWithin(stored: Row, row: Row, bl: Vec, br: Vec) {
    && |stored.lat| == |row.lat| == |bl| && |stored.rope| == |row.rope| == |br|
    && (forall c | 0 <= c < |bl| :: Abs(stored.lat[c] - row.lat[c]) <= bl[c])
    && (forall k | 0 <= k < |br| :: Abs(stored.rope[k] - row.rope[k]) <= br[k])
  }

  lemma DotDifference(u: Vec, v: Vec, y: Vec, b: Vec)
    requires |u| == |v| == |y| == |b| && forall i | 0 <= i < |b| :: Abs(u[i] - v[i]) <= b[i]
    ensures Abs(Dot(u, y) - Dot(v, y)) <= Dot(AbsVec(y), b)
  {
    hide Dot;
    DotMinus(u, v, y);
    DotCommutes(Minus(u, v), y);
    DotBound(y, Minus(u, v), b);
  }

  /** A score moves by at most the query-weighted sum of the entry bounds. */
  lemma ScoreError(q: Row, stored: Row, row: Row, bl: Vec, br: Vec, sm: real)
    requires RowWithin(stored, row, bl, br) && |q.lat| == |bl| && |q.rope| == |br|
    ensures Abs(Score(q, stored, sm) - Score(q, row, sm)) <= ScoreBound(q, bl, br, sm)
  {
    hide Dot;
    DotDifference(stored.lat, row.lat, q.lat, bl);
    DotDifference(stored.rope, row.rope, q.rope, br);
    var d := (Dot(stored.lat, q.lat) - Dot(row.lat, q.lat)) + (Dot(stored.rope, q.rope) - Dot(row.rope, q.rope));
    var b := Dot(AbsVec(q.lat), bl) + Dot(AbsVec(q.rope), br);
    AbsTriangle(Dot(stored.lat, q.lat) - Dot(row.lat, q.lat), Dot(stored.rope, q.rope) - Dot(row.rope, q.rope));
    AbsProduct(sm, d, b);
    ScoreAlgebra(Dot(stored.lat, q.lat) + Dot(stored.rope, q.rope), Dot(row.lat, q.lat) + Dot(row.rope, q.rope), sm, d);
  }

  lemma ScoreAlgebra(x: real, y: real, sm: real, d: real)
    requires d == x - y
    ensures x * sm - y * sm == sm * d
  {
  }

  // ----- log-sum-exp

  predicate ScoresWithin(a: Vec, b: Vec, delta: real) {
    |a| == |b| && forall i | 0 <= i < |a| :: Abs(a[i] - b[i]) <= delta
  }

  /** Scores raised by at most `delta` raise the mass by at most the factor `exp(delta)`. */
  lemma MassGrowth(e: ExpLog, a: Vec, b: Vec, delta: real)
    requires Laws(e) && ScoresWithin(a, b, delta)
    ensures forall i | 0 <= i < |a| :: Exps(e, b)[i] <= Times(e.exp(delta), Exps(e, a)[i])
    ensures Mass(e, b) <= Times(e.exp(delta), Mass(e, a))
  {
    hide Sum, Scale, Times, Laws;
    var k := e.exp(delta);
    var grown := Scale(k, Exps(e, a));
    forall i | 0 <= i < |a| ensures Exps(e, b)[i] <= Times(k, Exps(e, a)[i]) == grown[i] {
      ScaleAt(k, Exps(e, a), i);
      ExpGrowth(e, a[i], b[i], delta);
    }
    SumMonotone(Exps(e, b), grown);
    SumScale(k, Exps(e, a));
    TimesIs(k, Mass(e, a));
  }

  lemma TimesIs(a: real, b: real)
    ensures Times(a, b) == a * b
  {
  }

  lemma ExpGrowth(e: ExpLog, a: real, b: real, delta: real)
    requires Laws(e) && Abs(a - b) <= delta
    ensures e.exp(b) <= Times(e.exp(delta), e.exp(a)) == e.exp(delta) * e.exp(a)
  {
    ExpSum(e, delta, a, delta + a);
    ExpMonotone(e, b, delta + a);
  }

  lemma LseOneSided(e: ExpLog, a: Vec, b: Vec, delta: real)
    requires Laws(e) && ScoresWithin(a, b, delta) && a != []
    ensures LogSumExp(e, b) <= LogSumExp(e, a) + delta
  {
    hide Mass, Laws;
    MassGrowth(e, a, b, delta);
    MassPositive(e, a);
    MassPositive(e, b);
    var w := Times(e.exp(delta), Mass(e, a));
    assert e.exp(-(-delta)) == e.exp(delta) by { SameExp(e, delta, -(-delta)); }
    LogShift(e, -delta, Mass(e, a), w);
    LogMonotone(e, Mass(e, b), w);
  }

  lemma SameExp(e: ExpLog, a: real, b: real)
    requires a == b
    ensures e.exp(a) == e.exp(b)
  {
  }

  /** The log-sum-exp moves by at most the largest score error. */
  lemma LseError(e: ExpLog, a: Vec, b: Vec, delta: real)
    requires Laws(e) && ScoresWithin(a, b, delta) && a != []
    ensures Abs(LogSumExp(e, b) - LogSumExp(e, a)) <= delta
  {
    hide LogSumExp, Laws;
    LseOneSided(e, a, b, delta);
    LseOneSided(e, b, a, delta);
  }

  // ----- softmax weights

  /** The factor by which a softmax weight can change: `exp(delta)` squared. */
  function WeightFactor(e: ExpLog, delta: real): real { Times(e.exp(delta), e.exp(delta)) }

  lemma RatioGrowth(x: real, y: real, m: real, n: real, r: real, p: real, q: real)
    requires m > 0.0 && n > 0.0 && r > 0.0 && x >= 0.0
    requires y <= Times(r, x) && m <= Times(r, n) && p == (1.0 / m) * x && q == (1.0 / n) * y
    ensures q <= Times(Times(r, r), p)
  {
    var a, b := 1.0 / n, 1.0 / m;
    assert a * n == 1.0 && b * m == 1.0;
    // 1 / n <= r / m
    assert a <= r * b by { InverseGrowth(m, n, r); }
    RightMonotone(y, r * x, a);
    assert r * x >= 0.0 by { ProductNonNegative(r, x); }
    RightMonotone(a, r * b, r * x);
    Rearrange(r, b, x);
  }

  lemma ProductNonNegative(a: real, b: real)
    requires a >= 0.0 && b >= 0.0
    ensures a * b >= 0.0
  {
  }

  lemma InverseGrowth(m: real, n: real, r: real)
    requires m > 0.0 && n > 0.0 && m <= Times(r, n)
    ensures 1.0 / n <= r * (1.0 / m)
  {
    var a, b := 1.0 / n, 1.0 / m;
    assert a * n == 1.0 && b * m == 1.0;
    ProductPositive(a, b);
    RightMonotone(m, r * n, a * b);
    assert m * (a * b) == (b * m) * a;
    assert (r * n) * (a * b) == (a * n) * (r * b);
  }

  lemma Rearrange(r: real, b: real, x: real)
    ensures (r * b) * (r * x) == Times(Times(r, r), b * x)
  {
  }

  lemma WeightGrowth(e: ExpLog, a: Vec, b: Vec, delta: real, i: nat)
    requires Laws(e) && ScoresWithin(a, b, delta) && i < |a|
    ensures Mass(e, a) > 0.0 && Mass(e, b) > 0.0
    ensures SoftmaxOf(e, b)[i] <= Times(WeightFactor(e, delta), SoftmaxOf(e, a)[i])
  {
    hide Mass, Scale, Times, Laws, Exps;
    MassPositive(e, a);
    MassPositive(e, b);
    MassGrowth(e, a, b, delta);
    MassGrowth(e, b, a, delta);
    ScaleAt(1.0 / Mass(e, a), Exps(e, a), i);
    ScaleAt(1.0 / Mass(e, b), Exps(e, b), i);
    ExpsPositive(e, a, i);
    assert ExpPositive(e, delta) by { LawsGive(e, delta); }
    RatioGrowth(Exps(e, a)[i], Exps(e, b)[i], Mass(e, a), Mass(e, b), e.exp(delta), SoftmaxOf(e, a)[i],
                SoftmaxOf(e, b)[i]);
  }

  lemma LawsGive(e: ExpLog, a: real)
    requires Laws(e)
    ensures ExpPositive(e, a)
  {
  }

  lemma ExpsPositive(e: ExpLog, a: Vec, i: nat)
    requires Laws(e) && i < |a|
    ensures Exps(e, a)[i] > 0.0
  {
    assert ExpPositive(e, a[i]);
  }

  lemma FactorAtLeastOne(e: ExpLog, delta: real)
    requires Laws(e) && delta >= 0.0
    ensures WeightFactor(e, delta) >= 1.0
  {
    ExpZero(e, 0.0);
    ExpMonotone(e, 0.0, delta);
    var r := e.exp(delta);
    RightMonotone(1.0, r, r);
  }

  /** A softmax weight moves by at most `(exp(delta)^2 - 1)` times itself. */
  lemma WeightError(e: ExpLog, a: Vec, b: Vec, delta: real, i: nat)
    requires Laws(e) && ScoresWithin(a, b, delta) && i < |a|
    ensures Mass(e, a) > 0.0 && Mass(e, b) > 0.0
    ensures Abs(SoftmaxOf(e, b)[i] - SoftmaxOf(e, a)[i]) <= Times(WeightFactor(e, delta) - 1.0, SoftmaxOf(e, a)[i])
  {
    hide Mass, SoftmaxOf, Laws, WeightFactor;
    WeightGrowth(e, a, b, delta, i);
    WeightGrowth(e, b, a, delta, i);
    assert Abs(a[i] - b[i]) <= delta;
    FactorAtLeastOne(e, delta);
    SoftmaxIsDistribution(e, a);
    SoftmaxIsDistribution(e, b);
    RelativeError(SoftmaxOf(e, a)[i], SoftmaxOf(e, b)[i], WeightFactor(e, delta));
  }

  lemma RelativeError(p: real, q: real, k: real)
    requires p > 0.0 && q > 0.0 && k >= 1.0 && q <= Times(k, p) && p <= Times(k, q)
    ensures Abs(q - p) <= Times(k - 1.0, p)
  {
    if q < p {
      RightMonotone(q, p, k - 1.0);
    }
  }

  // ----- outputs

  lemma {:induction false} DotWeighted(p: Vec, v: Vec, big: real)
    requires |p| == |v| && forall i | 0 <= i < |p| :: p[i] >= 0.0 && Abs(v[i]) <= big
    ensures Abs(Dot(p, v)) <= Times(Sum(p), big)
  {
    hide Dot, Times;
    DotUnfold(p, v);
    if p == [] {
      TimesIs(0.0, big);
    } else {
      DotWeighted(p[1..], v[1..], big);
      EntryBound(p[0], v[0], p[0], big);
      AbsTriangle(p[0] * v[0], Dot(p[1..], v[1..]));
      TimesSplit(p[0], Sum(p[1..]), Sum(p), big);
    }
  }

  lemma {:induction false} DotPerturbed(p: Vec, d: Vec, v: Vec, k: real, big: real)
    requires |p| == |d| == |v| && k >= 0.0
    requires forall i | 0 <= i < |p| :: p[i] >= 0.0 && Abs(d[i]) <= Times(k, p[i]) && Abs(v[i]) <= big
    ensures Abs(Dot(d, v)) <= Times(Times(k, Sum(p)), big)
  {
    hide Dot, Times;
    DotUnfold(d, v);
    if p == [] {
      TimesIs(k, 0.0);
      TimesIs(0.0, big);
      assert Times(k, Sum(p)) == 0.0;
    } else {
      DotPerturbed(p[1..], d[1..], v[1..], k, big);
      EntryBound(d[0], v[0], Times(k, p[0]), big);
      AbsTriangle(d[0] * v[0], Dot(d[1..], v[1..]));
      SplitBound(k, p[0], Sum(p[1..]), Sum(p), big);
    }
  }

  lemma TimesSplit(x: real, y: real, z: real, b: real)
    requires z == x + y
    ensures Times(z, b) == Times(x, b) + Times(y, b)
  {
  }

  lemma EntryBound(d: real, v: real, a: real, b: real)
    requires Abs(d) <= a && Abs(v) <= b
    ensures Abs(d * v) <= Times(a, b)
  {
    AbsProduct(d, v, b);
    RightMonotone(Abs(d), a, b);
  }

  lemma SplitBound(k: real, x: real, y: real, z: real, b: real)
    requires z == x + y
    ensures Times(Times(k, z), b) == Times(Times(k, x), b) + Times(Times(k, y), b)
  {
    TimesDistributes(k, x, y);
    TimesDistributes(b, k * x, k * y);
  }

  /** Every entry of channel `c` is within `beta` of the true one, which is at most `big`. */
  predicate ChannelWithin(stored: Matrix, rows: Matrix, n: nat, c: nat, beta: real, big: real)
    requires c < n && IsMatrix(rows, |rows|, n) && IsMatrix(stored, |rows|, n)
  {
    forall t | 0 <= t < |rows| :: Abs(stored[t][c] - rows[t][c]) <= beta && Abs(rows[t][c]) <= big
  }

  /**
   An output channel moves by at most the row error plus the weight error times the size of the
   channel: `beta + (exp(delta)^2 - 1) * big`.
   */
  lemma OutputError(e: ExpLog, a: Vec, b: Vec, rows: Matrix, stored: Matrix, n: nat, c: nat,
                    delta: real, beta: real, big: real)
    requires Laws(e) && ScoresWithin(a, b, delta) && a != [] && c < n
    requires IsMatrix(rows, |a|, n) && IsMatrix(stored, |a|, n) && ChannelWithin(stored, rows, n, c, beta, big)
    ensures Mass(e, a) > 0.0 && Mass(e, b) > 0.0
    ensures Abs(Attend(e, b, stored, n)[c] - Attend(e, a, rows, n)[c])
         <= beta + Times(WeightFactor(e, delta) - 1.0, big)
  {
    hide Mass, SoftmaxOf, Dot, VecMat, Times, WeightFactor, Laws, Sum;
    SoftmaxIsDistribution(e, a);
    SoftmaxIsDistribution(e, b);
    var p, q := SoftmaxOf(e, a), SoftmaxOf(e, b);
    var v, w := Column(rows, n, c), Column(stored, n, c);
    VecMatColumn(p, rows, n, c);
    VecMatColumn(q, stored, n, c);
    DotMinus(w, v, q);
    DotCommutes(w, q);
    DotCommutes(v, q);
    DotMinus(q, p, v);
    DotWeightedColumn(q, w, v, beta);
    var k := WeightFactor(e, delta) - 1.0;
    forall i | 0 <= i < |a| ensures Abs(Minus(q, p)[i]) <= Times(k, p[i]) {
      WeightError(e, a, b, delta, i);
    }
    assert delta >= 0.0 by { assert Abs(a[0] - b[0]) <= delta; }
    FactorAtLeastOne(e, delta);
    DotPerturbed(p, Minus(q, p), v, k, big);
    TimesIs(1.0, beta);
    TimesIs(k, 1.0);
  }

  lemma DotWeightedColumn(q: Vec, w: Vec, v: Vec, beta: real)
    requires |q| == |w| == |v| && Sum(q) == 1.0 && forall i | 0 <= i < |q| :: q[i] > 0.0
    requires forall i | 0 <= i < |q| :: Abs(w[i] - v[i]) <= beta
    ensures Abs(Dot(Minus(w, v), q)) <= Times(1.0, beta)
  {
    hide Dot, Times, Sum;
    DotCommutes(Minus(w, v), q);
    DotWeighted(q, Minus(w, v), beta);
  }
}
