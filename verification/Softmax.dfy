/**
 Plain softmax attention over a list of scores and value rows, and the online form: a running
 maximum, a running sum and a running accumulator that are rescaled chunk by chunk.
 */
module Softmax {
  import opened Vectors
  import opened Floats

  // ----- the reference: exponentiate, normalise, combine

  /** Total exponential mass. */
  function Mass(e: ExpLog, scores: Vec): real { Sum(Exps(e, scores)) }

  function SoftmaxOf(e: ExpLog, scores: Vec): (p: Vec)
    requires Mass(e, scores) != 0.0
    ensures |p| == |scores|
  {
    Scale(1.0 / Mass(e, scores), Exps(e, scores))
  }

  /** `softmax(scores) @ rows`. */
  function Attend(e: ExpLog, scores: Vec, rows: Matrix, n: nat): (o: Vec)
    requires IsMatrix(rows, |scores|, n) && Mass(e, scores) != 0.0
    ensures |o| == n
  {
    VecMat(SoftmaxOf(e, scores), rows, n)
  }

  function LogSumExp(e: ExpLog, scores: Vec): real { e.log(Mass(e, scores)) }

  lemma MassPositive(e: ExpLog, scores: Vec)
    requires Laws(e)
    ensures Mass(e, scores) >= 0.0
    ensures scores != [] ==> Mass(e, scores) > 0.0
  {
    var w := Exps(e, scores);
    forall i | 0 <= i < |w| ensures w[i] > 0.0 { assert ExpPositive(e, scores[i]); }
    SumNonNegative(w);
    if scores != [] { assert w[0] > 0.0; }
  }

  lemma MassConcat(e: ExpLog, a: Vec, b: Vec)
    ensures Exps(e, a + b) == Exps(e, a) + Exps(e, b)
    ensures Mass(e, a + b) == Mass(e, a) + Mass(e, b)
  {
    SumConcat(Exps(e, a), Exps(e, b));
    assert Exps(e, a + b) == Exps(e, a) + Exps(e, b);
  }

  /** Softmax weights are non-negative and sum to one. */
  lemma SoftmaxIsDistribution(e: ExpLog, scores: Vec)
    requires Laws(e) && scores != []
    ensures Mass(e, scores) > 0.0
    ensures Sum(SoftmaxOf(e, scores)) == 1.0
    ensures forall i | 0 <= i < |scores| :: SoftmaxOf(e, scores)[i] > 0.0
  {
    hide Scale, Sum;
    MassPositive(e, scores);
    var s := Mass(e, scores);
    SumScale(1.0 / s, Exps(e, scores));
    forall i | 0 <= i < |scores| ensures SoftmaxOf(e, scores)[i] > 0.0 {
      ScaleAt(1.0 / s, Exps(e, scores), i);
      assert ExpPositive(e, scores[i]);
      ProductPositive(1.0 / s, Exps(e, scores)[i]);
    }
  }

  // ----- what attention is, said without the functions above

  /** The weight of a key: the exponential of its scaled dot product with the query. */
  function KeyWeight(e: ExpLog, key: Vec, q: Vec, sm: real): real
    requires |key| == |q|
  {
    e.exp(sm * Dot(q, key))
  }

  function KeyWeights(e: ExpLog, keys: Matrix, q: Vec, sm: real): Vec
    requires IsMatrix(keys, |keys|, |q|)
  {
    seq(|keys|, i requires 0 <= i < |keys| => KeyWeight(e, keys[i], q, sm))
  }

  /**
   `o` and `lse` are the attention of query `q` over keys and values: with every key weighted by the
   exponential of its scaled dot product with the query, `o` is the weighted mean of the values and
   `lse` the logarithm of the total weight.
   */
  ghost predicate Attends(e: ExpLog, keys: Matrix, values: Matrix, q: Vec, sm: real, o: Vec, lse: real) {
    && IsMatrix(keys, |keys|, |q|) && IsMatrix(values, |keys|, |o|)
    && var w := KeyWeights(e, keys, q, sm);
       && e.exp(lse) == Sum(w)
       && forall c | 0 <= c < |o| :: o[c] * Sum(w) == Dot(w, Column(values, |o|, c))
  }

  lemma KeyWeightIsExp(e: ExpLog, key: Vec, q: Vec, sm: real, score: real)
    requires |key| == |q| && score == sm * Dot(q, key)
    ensures KeyWeight(e, key, q, sm) == e.exp(score)
  {
    hide Dot;
    SameExp(e, sm * Dot(q, key), score);
  }

  lemma SameExp(e: ExpLog, a: real, b: real)
    requires a == b
    ensures e.exp(a) == e.exp(b)
  {
  }

  lemma KeyWeightsAreExps(e: ExpLog, keys: Matrix, q: Vec, sm: real, scores: Vec)
    requires IsMatrix(keys, |scores|, |q|)
    requires forall i | 0 <= i < |scores| :: scores[i] == sm * Dot(q, keys[i])
    ensures KeyWeights(e, keys, q, sm) == Exps(e, scores)
  {
    hide Dot, KeyWeight;
    forall i | 0 <= i < |scores| ensures KeyWeights(e, keys, q, sm)[i] == Exps(e, scores)[i] {
      KeyWeightIsExp(e, keys[i], q, sm, scores[i]);
    }
  }

  /** Softmax attention is that, when the scores are the scaled dot products. */
  lemma AttendIsAttention(e: ExpLog, keys: Matrix, values: Matrix, q: Vec, sm: real, scores: Vec, n: nat)
    requires Laws(e) && scores != [] && IsMatrix(keys, |scores|, |q|) && IsMatrix(values, |scores|, n)
    requires forall i | 0 <= i < |scores| :: scores[i] == sm * Dot(q, keys[i])
    ensures Mass(e, scores) > 0.0
    ensures Attends(e, keys, values, q, sm, Attend(e, scores, values, n), LogSumExp(e, scores))
  {
    hide Dot, VecMat, Scale, Sum, KeyWeight, KeyWeights, Exps;
    MassPositive(e, scores);
    var w := KeyWeights(e, keys, q, sm);
    KeyWeightsAreExps(e, keys, q, sm, scores);
    var o, m := Attend(e, scores, values, n), Mass(e, scores);
    ExpOfLog(e, m);
    forall c | 0 <= c < n ensures o[c] * m == Dot(w, Column(values, n, c)) {
      VecMatColumn(SoftmaxOf(e, scores), values, n, c);
      DotScale(1.0 / m, w, Column(values, n, c));
      UndoDivision(Dot(w, Column(values, n, c)), m);
    }
  }

  lemma UndoDivision(x: real, m: real)
    requires m > 0.0
    ensures 1.0 / m * x * m == x
  {
  }

  // ----- shifted weights

  /** `exp(score - m)`, entrywise. */
  function Weights(e: ExpLog, scores: Vec, m: real): (w: Vec)
    ensures |w| == |scores| && forall i | 0 <= i < |w| :: w[i] == e.exp(scores[i] - m)
  {
    seq(|scores|, i requires 0 <= i < |scores| => e.exp(scores[i] - m))
  }

  lemma WeightsConcat(e: ExpLog, a: Vec, b: Vec, m: real)
    ensures Weights(e, a + b, m) == Weights(e, a, m) + Weights(e, b, m)
  {
  }

  /** Moving the reference point from `a` to `b` multiplies every weight by `exp(a - b)`. */
  lemma WeightsRescale(e: ExpLog, scores: Vec, a: real, b: real)
    requires Laws(e)
    ensures Weights(e, scores, b) == Scale(e.exp(a - b), Weights(e, scores, a))
  {
    hide Scale;
    var w := Weights(e, scores, a);
    forall i | 0 <= i < |scores| ensures Weights(e, scores, b)[i] == Scale(e.exp(a - b), w)[i] {
      ExpSum(e, scores[i] - a, a - b, scores[i] - b);
      ScaleAt(e.exp(a - b), w, i);
    }
  }

  lemma WeightsOfExps(e: ExpLog, scores: Vec, m: real)
    requires Laws(e)
    ensures Weights(e, scores, m) == Scale(e.exp(-m), Exps(e, scores))
  {
    hide Scale;
    var w := Exps(e, scores);
    forall i | 0 <= i < |scores| ensures Weights(e, scores, m)[i] == Scale(e.exp(-m), w)[i] {
      ExpSum(e, scores[i], -m, scores[i] - m);
      ScaleAt(e.exp(-m), w, i);
    }
  }

  /** Dividing by the shifted mass gives softmax attention, whatever the shift. */
  lemma NormaliseWeights(e: ExpLog, scores: Vec, rows: Matrix, n: nat, m: real)
    requires Laws(e) && scores != [] && IsMatrix(rows, |scores|, n)
    ensures Mass(e, scores) > 0.0 && Sum(Weights(e, scores, m)) > 0.0
    ensures Sum(Weights(e, scores, m)) == e.exp(-m) * Mass(e, scores)
    ensures Scale(1.0 / Sum(Weights(e, scores, m)), VecMat(Weights(e, scores, m), rows, n))
         == Attend(e, scores, rows, n)
    ensures m + e.log(Sum(Weights(e, scores, m))) == LogSumExp(e, scores)
  {
    hide Scale, VecMat, Sum;
    var k, x, s := e.exp(-m), Exps(e, scores), Mass(e, scores);
    MassPositive(e, scores);
    assert ExpPositive(e, -m);
    WeightsOfExps(e, scores, m);
    SumScale(k, x);
    VecMatScale(k, x, rows, n);
    VecMatScale(1.0 / s, x, rows, n);
    var t := Sum(Weights(e, scores, m));
    ProductPositive(k, s);
    CancelFactor(k, s, t);
    ScaleScale(1.0 / t, k, 1.0 / s, VecMat(x, rows, n));
    LogShift(e, m, s, t);
  }

  lemma CancelFactor(k: real, s: real, t: real)
    requires k > 0.0 && s > 0.0 && t == k * s
    ensures t > 0.0 && 1.0 / s == (1.0 / t) * k
  {
    assert t > 0.0;
    var a := 1.0 / t;
    assert a * t == 1.0;
    assert (a * k) * s == a * (k * s);
  }

  // ----- the online form

  /**
   The loop state `(eMax, eSum, acc)` stands for exactly the given tokens: no token yet, or
   `eMax` is the largest score seen, and `eSum` and `acc` are the exact sums of `exp(score - eMax)`
   and of `exp(score - eMax) * row`.
   */
  ghost predicate Represents(e: ExpLog, eMax: Float, eSum: Float, acc: seq<Float>,
                             scores: Vec, rows: Matrix, n: nat)
  {
    && IsMatrix(rows, |scores|, n)
    && if scores == [] then
         eMax == NegInf && eSum == Fin(0.0) && acc == Lift(Zeros(n))
       else
         && eMax.Fin? && IsMax(eMax.v, scores)
         && eSum == Fin(Sum(Weights(e, scores, eMax.v)))
         && acc == Lift(VecMat(Weights(e, scores, eMax.v), rows, n))
  }

  /** `maximum(e_max, max(score))`. */
  function NewMax(eMax: Float, scores: seq<Float>): Float { FMax(eMax, FMaxAll(scores)) }

  /** `exp(score - new_max)`. */
  function ChunkWeights(e: ExpLog, scores: seq<Float>, newMax: Float): (p: seq<Float>)
    ensures |p| == |scores|
  {
    seq(|scores|, i requires 0 <= i < |scores| => FExp(e, FSub(scores[i], newMax)))
  }

  /** `e_sum * alpha + sum(p)`. */
  function NewSum(eSum: Float, alpha: Float, p: seq<Float>): Float { FAdd(FMul(eSum, alpha), FSum(p)) }

  /** `acc * alpha + sum(p[:, None] * rows, axis=0)`. */
  function NewAcc(acc: seq<Float>, alpha: Float, p: seq<Float>, rows: Matrix): (r: seq<Float>)
    requires IsMatrix(rows, |p|, |acc|)
    ensures |r| == |acc|
  {
    seq(|acc|, c requires 0 <= c < |acc| => FAdd(FMul(acc[c], alpha), FColumnSum(p, rows, |acc|, c)))
  }

  /** Weights of a masked chunk: the shifted weights of its tokens, zero for the masked lanes. */
  lemma ChunkWeightsMasked(e: ExpLog, ts: Vec, pad: nat, m: real)
    ensures ChunkWeights(e, Lift(ts) + AllNegInf(pad), Fin(m)) == Lift(Weights(e, ts, m) + Zeros(pad))
  {
  }

  lemma MaskedSum(w: Vec, pad: nat)
    ensures Sum(w + Zeros(pad)) == Sum(w)
  {
    SumConcat(w, Zeros(pad));
    SumZeros(pad);
  }

  lemma MaskedVecMat(w: Vec, ls: Matrix, pad: nat, n: nat)
    requires IsMatrix(ls, |w|, n)
    ensures IsMatrix(ls + ZeroRows(pad, n), |w + Zeros(pad)|, n)
    ensures VecMat(w + Zeros(pad), ls + ZeroRows(pad, n), n) == VecMat(w, ls, n)
  {
    hide VecMat;
    VecMatConcat(w, Zeros(pad), ls, ZeroRows(pad, n), n);
    VecMatZeroRows(Zeros(pad), ZeroRows(pad, n), n);
    AddZeros(VecMat(w, ls, n));
  }

  /** The new maximum of a step that sees at least one token is finite and is the maximum so far. */
  lemma NewMaxIsMax(eMax: Float, ss: Vec, ts: Vec, pad: nat)
    requires ss + ts != []
    requires if ss == [] then eMax == NegInf else eMax.Fin? && IsMax(eMax.v, ss)
    ensures var m := NewMax(eMax, Lift(ts) + AllNegInf(pad)); m.Fin? && IsMax(m.v, ss + ts)
  {
    FMaxAllMasked(ts, pad);
    var m := NewMax(eMax, Lift(ts) + AllNegInf(pad));
    assert m.Fin? && (m.v in ss || m.v in ts);
    forall i | 0 <= i < |ss + ts| ensures (ss + ts)[i] <= m.v {
      if i >= |ss| { assert (ss + ts)[i] == ts[i - |ss|]; }
    }
  }

  lemma FinProduct(x: real, k: real, y: real)
    requires y == k * x
    ensures FMul(Fin(x), Fin(k)) == Fin(y)
  {
  }

  /** Old sum and accumulator, rescaled to the new maximum (zero when nothing was seen). */
  lemma Rescaled(e: ExpLog, eMax: Float, eSum: Float, acc: seq<Float>, ss: Vec, ks: Matrix, n: nat, b: real)
    requires Laws(e) && Represents(e, eMax, eSum, acc, ss, ks, n)
    ensures var alpha := FExp(e, FSub(eMax, Fin(b)));
            && FMul(eSum, alpha) == Fin(Sum(Weights(e, ss, b)))
            && forall c | 0 <= c < n :: FMul(acc[c], alpha) == Fin(VecMat(Weights(e, ss, b), ks, n)[c])
  {
    hide Scale, VecMat, Sum, Weights;
    var w := Weights(e, ss, b);
    if ss == [] {
      assert w == [] && ks == [];
      VecMatUnfold(w, ks, n);
      SumEmpty(w);
    } else {
      hide FMul;
      var a := eMax.v;
      var old_w, k := Weights(e, ss, a), e.exp(a - b);
      WeightsRescale(e, ss, a, b);
      SumScale(k, old_w);
      FinProduct(Sum(old_w), k, Sum(w));
      VecMatScale(k, old_w, ks, n);
      forall c | 0 <= c < n ensures FMul(acc[c], Fin(k)) == Fin(VecMat(w, ks, n)[c]) {
        ScaleAt(k, VecMat(old_w, ks, n), c);
        FinProduct(VecMat(old_w, ks, n)[c], k, VecMat(w, ks, n)[c]);
      }
    }
  }

  lemma SumEmpty(w: Vec)
    requires w == []
    ensures Sum(w) == 0.0
  {
  }

  lemma ChunkSum(e: ExpLog, eSum: Float, alpha: Float, ss: Vec, ts: Vec, pad: nat, b: real)
    requires FMul(eSum, alpha) == Fin(Sum(Weights(e, ss, b)))
    ensures NewSum(eSum, alpha, Lift(Weights(e, ts, b) + Zeros(pad))) == Fin(Sum(Weights(e, ss + ts, b)))
  {
    hide Sum, FSum;
    var w := Weights(e, ts, b);
    WeightsConcat(e, ss, ts, b);
    FSumLift(w + Zeros(pad));
    MaskedSum(w, pad);
    SumConcat(Weights(e, ss, b), w);
  }

  lemma ChunkAcc(e: ExpLog, acc: seq<Float>, alpha: Float, ss: Vec, ks: Matrix, ts: Vec, ls: Matrix,
                 pad: nat, n: nat, b: real)
    requires |acc| == n && IsMatrix(ks, |ss|, n) && IsMatrix(ls, |ts|, n)
    requires forall c | 0 <= c < n :: FMul(acc[c], alpha) == Fin(VecMat(Weights(e, ss, b), ks, n)[c])
    ensures IsMatrix(ls + ZeroRows(pad, n), |ts| + pad, n)
    ensures NewAcc(acc, alpha, Lift(Weights(e, ts, b) + Zeros(pad)), ls + ZeroRows(pad, n))
         == Lift(VecMat(Weights(e, ss + ts, b), ks + ls, n))
  {
    hide VecMat, FColumnSum, Lift, Add;
    var w, rows := Weights(e, ts, b), ls + ZeroRows(pad, n);
    WeightsConcat(e, ss, ts, b);
    MaskedVecMat(w, ls, pad, n);
    VecMatConcat(Weights(e, ss, b), w, ks, ls, n);
    var all := VecMat(Weights(e, ss + ts, b), ks + ls, n);
    var acc' := NewAcc(acc, alpha, Lift(w + Zeros(pad)), rows);
    forall c | 0 <= c < n ensures acc'[c] == Fin(all[c]) {
      FColumnSumLift(w + Zeros(pad), rows, n, c);
    }
    assert acc' == Lift(all);
  }

  /**
   One chunk of the loop, with `pad` masked lanes: the updated state stands for the tokens seen
   before followed by the chunk's tokens. A fully masked chunk (`ts == []`) changes nothing that
   the state stands for, provided some token came before it.
   */
  lemma ChunkStep(e: ExpLog, eMax: Float, eSum: Float, acc: seq<Float>, ss: Vec, ks: Matrix,
                  ts: Vec, ls: Matrix, pad: nat, n: nat)
    requires Laws(e) && Represents(e, eMax, eSum, acc, ss, ks, n)
    requires IsMatrix(ls, |ts|, n) && ss + ts != []
    ensures var scores := Lift(ts) + AllNegInf(pad);
            var rows := ls + ZeroRows(pad, n);
            var m := NewMax(eMax, scores);
            var alpha := FExp(e, FSub(eMax, m));
            var p := ChunkWeights(e, scores, m);
            && IsMatrix(rows, |p|, |acc|)
            && Represents(e, m, NewSum(eSum, alpha, p), NewAcc(acc, alpha, p, rows), ss + ts, ks + ls, n)
  {
    hide VecMat, Sum, NewAcc, NewSum, NewMax, ChunkWeights, Weights, FExp, FSub, FMul, IsMax, Laws, Lift;
    var scores := Lift(ts) + AllNegInf(pad);
    NewMaxIsMax(eMax, ss, ts, pad);
    var m := NewMax(eMax, scores);
    assert m == Fin(m.v);
    var alpha := FExp(e, FSub(eMax, m));
    ChunkWeightsMasked(e, ts, pad, m.v);
    Rescaled(e, eMax, eSum, acc, ss, ks, n, m.v);
    ChunkSum(e, eSum, alpha, ss, ts, pad, m.v);
    ChunkAcc(e, acc, alpha, ss, ks, ts, ls, pad, n, m.v);
  }

  /** After at least one token the running sum is at least one: the largest weight is `exp(0)`. */
  lemma RunningSumAtLeastOne(e: ExpLog, eMax: Float, eSum: Float, acc: seq<Float>,
                             scores: Vec, rows: Matrix, n: nat)
    requires Laws(e) && Represents(e, eMax, eSum, acc, scores, rows, n) && scores != []
    ensures eSum.Fin? && eSum.v >= 1.0
    ensures forall i | 0 <= i < |scores| :: 0.0 < Weights(e, scores, eMax.v)[i] <= 1.0
  {
    hide VecMat, Sum;
    var w := Weights(e, scores, eMax.v);
    forall i | 0 <= i < |scores| ensures 0.0 < w[i] <= 1.0 {
      ExpZero(e, 0.0);
      assert ExpPositive(e, scores[i] - eMax.v);
      ExpMonotone(e, scores[i] - eMax.v, 0.0);
    }
    SumNonNegative(w);
    var k :| 0 <= k < |scores| && scores[k] == eMax.v;
    ExpZero(e, scores[k] - eMax.v);
    assert w[k] <= Sum(w);
  }

  /** Normalising the final state gives softmax attention and its log-sum-exp, both finite. */
  lemma Finish(e: ExpLog, eMax: Float, eSum: Float, acc: seq<Float>, scores: Vec, rows: Matrix, n: nat)
    requires Laws(e) && Represents(e, eMax, eSum, acc, scores, rows, n) && scores != []
    ensures Mass(e, scores) > 0.0
    ensures eSum.Fin? && eSum.v > 0.0 && |acc| == n
    ensures forall c | 0 <= c < n :: FDiv(acc[c], eSum) == Fin(Attend(e, scores, rows, n)[c])
    ensures FAdd(eMax, FLog(e, eSum)) == Fin(LogSumExp(e, scores))
  {
    hide VecMat, Sum, Scale, Attend;
    var w := Weights(e, scores, eMax.v);
    NormaliseWeights(e, scores, rows, n, eMax.v);
    forall c | 0 <= c < n ensures FDiv(acc[c], eSum) == Fin(Attend(e, scores, rows, n)[c]) {
      ScaleAt(1.0 / Sum(w), VecMat(w, rows, n), c);
      DivideIsScale(VecMat(w, rows, n)[c], Sum(w));
    }
  }

  lemma DivideIsScale(x: real, s: real)
    requires s != 0.0
    ensures x / s == (1.0 / s) * x
  {
  }
}
