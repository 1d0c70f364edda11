/**
 Recombining normalised partial attention results by their log-sum-exps (stage 2 of the split-K
 and grouped-head kernels).
 */
module Recombine {
  import opened Vectors
  import opened Floats
  import opened Softmax

  /** A run of consecutive tokens: their scores and latent rows. */
  datatype Segment = Segment(scores: Vec, rows: Matrix)

  predicate SegmentsFit(segs: seq<Segment>, n: nat) {
    forall s | 0 <= s < |segs| :: IsMatrix(segs[s].rows, |segs[s].scores|, n)
  }

  /** All tokens of the segments, in order. */
  ghost function Join(segs: seq<Segment>): (j: Segment) {
    if segs == [] then Segment([], [])
    else
      var rest, last := Join(segs[..|segs| - 1]), segs[|segs| - 1];
      Segment(rest.scores + last.scores, rest.rows + last.rows)
  }

  lemma {:induction false} JoinFits(segs: seq<Segment>, n: nat)
    requires SegmentsFit(segs, n)
    ensures IsMatrix(Join(segs).rows, |Join(segs).scores|, n)
  {
    if segs != [] {
      JoinFits(segs[..|segs| - 1], n);
    }
  }

  lemma JoinStep(segs: seq<Segment>, k: nat)
    requires k < |segs|
    ensures Join(segs[..k + 1])
         == Segment(Join(segs[..k]).scores + segs[k].scores, Join(segs[..k]).rows + segs[k].rows)
  {
    assert segs[..k + 1][..k] == segs[..k];
  }

  /** A split's stored pair: nothing for an empty range, else its attention and log-sum-exp. */
  ghost predicate PartialOf(e: ExpLog, o: seq<Float>, lse: Float, scores: Vec, rows: Matrix, n: nat) {
    && IsMatrix(rows, |scores|, n)
    && if scores == [] then o == Lift(Zeros(n)) && lse == NegInf
       else
         && Mass(e, scores) > 0.0
         && o == Lift(Attend(e, scores, rows, n))
         && lse == Fin(LogSumExp(e, scores))
  }

  /** Every split's stored pair is that of its segment. */
  ghost predicate Partials(e: ExpLog, partO: seq<seq<Float>>, partLse: seq<Float>, segs: seq<Segment>, n: nat) {
    && |partO| == |partLse| == |segs|
    && forall s | 0 <= s < |segs| :: PartialOf(e, partO[s], partLse[s], segs[s].scores, segs[s].rows, n)
  }

  lemma PartialsFit(e: ExpLog, partO: seq<seq<Float>>, partLse: seq<Float>, segs: seq<Segment>, n: nat)
    requires Partials(e, partO, partLse, segs, n)
    ensures SegmentsFit(segs, n)
    ensures forall s | 0 <= s < |segs| :: |partO[s]| == n
    ensures forall s | 0 <= s < |segs| :: if segs[s].scores == [] then partLse[s].NegInf? else partLse[s].Fin?
  {
    hide Mass, Attend, LogSumExp;
    forall s | 0 <= s < |segs|
      ensures IsMatrix(segs[s].rows, |segs[s].scores|, n) && |partO[s]| == n
      ensures if segs[s].scores == [] then partLse[s].NegInf? else partLse[s].Fin?
    {
      assert PartialOf(e, partO[s], partLse[s], segs[s].scores, segs[s].rows, n);
    }
  }

  ghost function Masses(e: ExpLog, segs: seq<Segment>): (v: Vec)
    ensures |v| == |segs| && forall s | 0 <= s < |segs| :: v[s] == Mass(e, segs[s].scores)
  {
    seq(|segs|, s requires 0 <= s < |segs| => Mass(e, segs[s].scores))
  }

  /** The masses of the segments add up to the mass of all tokens. */
  lemma {:induction false} MassesTotal(e: ExpLog, segs: seq<Segment>)
    ensures Sum(Masses(e, segs)) == Mass(e, Join(segs).scores)
  {
    hide Mass, Sum;
    if segs == [] {
      SumEmpty(Masses(e, segs));
      MassEmpty(e, []);
    } else {
      var k := |segs| - 1;
      var rest := segs[..k];
      MassesTotal(e, rest);
      MassConcat(e, Join(rest).scores, segs[k].scores);
      var last: Vec := [Mass(e, segs[k].scores)];
      assert Masses(e, segs) == Masses(e, rest) + last;
      SumConcat(Masses(e, rest), last);
      SumOne(last[0]);
    }
  }

  lemma SumOne(x: real)
    ensures Sum([x]) == x
  {
    assert [x][1..] == [];
  }

  lemma MassEmpty(e: ExpLog, v: Vec)
    requires v == []
    ensures Mass(e, v) == 0.0
  {
  }

  lemma {:induction false} SomeNonEmpty(segs: seq<Segment>) returns (i: nat)
    requires Join(segs).scores != []
    ensures i < |segs| && segs[i].scores != []
  {
    var k := |segs| - 1;
    if segs[k].scores != [] { i := k; } else { i := SomeNonEmpty(segs[..k]); }
  }

  /** A maximum over finite values and minus infinities, at least one of them finite, is finite. */
  lemma {:induction false} FMaxAllFinite(xs: seq<Float>, i: nat)
    requires i < |xs| && xs[i].Fin? && forall k | 0 <= k < |xs| :: xs[k].Fin? || xs[k].NegInf?
    ensures FMaxAll(xs).Fin?
  {
    if i == 0 {
      FMaxAllNoNaN(xs[1..]);
    } else {
      FMaxAllFinite(xs[1..], i - 1);
    }
  }

  lemma {:induction false} FMaxAllNoNaN(xs: seq<Float>)
    requires forall k | 0 <= k < |xs| :: xs[k].Fin? || xs[k].NegInf?
    ensures FMaxAll(xs).Fin? || FMaxAll(xs).NegInf?
  {
    if xs != [] { FMaxAllNoNaN(xs[1..]); }
  }

  /** `exp(lse - gm)` is the split's mass times `exp(-gm)`, for empty splits too. */
  lemma SplitWeight(e: ExpLog, o: seq<Float>, lse: Float, scores: Vec, rows: Matrix, n: nat, gm: real)
    requires Laws(e) && PartialOf(e, o, lse, scores, rows, n)
    ensures FExp(e, FSub(lse, Fin(gm))) == Fin(e.exp(-gm) * Mass(e, scores))
  {
    hide Mass, Attend;
    if scores == [] {
      MassEmpty(e, scores);
    } else {
      var m := Mass(e, scores);
      ExpOfLog(e, m);
      ExpSum(e, -gm, e.log(m), e.log(m) - gm);
      assert FSub(lse, Fin(gm)) == Fin(e.log(m) + -gm);
      assert e.log(m) + -gm == e.log(m) - gm;
    }
  }

  function ExpAll(e: ExpLog, lse: seq<Float>, gm: Float): (w: seq<Float>)
    ensures |w| == |lse| && forall s | 0 <= s < |w| :: w[s] == FExp(e, FSub(lse[s], gm))
  {
    seq(|lse|, s requires 0 <= s < |lse| => FExp(e, FSub(lse[s], gm)))
  }

  /** `sum(where(s_off == s, w, 0))`. */
  function Pick(w: seq<Float>, s: nat): Float {
    FSum(seq(|w|, k requires 0 <= k < |w| => if k == s then w[k] else Fin(0.0)))
  }

  function OneHot(w: Vec, s: nat): (v: Vec)
    ensures |v| == |w| && forall k | 0 <= k < |w| :: v[k] == if k == s then w[k] else 0.0
  {
    seq(|w|, k requires 0 <= k < |w| => if k == s then w[k] else 0.0)
  }

  lemma {:induction false} OneHotSum(w: Vec, s: nat)
    requires s < |w|
    ensures Sum(OneHot(w, s)) == w[s]
  {
    if s == 0 {
      assert OneHot(w, 0)[1..] == Zeros(|w| - 1);
      SumZeros(|w| - 1);
    } else {
      OneHotSum(w[1..], s - 1);
      assert OneHot(w, s)[1..] == OneHot(w[1..], s - 1);
    }
  }

  lemma PickLift(w: Vec, s: nat)
    requires s < |w|
    ensures Pick(Lift(w), s) == Fin(w[s])
  {
    hide FSum, Sum;
    OneHotSum(w, s);
    FSumLift(OneHot(w, s));
    assert seq(|w|, k requires 0 <= k < |w| => if k == s then Lift(w)[k] else Fin(0.0)) == Lift(OneHot(w, s));
  }

  /** The weights are the masses times `exp(-gm)`. */
  lemma WeightsAreMasses(e: ExpLog, partO: seq<seq<Float>>, partLse: seq<Float>, segs: seq<Segment>, n: nat, gm: real)
    requires Laws(e) && Partials(e, partO, partLse, segs, n)
    ensures ExpAll(e, partLse, Fin(gm)) == Lift(Scale(e.exp(-gm), Masses(e, segs)))
  {
    hide Mass, Scale, PartialOf, FExp, FSub, Laws;
    var k, masses := e.exp(-gm), Masses(e, segs);
    forall s | 0 <= s < |segs| ensures ExpAll(e, partLse, Fin(gm))[s] == Lift(Scale(k, masses))[s] {
      SplitWeight(e, partO[s], partLse[s], segs[s].scores, segs[s].rows, n, gm);
      ScaleAt(k, masses, s);
    }
  }

  /** Global maximum, sum of weights, combined log-sum-exp: all finite once some token exists. */
  lemma WeightsTotal(e: ExpLog, partO: seq<seq<Float>>, partLse: seq<Float>, segs: seq<Segment>, n: nat)
    requires Laws(e) && Partials(e, partO, partLse, segs, n) && Join(segs).scores != []
    ensures FMaxAll(partLse).Fin?
    ensures var gm := FMaxAll(partLse);
            var k, total := e.exp(-gm.v), Mass(e, Join(segs).scores);
            var w := ExpAll(e, partLse, gm);
            && k > 0.0 && total > 0.0
            && w == Lift(Scale(k, Masses(e, segs)))
            && FSum(w).Fin? && FSum(w).v == k * total
            && FAdd(gm, FLog(e, FSum(w))) == Fin(LogSumExp(e, Join(segs).scores))
  {
    hide Mass, Sum, FSum, FMaxAll, Scale, ExpAll, Masses, Partials;
    PartialsFit(e, partO, partLse, segs, n);
    var i := SomeNonEmpty(segs);
    assert |partLse| == |segs| by { PartialsLength(e, partO, partLse, segs, n); }
    FMaxAllFinite(partLse, i);
    var gm := FMaxAll(partLse);
    assert gm == Fin(gm.v);
    var k, total := e.exp(-gm.v), Mass(e, Join(segs).scores);
    WeightsAreMasses(e, partO, partLse, segs, n, gm.v);
    MassPositive(e, Join(segs).scores);
    assert ExpPositive(e, -gm.v);
    FSumLift(Scale(k, Masses(e, segs)));
    SumScale(k, Masses(e, segs));
    MassesTotal(e, segs);
    LogShift(e, gm.v, total, FSum(ExpAll(e, partLse, gm)).v);
  }

  lemma PartialsLength(e: ExpLog, partO: seq<seq<Float>>, partLse: seq<Float>, segs: seq<Segment>, n: nat)
    requires Partials(e, partO, partLse, segs, n)
    ensures |partO| == |partLse| == |segs|
  {
  }

  /** The unnormalised output of some tokens, divided by the total mass. */
  ghost function Share(e: ExpLog, j: Segment, n: nat, total: real): (v: Vec)
    requires IsMatrix(j.rows, |j.scores|, n) && total != 0.0
    ensures |v| == n
  {
    Scale(1.0 / total, VecMat(Exps(e, j.scores), j.rows, n))
  }

  /** A split's output times its normalised weight is its share of the whole. */
  lemma WeightedPartial(e: ExpLog, o: seq<Float>, lse: Float, scores: Vec, rows: Matrix, n: nat, total: real, c: nat)
    requires PartialOf(e, o, lse, scores, rows, n) && total > 0.0 && c < n
    ensures |o| == n
    ensures FMul(o[c], Fin(Mass(e, scores) / total)) == Fin((1.0 / total) * VecMat(Exps(e, scores), rows, n)[c])
  {
    hide Mass, VecMat, Scale, Exps;
    var v := VecMat(Exps(e, scores), rows, n);
    if scores == [] {
      MassEmpty(e, scores);
      assert Exps(e, scores) == [];
      VecMatUnfold(Exps(e, scores), rows, n);
    } else {
      var m := Mass(e, scores);
      VecMatScale(1.0 / m, Exps(e, scores), rows, n);
      ScaleAt(1.0 / m, v, c);
      ShareAlgebra(m, total, v[c]);
    }
  }

  lemma ShareAlgebra(m: real, total: real, x: real)
    requires m > 0.0 && total > 0.0
    ensures ((1.0 / m) * x) * (m / total) == (1.0 / total) * x
  {
    var a, b := 1.0 / m, 1.0 / total;
    assert m / total == m * b;
    assert a * m == 1.0;
    assert (a * x) * (m * b) == ((a * m) * b) * x;
  }

  lemma ShareStep(e: ExpLog, a: Segment, b: Segment, n: nat, total: real, c: nat)
    requires IsMatrix(a.rows, |a.scores|, n) && IsMatrix(b.rows, |b.scores|, n) && total != 0.0 && c < n
    ensures IsMatrix(a.rows + b.rows, |a.scores + b.scores|, n)
    ensures Share(e, Segment(a.scores + b.scores, a.rows + b.rows), n, total)[c]
         == Share(e, a, n, total)[c] + (1.0 / total) * VecMat(Exps(e, b.scores), b.rows, n)[c]
  {
    hide VecMat, Scale, Exps, Add;
    var k := 1.0 / total;
    var x, y := VecMat(Exps(e, a.scores), a.rows, n), VecMat(Exps(e, b.scores), b.rows, n);
    MassConcat(e, a.scores, b.scores);
    VecMatConcat(Exps(e, a.scores), Exps(e, b.scores), a.rows, b.rows, n);
    ScaleAt(k, x, c);
    ScaleAt(k, Add(x, y), c);
    TimesDistributes(k, x[c], y[c]);
  }

  lemma ShareEnds(e: ExpLog, j: Segment, n: nat)
    requires IsMatrix(j.rows, |j.scores|, n) && Mass(e, j.scores) != 0.0
    ensures Share(e, Segment([], []), n, Mass(e, j.scores)) == Zeros(n)
    ensures Share(e, j, n, Mass(e, j.scores)) == Attend(e, j.scores, j.rows, n)
  {
    hide Mass, VecMat, Scale;
    var none := Exps(e, []);
    assert none == [];
    VecMatUnfold(none, [], n);
    ScaleZeros(1.0 / Mass(e, j.scores), n);
    VecMatScale(1.0 / Mass(e, j.scores), Exps(e, j.scores), j.rows, n);
  }

  function Accumulate(acc: seq<Float>, o: seq<Float>, w: Float): (r: seq<Float>)
    requires |o| == |acc|
    ensures |r| == |acc| && forall c | 0 <= c < |r| :: r[c] == FAdd(acc[c], FMul(o[c], w))
  {
    seq(|acc|, c requires 0 <= c < |acc| => FAdd(acc[c], FMul(o[c], w)))
  }

  /** One turn of stage 2's loop: the share of the tokens so far grows by one segment. */
  lemma AccumulateShare(e: ExpLog, o: seq<Float>, lse: Float, a: Segment, b: Segment, n: nat, total: real)
    requires PartialOf(e, o, lse, b.scores, b.rows, n) && total > 0.0 && |o| == n
    requires IsMatrix(a.rows, |a.scores|, n) && IsMatrix(b.rows, |b.scores|, n)
    ensures IsMatrix(a.rows + b.rows, |a.scores + b.scores|, n)
    ensures Accumulate(Lift(Share(e, a, n, total)), o, Fin(Mass(e, b.scores) / total))
         == Lift(Share(e, Segment(a.scores + b.scores, a.rows + b.rows), n, total))
  {
    hide Mass, VecMat, Scale, Exps, Share, Lift, FMul, Accumulate, PartialOf;
    var sum := Segment(a.scores + b.scores, a.rows + b.rows);
    var r := Accumulate(Lift(Share(e, a, n, total)), o, Fin(Mass(e, b.scores) / total));
    forall c | 0 <= c < n ensures r[c] == Fin(Share(e, sum, n, total)[c]) {
      WeightedPartial(e, o, lse, b.scores, b.rows, n, total, c);
      ShareStep(e, a, b, n, total, c);
    }
    assert r == Lift(Share(e, sum, n, total));
  }

  lemma NormalisedWeight(k: real, m: real, total: real)
    requires k > 0.0 && total > 0.0
    ensures k * total > 0.0 && (k * m) / (k * total) == m / total
  {
    ProductPositive(k, total);
    var d := m / total;
    assert d * total == m;
    assert (k * total) * d == k * (total * d);
  }

  function DivideWeights(w: seq<Float>, d: Float): (r: seq<Float>)
    ensures |r| == |w| && forall s | 0 <= s < |w| :: r[s] == FDiv(w[s], d)
  {
    seq(|w|, s requires 0 <= s < |w| => FDiv(w[s], d))
  }

  ghost function Fractions(masses: Vec, total: real): (v: Vec)
    requires total != 0.0
    ensures |v| == |masses| && forall s | 0 <= s < |v| :: v[s] == masses[s] / total
  {
    seq(|masses|, s requires 0 <= s < |masses| => masses[s] / total)
  }

  lemma NormalisedWeights(k: real, masses: Vec, total: real, wsum: real)
    requires k > 0.0 && total > 0.0 && wsum == k * total
    ensures DivideWeights(Lift(Scale(k, masses)), Fin(wsum)) == Lift(Fractions(masses, total))
  {
    hide Scale;
    forall s | 0 <= s < |masses|
      ensures FDiv(Lift(Scale(k, masses))[s], Fin(wsum)) == Fin(masses[s] / total)
    {
      ScaleAt(k, masses, s);
      NormalisedWeight(k, masses[s], total);
    }
  }

  /** Stage 2's loop state after `s` splits: the share of their tokens in the whole. */
  ghost predicate Combined(e: ExpLog, acc: seq<Float>, segs: seq<Segment>, n: nat, total: real, s: nat)
    requires s <= |segs| && total != 0.0
  {
    var j := Join(segs[..s]);
    IsMatrix(j.rows, |j.scores|, n) && acc == Lift(Share(e, j, n, total))
  }

  lemma CombinedStart(e: ExpLog, segs: seq<Segment>, n: nat, total: real)
    requires SegmentsFit(segs, n) && Mass(e, Join(segs).scores) == total > 0.0
    ensures Combined(e, Lift(Zeros(n)), segs, n, total, 0)
  {
    hide Mass, Share;
    JoinFits(segs, n);
    ShareEnds(e, Join(segs), n);
    assert segs[..0] == [];
  }

  lemma CombinedStep(e: ExpLog, partO: seq<seq<Float>>, partLse: seq<Float>, segs: seq<Segment>, n: nat,
                     total: real, acc: seq<Float>, s: nat)
    requires Partials(e, partO, partLse, segs, n) && s < |segs| && total > 0.0
    requires Combined(e, acc, segs, n, total, s)
    ensures |partO[s]| == |acc| == n
    ensures Combined(e, Accumulate(acc, partO[s], Fin(Masses(e, segs)[s] / total)), segs, n, total, s + 1)
  {
    hide Mass, Share, Join, Accumulate, PartialOf;
    PartialsFit(e, partO, partLse, segs, n);
    JoinStep(segs, s);
    AccumulateShare(e, partO[s], partLse[s], Join(segs[..s]), segs[s], n, total);
  }

  lemma CombinedEnd(e: ExpLog, segs: seq<Segment>, n: nat, total: real, acc: seq<Float>)
    requires Mass(e, Join(segs).scores) == total > 0.0 && Combined(e, acc, segs, n, total, |segs|)
    ensures IsMatrix(Join(segs).rows, |Join(segs).scores|, n)
    ensures acc == Lift(Attend(e, Join(segs).scores, Join(segs).rows, n))
  {
    hide Mass, Share, Attend;
    assert segs[..|segs|] == segs;
    ShareEnds(e, Join(segs), n);
  }

  // ----- when there is no token at all

  lemma {:induction false} FSumNaN(xs: seq<Float>, i: nat)
    requires i < |xs| && xs[i] == NaN
    ensures FSum(xs) == NaN
  {
    if i > 0 { FSumNaN(xs[1..], i - 1); }
  }

  predicate AllNaN(xs: seq<Float>) { forall c | 0 <= c < |xs| :: xs[c] == NaN }

  /** With every split empty, `lse - gm` is the invalid `inf - inf` and poisons every weight. */
  lemma EmptyWeights(e: ExpLog, partO: seq<seq<Float>>, partLse: seq<Float>, segs: seq<Segment>, n: nat)
    requires Partials(e, partO, partLse, segs, n) && segs != [] && Join(segs).scores == []
    ensures AllNaN(ExpAll(e, partLse, FMaxAll(partLse)))
    ensures FSum(ExpAll(e, partLse, FMaxAll(partLse))) == NaN
  {
    hide FSum, Join, Partials, FMaxAll;
    PartialsFit(e, partO, partLse, segs, n);
    PartialsLength(e, partO, partLse, segs, n);
    forall s | 0 <= s < |segs| ensures segs[s].scores == [] { AllSegmentsEmpty(segs, s); }
    assert partLse == AllNegInf(|segs|);
    FMaxAllNegInf(|segs|);
    FSumNaN(ExpAll(e, partLse, FMaxAll(partLse)), 0);
  }

  lemma {:induction false} AllSegmentsEmpty(segs: seq<Segment>, i: nat)
    requires Join(segs).scores == [] && i < |segs|
    ensures segs[i].scores == []
  {
    if i < |segs| - 1 { AllSegmentsEmpty(segs[..|segs| - 1], i); }
  }

  lemma PickNaN(w: seq<Float>, s: nat)
    requires s < |w| && w[s] == NaN
    ensures Pick(w, s) == NaN
  {
    hide FSum;
    FSumNaN(seq(|w|, k requires 0 <= k < |w| => if k == s then w[k] else Fin(0.0)), s);
  }

  /**
   Stage 2, one program. Once some token exists, whatever the number of splits and however many
   of them are empty, the combined output is softmax attention over all tokens and the combined
   log-sum-exp is theirs; with no token at all every stored value is NaN.
   */
  method Stage2(e: ExpLog, partO: seq<seq<Float>>, partLse: seq<Float>, n: nat, ghost segs: seq<Segment>)
    returns (o: seq<Float>, lse: Float)
    requires Laws(e) && Partials(e, partO, partLse, segs, n) && segs != []
    ensures Join(segs).scores != [] ==>
              && IsMatrix(Join(segs).rows, |Join(segs).scores|, n) && Mass(e, Join(segs).scores) > 0.0
              && o == Lift(Attend(e, Join(segs).scores, Join(segs).rows, n))
              && lse == Fin(LogSumExp(e, Join(segs).scores))
    ensures Join(segs).scores == [] ==> |o| == n && AllNaN(o) && lse == NaN
  {
    hide Mass, Attend, LogSumExp, FSum, FMaxAll, ExpAll, Scale, Pick, Partials, Laws, Join,
         Combined, Lift, Fractions;
    PartialsFit(e, partO, partLse, segs, n);
    PartialsLength(e, partO, partLse, segs, n);
    ghost var some, masses, total := Join(segs).scores != [], Masses(e, segs), Mass(e, Join(segs).scores);
    var gm := FMaxAll(partLse);
    var w := ExpAll(e, partLse, gm);
    var wsum := FSum(w);
    if some {
      WeightsTotal(e, partO, partLse, segs, n);
      NormalisedWeights(e.exp(-gm.v), masses, total, wsum.v);
      CombinedStart(e, segs, n, total);
    } else {
      EmptyWeights(e, partO, partLse, segs, n);
    }
    w := DivideWeights(w, wsum);
    var acc := Lift(Zeros(n));
    var s := 0;
    while s < |partO|
      invariant s <= |partO| && |acc| == n
      invariant some ==> Combined(e, acc, segs, n, total, s)
      invariant !some && s > 0 ==> AllNaN(acc)
    {
      if some {
        CombinedStep(e, partO, partLse, segs, n, total, acc, s);
        PickLift(Fractions(masses, total), s);
      } else {
        PickNaN(w, s);
      }
      acc := Accumulate(acc, partO[s], Pick(w, s));
      s := s + 1;
    }
    if some { CombinedEnd(e, segs, n, total, acc); }
    o, lse := acc, FAdd(gm, FLog(e, wsum));
  }
}
