/**
 The kernels' scalar domain: exact reals extended with the infinities and NaN, with the
 special-value results that section 7.2 of IEEE 754-2019 prescribes (rounding and the sign of
 zero are not modelled). A NaN operand always gives NaN, so a finite result shows that no
 invalid operation contributed to it.
 */
module Floats {
  import opened Vectors

  datatype Float = Fin(v: real) | NegInf | PosInf | NaN

  /** The exponential and the natural logarithm, known only through their laws. */
  datatype ExpLog = ExpLog(exp: real -> real, log: real -> real)

  ghost predicate ExpAdds(e: ExpLog, a: real, b: real, c: real) {
    c == a + b ==> e.exp(c) == e.exp(a) * e.exp(b)
  }
  ghost predicate ExpIncreases(e: ExpLog, a: real, b: real) { a < b ==> e.exp(a) < e.exp(b) }
  ghost predicate ExpPositive(e: ExpLog, a: real) { e.exp(a) > 0.0 }
  ghost predicate LogInverts(e: ExpLog, x: real) { x > 0.0 ==> e.exp(e.log(x)) == x }

  ghost predicate Laws(e: ExpLog) {
    && (forall a, b, c :: ExpAdds(e, a, b, c))
    && (forall a, b :: ExpIncreases(e, a, b))
    && (forall a :: ExpPositive(e, a))
    && (forall x :: LogInverts(e, x))
  }

  // ----- arithmetic

  function FNeg(x: Float): Float {
    match x
    case Fin(v) => Fin(-v)
    case NegInf => PosInf
    case PosInf => NegInf
    case NaN => NaN
  }

  function FAdd(x: Float, y: Float): Float {
    if x.NaN? || y.NaN? then NaN
    else if x.Fin? && y.Fin? then Fin(x.v + y.v)
    else if x.Fin? then y
    else if y.Fin? || x == y then x
    else NaN  // opposite infinities
  }

  function FSub(x: Float, y: Float): Float { FAdd(x, FNeg(y)) }

  function SignedInf(positive: bool): Float { if positive then PosInf else NegInf }

  predicate Positive(x: Float) { x.PosInf? || (x.Fin? && x.v > 0.0) }
  predicate Zero(x: Float) { x == Fin(0.0) }

  function FMul(x: Float, y: Float): Float {
    if x.NaN? || y.NaN? then NaN
    else if x.Fin? && y.Fin? then Fin(x.v * y.v)
    else if Zero(x) || Zero(y) then NaN  // zero times infinity
    else SignedInf(Positive(x) == Positive(y))
  }

  function FDiv(x: Float, y: Float): Float {
    if x.NaN? || y.NaN? then NaN
    else if x.Fin? && y.Fin? then
      if y.v != 0.0 then Fin(x.v / y.v)
      else if x.v == 0.0 then NaN  // zero over zero
      else SignedInf(x.v > 0.0)
    else if x.Fin? then Fin(0.0)
    else if y.Fin? then SignedInf(Positive(x) == (Positive(y) || Zero(y)))
    else NaN  // infinity over infinity
  }

  predicate Less(x: Float, y: Float) {
    match (x, y)
    case (Fin(a), Fin(b)) => a < b
    case (NegInf, Fin(_)) => true
    case (NegInf, PosInf) => true
    case (Fin(_), PosInf) => true
    case _ => false
  }

  function FMax(x: Float, y: Float): Float {
    if x.NaN? || y.NaN? then NaN else if Less(x, y) then y else x
  }

  function FExp(e: ExpLog, x: Float): Float {
    match x
    case Fin(v) => Fin(e.exp(v))
    case NegInf => Fin(0.0)
    case PosInf => PosInf
    case NaN => NaN
  }

  function FLog(e: ExpLog, x: Float): Float {
    match x
    case Fin(v) => if v > 0.0 then Fin(e.log(v)) else if v == 0.0 then NegInf else NaN
    case NegInf => NaN
    case PosInf => PosInf
    case NaN => NaN
  }

  // ----- reductions

  function FSum(xs: seq<Float>): Float {
    if xs == [] then Fin(0.0) else FAdd(xs[0], FSum(xs[1..]))
  }

  function FMaxAll(xs: seq<Float>): Float {
    if xs == [] then NegInf else FMax(xs[0], FMaxAll(xs[1..]))
  }

  /** `sum(p[:, None] * rows, axis=0)[c]`. */
  function FColumnSum(p: seq<Float>, rows: Matrix, n: nat, c: nat): Float
    requires IsMatrix(rows, |p|, n) && c < n
  {
    if p == [] then Fin(0.0)
    else FAdd(FMul(p[0], Fin(rows[0][c])), FColumnSum(p[1..], rows[1..], n, c))
  }

  function Lift(v: Vec): (f: seq<Float>)
    ensures |f| == |v| && forall i | 0 <= i < |f| :: f[i] == Fin(v[i])
  {
    seq(|v|, i requires 0 <= i < |v| => Fin(v[i]))
  }

  function AllNegInf(n: nat): (f: seq<Float>)
    ensures |f| == n && forall i | 0 <= i < n :: f[i] == NegInf
  {
    seq(n, _ => NegInf)
  }

  lemma {:induction false} FSumLift(v: Vec)
    ensures FSum(Lift(v)) == Fin(Sum(v))
  {
    if v != [] {
      FSumLift(v[1..]);
      assert Lift(v)[1..] == Lift(v[1..]);
    }
  }

  lemma {:induction false} FColumnSumLift(w: Vec, rows: Matrix, n: nat, c: nat)
    requires IsMatrix(rows, |w|, n) && c < n
    ensures FColumnSum(Lift(w), rows, n, c) == Fin(VecMat(w, rows, n)[c])
  {
    hide VecMat, Scale, Lift, Add, FMul, FAdd;
    VecMatUnfold(w, rows, n);
    if w == [] {
      assert Lift(w) == [];
    } else {
      FColumnSumLift(w[1..], rows[1..], n, c);
      assert Lift(w)[1..] == Lift(w[1..]);
      assert Lift(w)[0] == Fin(w[0]);
      ScaleAt(w[0], rows[0], c);
      FinMulAdd(w[0], rows[0][c], VecMat(w[1..], rows[1..], n)[c], VecMat(w, rows, n)[c]);
    }
  }

  lemma FinMulAdd(a: real, b: real, x: real, z: real)
    requires z == a * b + x
    ensures FAdd(FMul(Fin(a), Fin(b)), Fin(x)) == Fin(z)
  {
  }

  /** `m` is the largest entry of `s`. */
  predicate IsMax(m: real, s: Vec) {
    m in s && forall i | 0 <= i < |s| :: s[i] <= m
  }

  lemma {:induction false} FMaxAllNegInf(n: nat)
    ensures FMaxAll(AllNegInf(n)) == NegInf
  {
    if n > 0 {
      FMaxAllNegInf(n - 1);
      assert AllNegInf(n)[1..] == AllNegInf(n - 1);
    }
  }

  /** The maximum of a masked row is the maximum of its unmasked prefix. */
  lemma {:induction false} FMaxAllMasked(s: Vec, pad: nat)
    ensures var m := FMaxAll(Lift(s) + AllNegInf(pad));
            if s == [] then m == NegInf else m.Fin? && IsMax(m.v, s)
  {
    var xs := Lift(s) + AllNegInf(pad);
    if s == [] {
      assert xs == AllNegInf(pad);
      FMaxAllNegInf(pad);
    } else {
      FMaxAllMasked(s[1..], pad);
      assert xs[1..] == Lift(s[1..]) + AllNegInf(pad);
      assert xs[0] == Fin(s[0]);
      var m := FMaxAll(xs);
      assert m.v == s[0] || m.v in s[1..];
      forall i | 0 <= i < |s| ensures s[i] <= m.v {
        if i > 0 { assert s[i] == s[1..][i - 1]; }
      }
    }
  }

  // ----- consequences of the laws

  lemma ExpZero(e: ExpLog, z: real)
    requires Laws(e) && z == 0.0
    ensures e.exp(z) == 1.0
  {
    assert ExpAdds(e, z, z, z) && ExpPositive(e, z);
    SelfSquare(e.exp(z));
  }

  lemma SelfSquare(x: real)
    requires x > 0.0 && x == x * x
    ensures x == 1.0
  {
  }

  lemma ExpSum(e: ExpLog, a: real, b: real, c: real)
    requires Laws(e) && c == a + b
    ensures e.exp(c) == e.exp(a) * e.exp(b) && e.exp(a) > 0.0 && e.exp(b) > 0.0 && e.exp(c) > 0.0
  {
    assert ExpAdds(e, a, b, c) && ExpPositive(e, a) && ExpPositive(e, b) && ExpPositive(e, c);
  }

  lemma ExpMonotone(e: ExpLog, a: real, b: real)
    requires Laws(e) && a <= b
    ensures e.exp(a) <= e.exp(b)
  {
    assert ExpIncreases(e, a, b);
  }

  lemma ExpOfLog(e: ExpLog, x: real)
    requires Laws(e) && x > 0.0
    ensures e.exp(e.log(x)) == x
  {
    assert LogInverts(e, x);
  }

  lemma LogOfExp(e: ExpLog, a: real, x: real)
    requires Laws(e) && x == e.exp(a)
    ensures x > 0.0 && e.log(x) == a
  {
    assert ExpPositive(e, a);
    ExpOfLog(e, x);
    assert ExpIncreases(e, a, e.log(x)) && ExpIncreases(e, e.log(x), a);
  }

  /** `m + log(exp(-m) * s) == log(s)`. */
  lemma LogShift(e: ExpLog, m: real, s: real, w: real)
    requires Laws(e) && s > 0.0 && w == e.exp(-m) * s
    ensures w > 0.0 && m + e.log(w) == e.log(s)
  {
    var c := -m + e.log(s);
    ExpSum(e, -m, e.log(s), c);
    ExpOfLog(e, s);
    LogOfExp(e, c, w);
  }

  lemma LogMonotone(e: ExpLog, x: real, y: real)
    requires Laws(e) && 0.0 < x <= y
    ensures e.log(x) <= e.log(y)
  {
    ExpOfLog(e, x);
    ExpOfLog(e, y);
    assert ExpIncreases(e, e.log(y), e.log(x));
  }

  /** `exp`, entrywise. */
  function Exps(e: ExpLog, scores: Vec): (w: Vec)
    ensures |w| == |scores| && forall i | 0 <= i < |w| :: w[i] == e.exp(scores[i])
  {
    seq(|scores|, i requires 0 <= i < |scores| => e.exp(scores[i]))
  }
}
