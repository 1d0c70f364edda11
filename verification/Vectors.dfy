/**
 Vectors and matrices over the exact reals, as sequences. A matrix is a sequence of rows.
 `VecMat(x, m, n)` is the row-vector product `x @ m`, `MatVec(m, y)` the product `y @ m.t()`.
 */
module Vectors {

  type Vec = seq<real>
  type Matrix = seq<Vec>

  function Abs(x: real): real { if x < 0.0 then -x else x }

  /** The product, as a function that a proof can hide. */
  function Times(a: real, b: real): real { a * b }

  function Zeros(n: nat): (z: Vec)
    ensures |z| == n && forall i | 0 <= i < n :: z[i] == 0.0
  {
    seq(n, _ => 0.0)
  }

  function Sum(s: Vec): real {
    if s == [] then 0.0 else s[0] + Sum(s[1..])
  }

  function Add(u: Vec, v: Vec): (w: Vec)
    requires |u| == |v|
    ensures |w| == |u| && forall i | 0 <= i < |w| :: w[i] == u[i] + v[i]
  {
    seq(|u|, i requires 0 <= i < |u| => u[i] + v[i])
  }

  function Scale(a: real, v: Vec): (w: Vec)
    ensures |w| == |v|
  {
    seq(|v|, i requires 0 <= i < |v| => a * v[i])
  }

  function Neg(v: Vec): (w: Vec)
    ensures |w| == |v| && forall i | 0 <= i < |w| :: w[i] == -v[i]
  {
    seq(|v|, i requires 0 <= i < |v| => -v[i])
  }

  function Dot(u: Vec, v: Vec): real
    requires |u| == |v|
  {
    if u == [] then 0.0 else u[0] * v[0] + Dot(u[1..], v[1..])
  }

  predicate IsMatrix(m: Matrix, rows: nat, cols: nat) {
    |m| == rows && forall i | 0 <= i < rows :: |m[i]| == cols
  }

  function VecMat(x: Vec, m: Matrix, n: nat): (r: Vec)
    requires IsMatrix(m, |x|, n)
    ensures |r| == n
  {
    if x == [] then Zeros(n) else Add(Scale(x[0], m[0]), VecMat(x[1..], m[1..], n))
  }

  function MatVec(m: Matrix, y: Vec): (r: Vec)
    requires IsMatrix(m, |m|, |y|)
    ensures |r| == |m| && forall i | 0 <= i < |r| :: r[i] == Dot(m[i], y)
  {
    seq(|m|, i requires 0 <= i < |m| => Dot(m[i], y))
  }

  function Column(m: Matrix, n: nat, c: nat): (v: Vec)
    requires IsMatrix(m, |m|, n) && c < n
    ensures |v| == |m| && forall i | 0 <= i < |v| :: v[i] == m[i][c]
  {
    seq(|m|, i requires 0 <= i < |m| => m[i][c])
  }

  /** Every row of `ks` multiplied by `h` on the right: the matrix product `ks @ h`. */
  function MatMul(ks: Matrix, h: Matrix, n: nat): (r: Matrix)
    requires IsMatrix(ks, |ks|, |h|) && IsMatrix(h, |h|, n)
    ensures IsMatrix(r, |ks|, n) && forall t | 0 <= t < |r| :: r[t] == VecMat(ks[t], h, n)
  {
    seq(|ks|, t requires 0 <= t < |ks| => VecMat(ks[t], h, n))
  }

  predicate Symmetric(h: Matrix) {
    && IsMatrix(h, |h|, |h|)
    && forall i, j | 0 <= i < |h| && 0 <= j < |h| :: h[i][j] == h[j][i]
  }

  ghost predicate Orthonormal(h: Matrix) {
    && IsMatrix(h, |h|, |h|)
    && forall i, j | 0 <= i < |h| && 0 <= j < |h| :: Dot(h[i], h[j]) == if i == j then 1.0 else 0.0
  }

  function AbsVec(v: Vec): (w: Vec)
    ensures |w| == |v| && forall i | 0 <= i < |w| :: w[i] == Abs(v[i])
  {
    seq(|v|, i requires 0 <= i < |v| => Abs(v[i]))
  }

  lemma ScaleAt(a: real, v: Vec, i: nat)
    requires i < |v|
    ensures Scale(a, v)[i] == a * v[i]
  {
  }

  lemma ScaleTail(a: real, v: Vec)
    requires v != []
    ensures Scale(a, v)[0] == a * v[0]
    ensures Scale(a, v)[1..] == Scale(a, v[1..])
  {
    hide Scale;
    ScaleAt(a, v, 0);
    forall i | 0 <= i < |v| - 1 ensures Scale(a, v)[1..][i] == Scale(a, v[1..])[i] {
      ScaleAt(a, v, i + 1);
      ScaleAt(a, v[1..], i);
    }
  }

  lemma ScaleConcat(a: real, u: Vec, v: Vec)
    ensures Scale(a, u + v) == Scale(a, u) + Scale(a, v)
  {
    hide Scale;
    forall i | 0 <= i < |u + v| ensures Scale(a, u + v)[i] == (Scale(a, u) + Scale(a, v))[i] {
      ScaleAt(a, u + v, i);
      if i < |u| { ScaleAt(a, u, i); } else { ScaleAt(a, v, i - |u|); }
    }
  }

  lemma ScaleOne(v: Vec)
    ensures Scale(1.0, v) == v
  {
    hide Scale;
    forall i | 0 <= i < |v| ensures Scale(1.0, v)[i] == v[i] { ScaleAt(1.0, v, i); }
  }

  lemma ScaleScale(a: real, b: real, c: real, v: Vec)
    requires c == a * b
    ensures Scale(a, Scale(b, v)) == Scale(c, v)
  {
    hide Scale;
    forall i | 0 <= i < |v| ensures Scale(a, Scale(b, v))[i] == Scale(c, v)[i] {
      ScaleAt(a, Scale(b, v), i);
      ScaleAt(b, v, i);
      ScaleAt(c, v, i);
      TimesAssociates(a, b, v[i]);
    }
  }

  lemma TimesAssociates(a: real, b: real, c: real)
    ensures (a * b) * c == a * (b * c)
  {
  }

  lemma TimesDistributes(a: real, b: real, c: real)
    ensures a * (b + c) == a * b + a * c
    ensures (b + c) * a == b * a + c * a
  {
  }

  // ----- sums

  lemma {:induction false} SumConcat(a: Vec, b: Vec)
    ensures Sum(a + b) == Sum(a) + Sum(b)
  {
    if a == [] {
      assert a + b == b;
    } else {
      SumConcat(a[1..], b);
      assert (a + b)[1..] == a[1..] + b;
    }
  }

  lemma {:induction false} SumScale(a: real, v: Vec)
    ensures Sum(Scale(a, v)) == a * Sum(v)
  {
    hide Scale;
    if v != [] {
      SumScale(a, v[1..]);
      ScaleTail(a, v);
      TimesDistributes(a, v[0], Sum(v[1..]));
    }
  }

  lemma {:induction false} SumZeros(n: nat)
    ensures Sum(Zeros(n)) == 0.0
  {
    if n > 0 {
      SumZeros(n - 1);
      assert Zeros(n)[1..] == Zeros(n - 1);
    }
  }

  lemma {:induction false} SumMonotone(a: Vec, b: Vec)
    requires |a| == |b| && forall i | 0 <= i < |a| :: a[i] <= b[i]
    ensures Sum(a) <= Sum(b)
  {
    if a != [] {
      SumMonotone(a[1..], b[1..]);
    }
  }

  lemma {:induction false} SumNonNegative(a: Vec)
    requires forall i | 0 <= i < |a| :: a[i] >= 0.0
    ensures Sum(a) >= 0.0
    ensures forall i | 0 <= i < |a| :: a[i] <= Sum(a)
  {
    if a != [] {
      SumNonNegative(a[1..]);
      forall i | 0 <= i < |a| ensures a[i] <= Sum(a) {
        if i > 0 { assert a[i] == a[1..][i - 1]; }
      }
    }
  }

  // ----- dot products

  lemma {:induction false} DotCommutes(u: Vec, v: Vec)
    requires |u| == |v|
    ensures Dot(u, v) == Dot(v, u)
  {
    if u != [] { DotCommutes(u[1..], v[1..]); }
  }

  lemma DotUnfold(u: Vec, v: Vec)
    requires |u| == |v|
    ensures Dot(u, v) == if u == [] then 0.0 else u[0] * v[0] + Dot(u[1..], v[1..])
  {
  }

  lemma {:induction false} DotAdd(u: Vec, v: Vec, y: Vec)
    requires |u| == |v| == |y|
    ensures Dot(Add(u, v), y) == Dot(u, y) + Dot(v, y)
  {
    hide Dot, Add;
    if u == [] {
      DotUnfold(Add(u, v), y); DotUnfold(u, y); DotUnfold(v, y);
    } else {
      DotAdd(u[1..], v[1..], y[1..]);
      assert Add(u, v)[1..] == Add(u[1..], v[1..]);
      DotUnfold(Add(u, v), y); DotUnfold(u, y); DotUnfold(v, y);
      TimesDistributes(y[0], u[0], v[0]);
    }
  }

  lemma {:induction false} DotScale(a: real, u: Vec, y: Vec)
    requires |u| == |y|
    ensures Dot(Scale(a, u), y) == a * Dot(u, y)
  {
    hide Dot, Scale;
    DotUnfold(Scale(a, u), y);
    DotUnfold(u, y);
    if u != [] {
      DotScale(a, u[1..], y[1..]);
      ScaleTail(a, u);
      TimesAssociates(a, u[0], y[0]);
      TimesDistributes(a, u[0] * y[0], Dot(u[1..], y[1..]));
    }
  }

  lemma {:induction false} DotNeg(u: Vec, y: Vec)
    requires |u| == |y|
    ensures Dot(u, Neg(y)) == -Dot(u, y)
  {
    if u != [] {
      DotNeg(u[1..], y[1..]);
      assert Neg(y)[1..] == Neg(y[1..]);
    }
  }

  lemma {:induction false} DotZeros(n: nat, y: Vec)
    requires |y| == n
    ensures Dot(Zeros(n), y) == 0.0
  {
    if n > 0 {
      DotZeros(n - 1, y[1..]);
      assert Zeros(n)[1..] == Zeros(n - 1);
    }
  }

  lemma {:induction false} DotConcat(a: Vec, b: Vec, c: Vec, d: Vec)
    requires |a| == |c| && |b| == |d|
    ensures Dot(a + b, c + d) == Dot(a, c) + Dot(b, d)
  {
    if a == [] {
      assert a + b == b && c + d == d;
    } else {
      DotConcat(a[1..], b, c[1..], d);
      assert (a + b)[1..] == a[1..] + b && (c + d)[1..] == c[1..] + d;
    }
  }

  /** A dot product with the `k`-th unit vector reads the `k`-th component. */
  lemma {:induction false} DotUnit(x: Vec, e: Vec, k: nat)
    requires |x| == |e| && k < |x|
    requires forall i | 0 <= i < |e| :: e[i] == if i == k then 1.0 else 0.0
    ensures Dot(x, e) == x[k]
  {
    if k == 0 {
      assert e[1..] == Zeros(|e| - 1);
      DotZeros(|e| - 1, x[1..]);
      DotCommutes(x[1..], e[1..]);
    } else {
      DotUnit(x[1..], e[1..], k - 1);
    }
  }

  /** The absolute value of a dot product is at most the weighted sum of component bounds. */
  lemma {:induction false} DotBound(u: Vec, v: Vec, bound: Vec)
    requires |u| == |v| == |bound|
    requires forall i | 0 <= i < |v| :: Abs(v[i]) <= bound[i]
    ensures Abs(Dot(u, v)) <= Dot(AbsVec(u), bound)
  {
    hide Dot;
    DotUnfold(u, v);
    DotUnfold(AbsVec(u), bound);
    if u == [] {
      AbsTriangle(0.0, 0.0);
    } else {
      DotBound(u[1..], v[1..], bound[1..]);
      assert AbsVec(u) != [] && AbsVec(u)[0] == Abs(u[0]);
      assert AbsVec(u)[1..] == AbsVec(u[1..]);
      AbsProduct(u[0], v[0], bound[0]);
      AbsTriangle(u[0] * v[0], Dot(u[1..], v[1..]));
    }
  }

  lemma AbsTriangle(a: real, b: real)
    ensures Abs(a + b) <= Abs(a) + Abs(b) && Abs(0.0) == 0.0
  {
  }

  lemma AbsProduct(a: real, b: real, c: real)
    requires Abs(b) <= c
    ensures Abs(a * b) <= Abs(a) * c
  {
    if a >= 0.0 {
      assert a * b <= a * c && a * -b <= a * c;
    } else {
      assert -a * b <= -a * c && -a * -b <= -a * c;
    }
  }

  // ----- vector-matrix products

  lemma {:induction false} VecMatConcat(x: Vec, y: Vec, m: Matrix, k: Matrix, n: nat)
    requires IsMatrix(m, |x|, n) && IsMatrix(k, |y|, n)
    ensures IsMatrix(m + k, |x + y|, n)
    ensures VecMat(x + y, m + k, n) == Add(VecMat(x, m, n), VecMat(y, k, n))
  {
    hide Scale, VecMat, Add;
    VecMatUnfold(x, m, n);
    VecMatUnfold(x + y, m + k, n);
    if x == [] {
      assert x + y == y && m + k == k;
      AddZeros(VecMat(y, k, n));
    } else {
      VecMatConcat(x[1..], y, m[1..], k, n);
      assert (x + y)[1..] == x[1..] + y && (m + k)[1..] == m[1..] + k;
      AddAssociates(Scale(x[0], m[0]), VecMat(x[1..], m[1..], n), VecMat(y, k, n));
    }
  }

  lemma VecMatUnfold(x: Vec, m: Matrix, n: nat)
    requires IsMatrix(m, |x|, n)
    ensures VecMat(x, m, n) ==
            if x == [] then Zeros(n) else Add(Scale(x[0], m[0]), VecMat(x[1..], m[1..], n))
  {
  }

  lemma ScaleAdd(a: real, u: Vec, v: Vec)
    requires |u| == |v|
    ensures Scale(a, Add(u, v)) == Add(Scale(a, u), Scale(a, v))
  {
    hide Scale, Add;
    forall i | 0 <= i < |u| ensures Scale(a, Add(u, v))[i] == Add(Scale(a, u), Scale(a, v))[i] {
      ScaleAt(a, Add(u, v), i);
      ScaleAt(a, u, i);
      ScaleAt(a, v, i);
      TimesDistributes(a, u[i], v[i]);
    }
  }

  lemma ScaleZeros(a: real, n: nat)
    ensures Scale(a, Zeros(n)) == Zeros(n)
  {
    hide Scale;
    forall i | 0 <= i < n ensures Scale(a, Zeros(n))[i] == Zeros(n)[i] { ScaleAt(a, Zeros(n), i); }
  }

  lemma ScaleByZero(v: Vec)
    ensures Scale(0.0, v) == Zeros(|v|)
  {
    hide Scale;
    forall i | 0 <= i < |v| ensures Scale(0.0, v)[i] == Zeros(|v|)[i] { ScaleAt(0.0, v, i); }
  }

  lemma ScaleSum(a: real, b: real, v: Vec)
    ensures Scale(a + b, v) == Add(Scale(a, v), Scale(b, v))
  {
    hide Scale, Add;
    forall i | 0 <= i < |v| ensures Scale(a + b, v)[i] == Add(Scale(a, v), Scale(b, v))[i] {
      ScaleAt(a + b, v, i);
      ScaleAt(a, v, i);
      ScaleAt(b, v, i);
      TimesDistributes(v[i], a, b);
    }
  }

  /** `(a + b) + (c + d) == (a + c) + (b + d)`. */
  lemma AddSwap(a: Vec, b: Vec, c: Vec, d: Vec)
    requires |a| == |b| == |c| == |d|
    ensures Add(Add(a, b), Add(c, d)) == Add(Add(a, c), Add(b, d))
  {
  }

  lemma AddAssociates(a: Vec, b: Vec, c: Vec)
    requires |a| == |b| == |c|
    ensures Add(Add(a, b), c) == Add(a, Add(b, c))
  {
  }

  lemma AddZeros(v: Vec)
    ensures Add(Zeros(|v|), v) == v && Add(v, Zeros(|v|)) == v
  {
  }

  lemma {:induction false} VecMatScale(a: real, x: Vec, m: Matrix, n: nat)
    requires IsMatrix(m, |x|, n)
    ensures VecMat(Scale(a, x), m, n) == Scale(a, VecMat(x, m, n))
  {
    hide Scale, VecMat;
    VecMatUnfold(x, m, n);
    VecMatUnfold(Scale(a, x), m, n);
    if x != [] {
      VecMatScale(a, x[1..], m[1..], n);
      ScaleTail(a, x);
      ScaleAdd(a, Scale(x[0], m[0]), VecMat(x[1..], m[1..], n));
      ScaleScale(a, x[0], Scale(a, x)[0], m[0]);
    } else {
      ScaleZeros(a, n);
    }
  }

  lemma {:induction false} VecMatZeroRows(x: Vec, m: Matrix, n: nat)
    requires IsMatrix(m, |x|, n) && forall i | 0 <= i < |m| :: m[i] == Zeros(n)
    ensures VecMat(x, m, n) == Zeros(n)
  {
    hide Scale, VecMat;
    VecMatUnfold(x, m, n);
    if x != [] {
      VecMatZeroRows(x[1..], m[1..], n);
      ScaleZeros(x[0], n);
    }
  }

  lemma {:induction false} VecMatColumn(x: Vec, m: Matrix, n: nat, c: nat)
    requires IsMatrix(m, |x|, n) && c < n
    ensures VecMat(x, m, n)[c] == Dot(x, Column(m, n, c))
  {
    hide Scale, VecMat, Dot;
    VecMatUnfold(x, m, n);
    DotUnfold(x, Column(m, n, c));
    if x != [] {
      VecMatColumn(x[1..], m[1..], n, c);
      ScaleAt(x[0], m[0], c);
      assert Column(m, n, c)[1..] == Column(m[1..], n, c);
    }
  }

  /** `(x @ m) . y == x . (y @ m.t())`. */
  lemma {:induction false} Adjoint(x: Vec, m: Matrix, y: Vec)
    requires IsMatrix(m, |x|, |y|)
    ensures Dot(VecMat(x, m, |y|), y) == Dot(x, MatVec(m, y))
  {
    hide Scale, VecMat, Dot, Add;
    VecMatUnfold(x, m, |y|);
    DotUnfold(x, MatVec(m, y));
    if x == [] {
      DotZeros(|y|, y);
    } else {
      DotAdd(Scale(x[0], m[0]), VecMat(x[1..], m[1..], |y|), y);
      DotScale(x[0], m[0], y);
      Adjoint(x[1..], m[1..], y);
      assert MatVec(m, y)[1..] == MatVec(m[1..], y);
    }
  }

  lemma {:induction false} VecMatAdd(x: Vec, y: Vec, m: Matrix, n: nat)
    requires |x| == |y| && IsMatrix(m, |x|, n)
    ensures VecMat(Add(x, y), m, n) == Add(VecMat(x, m, n), VecMat(y, m, n))
  {
    hide Scale, VecMat, Add;
    VecMatUnfold(x, m, n);
    VecMatUnfold(y, m, n);
    VecMatUnfold(Add(x, y), m, n);
    if x == [] {
      AddZeros(Zeros(n));
    } else {
      VecMatAdd(x[1..], y[1..], m[1..], n);
      assert Add(x, y)[1..] == Add(x[1..], y[1..]);
      ScaleSum(x[0], y[0], m[0]);
      AddSwap(Scale(x[0], m[0]), Scale(y[0], m[0]), VecMat(x[1..], m[1..], n), VecMat(y[1..], m[1..], n));
    }
  }

  lemma {:induction false} VecMatOfZeros(k: nat, m: Matrix, n: nat)
    requires IsMatrix(m, k, n)
    ensures VecMat(Zeros(k), m, n) == Zeros(n)
  {
    hide Scale, VecMat;
    VecMatUnfold(Zeros(k), m, n);
    if k > 0 {
      VecMatOfZeros(k - 1, m[1..], n);
      assert Zeros(k)[1..] == Zeros(k - 1);
      ScaleByZero(m[0]);
    }
  }

  /** Associativity: `(p @ ks) @ h == p @ (ks @ h)`. */
  lemma {:induction false} VecMatAssociates(p: Vec, ks: Matrix, h: Matrix, n: nat)
    requires IsMatrix(ks, |p|, |h|) && IsMatrix(h, |h|, n)
    ensures VecMat(VecMat(p, ks, |h|), h, n) == VecMat(p, MatMul(ks, h, n), n)
  {
    hide Scale, VecMat;
    VecMatUnfold(p, ks, |h|);
    VecMatUnfold(p, MatMul(ks, h, n), n);
    if p == [] {
      VecMatOfZeros(|h|, h, n);
    } else {
      var rest := VecMat(p[1..], ks[1..], |h|);
      VecMatAdd(Scale(p[0], ks[0]), rest, h, n);
      VecMatScale(p[0], ks[0], h, n);
      VecMatAssociates(p[1..], ks[1..], h, n);
      assert MatMul(ks, h, n)[1..] == MatMul(ks[1..], h, n);
    }
  }

  // ----- orthonormal matrices

  /** Un-rotating undoes rotating: `(x @ h) @ h.t() == x`. */
  lemma UnrotateRotate(x: Vec, h: Matrix)
    requires Orthonormal(h) && |x| == |h|
    ensures MatVec(h, VecMat(x, h, |h|)) == x
  {
    hide Dot, VecMat;
    var r := VecMat(x, h, |h|);
    forall k | 0 <= k < |h| ensures MatVec(h, r)[k] == x[k] {
      DotCommutes(h[k], r);
      Adjoint(x, h, h[k]);
      DotUnit(x, MatVec(h, h[k]), k);
    }
  }

  /** Rotating both sides preserves dot products. */
  lemma RotationPreservesDot(x: Vec, y: Vec, h: Matrix)
    requires Orthonormal(h) && |x| == |y| == |h|
    ensures Dot(VecMat(x, h, |h|), VecMat(y, h, |h|)) == Dot(x, y)
  {
    hide Dot, VecMat;
    Adjoint(x, h, VecMat(y, h, |h|));
    UnrotateRotate(y, h);
  }

  lemma SymmetricTranspose(x: Vec, h: Matrix)
    requires Symmetric(h) && |x| == |h|
    ensures VecMat(x, h, |h|) == MatVec(h, x)
  {
    hide Dot, VecMat;
    forall c | 0 <= c < |h| ensures VecMat(x, h, |h|)[c] == MatVec(h, x)[c] {
      VecMatColumn(x, h, |h|, c);
      assert Column(h, |h|, c) == h[c];
      DotCommutes(x, h[c]);
    }
  }

  /** For a symmetric orthonormal matrix, rotating undoes un-rotating as well. */
  lemma RotateUnrotate(y: Vec, h: Matrix)
    requires Orthonormal(h) && Symmetric(h) && |y| == |h|
    ensures VecMat(MatVec(h, y), h, |h|) == y
  {
    hide Dot, VecMat;
    SymmetricTranspose(MatVec(h, y), h);
    SymmetricTranspose(y, h);
    UnrotateRotate(y, h);
  }

  // ----- rows end to end

  function Flatten(m: Matrix): Vec {
    if m == [] then [] else m[0] + Flatten(m[1..])
  }

  function ZeroRows(k: nat, n: nat): (m: Matrix)
    ensures IsMatrix(m, k, n) && forall i | 0 <= i < k :: m[i] == Zeros(n)
  {
    seq(k, _ => Zeros(n))
  }

  lemma ProductPositive(a: real, b: real)
    requires a > 0.0 && b > 0.0
    ensures a * b > 0.0
  {
  }

  lemma {:induction false} FlattenConcat(a: Matrix, b: Matrix)
    ensures Flatten(a + b) == Flatten(a) + Flatten(b)
  {
    if a == [] {
      assert a + b == b;
    } else {
      FlattenConcat(a[1..], b);
      assert (a + b)[1..] == a[1..] + b;
      assert Flatten(a + b) == a[0] + (Flatten(a[1..]) + Flatten(b));
    }
  }

  lemma {:induction false} FlattenLength(m: Matrix, w: nat)
    requires IsMatrix(m, |m|, w)
    ensures |Flatten(m)| == |m| * w
  {
    if m != [] { FlattenLength(m[1..], w); }
  }

  lemma FlattenOne(v: Vec)
    ensures Flatten([v]) == v
  {
    var m: Matrix := [v];
    assert m[1..] == [] && Flatten(m[1..]) == [];
  }

  /** The last row comes last. */
  lemma FlattenLast(m: Matrix)
    requires m != []
    ensures Flatten(m) == Flatten(m[..|m| - 1]) + m[|m| - 1]
  {
    var k := |m| - 1;
    assert m == m[..k] + [m[k]];
    FlattenConcat(m[..k], [m[k]]);
    FlattenOne(m[k]);
  }
}
