/**
 The Sylvester-Hadamard rotation: the doubling loop that builds it, when it is orthonormal,
 and the Kronecker-factored fast transform.
 */
module Hadamard {
  import opened Vectors

  function Pow2(k: nat): (p: nat)
    ensures p >= 1
  {
    if k == 0 then 1 else 2 * Pow2(k - 1)
  }

  ghost predicate IsPow2(n: nat) { exists k: nat :: n == Pow2(k) }

  lemma {:induction false} Pow2Add(a: nat, b: nat)
    ensures Pow2(a + b) == Pow2(a) * Pow2(b)
  {
    if a > 0 { Pow2Add(a - 1, b); }
  }

  /** `cat([cat([h, h], 1), cat([h, -h], 1)], 0)`. */
  function Doubled(h: Matrix): (d: Matrix)
    requires IsMatrix(h, |h|, |h|)
    ensures IsMatrix(d, 2 * |h|, 2 * |h|)
  {
    seq(|h|, i requires 0 <= i < |h| => h[i] + h[i])
    + seq(|h|, i requires 0 <= i < |h| => h[i] + Neg(h[i]))
  }

  lemma DoubledRow(h: Matrix, a: nat)
    requires IsMatrix(h, |h|, |h|) && a < |h|
    ensures Doubled(h)[a] == h[a] + h[a] && Doubled(h)[|h| + a] == h[a] + Neg(h[a])
  {
  }

  /** An index of the doubled matrix, folded back onto the original. */
  function Fold(i: nat, n: nat): nat
    requires i < 2 * n
  {
    if i < n then i else i - n
  }

  lemma DoubledEntry(h: Matrix, i: nat, j: nat)
    requires IsMatrix(h, |h|, |h|) && i < 2 * |h| && j < 2 * |h|
    ensures Doubled(h)[i][j] ==
            if i >= |h| && j >= |h| then -h[Fold(i, |h|)][Fold(j, |h|)] else h[Fold(i, |h|)][Fold(j, |h|)]
  {
    DoubledRow(h, Fold(i, |h|));
  }

  /** The unnormalised matrix after `k` doublings. */
  function Sylvester(k: nat): (h: Matrix)
    ensures IsMatrix(h, Pow2(k), Pow2(k))
  {
    if k == 0 then [[1.0]] else Doubled(Sylvester(k - 1))
  }

  lemma DoubledGram(h: Matrix, g: real, i: nat, j: nat)
    requires IsMatrix(h, |h|, |h|) && i < 2 * |h| && j < 2 * |h|
    requires forall a, b | 0 <= a < |h| && 0 <= b < |h| :: Dot(h[a], h[b]) == if a == b then g else 0.0
    ensures Dot(Doubled(h)[i], Doubled(h)[j]) == if i == j then 2.0 * g else 0.0
  {
    var n := |h|;
    var u, v := h[Fold(i, n)], h[Fold(j, n)];
    DoubledRow(h, Fold(i, n));
    DoubledRow(h, Fold(j, n));
    DotConcat(u, if i < n then u else Neg(u), v, if j < n then v else Neg(v));
    DotNeg(u, v);
    DotNeg(Neg(u), v);
    DotCommutes(Neg(u), v);
    DotNeg(v, u);
    DotCommutes(u, v);
  }

  /** After `k` doublings the rows are pairwise orthogonal with squared length `2^k`. */
  lemma {:induction false} SylvesterGram(k: nat, i: nat, j: nat)
    requires i < Pow2(k) && j < Pow2(k)
    ensures Dot(Sylvester(k)[i], Sylvester(k)[j]) == if i == j then Pow2(k) as real else 0.0
  {
    if k == 0 {
      assert Sylvester(0)[0] == [1.0];
      assert Dot([1.0], [1.0]) == 1.0 * 1.0 + Dot([1.0][1..], [1.0][1..]);
    } else {
      var h := Sylvester(k - 1);
      forall a, b | 0 <= a < |h| && 0 <= b < |h|
        ensures Dot(h[a], h[b]) == if a == b then Pow2(k - 1) as real else 0.0
      {
        SylvesterGram(k - 1, a, b);
      }
      DoubledGram(h, Pow2(k - 1) as real, i, j);
    }
  }

  lemma DoubledSymmetric(h: Matrix)
    requires Symmetric(h)
    ensures Symmetric(Doubled(h))
  {
    var d, n := Doubled(h), |h|;
    forall i, j | 0 <= i < 2 * n && 0 <= j < 2 * n ensures d[i][j] == d[j][i] {
      DoubledEntry(h, i, j);
      DoubledEntry(h, j, i);
      assert h[Fold(i, n)][Fold(j, n)] == h[Fold(j, n)][Fold(i, n)];
    }
  }

  lemma {:induction false} SylvesterSymmetric(k: nat)
    ensures Symmetric(Sylvester(k))
  {
    if k > 0 {
      SylvesterSymmetric(k - 1);
      DoubledSymmetric(Sylvester(k - 1));
    }
  }

  // ----- the entries, without the doubling

  /** Minus one for every bit that is set in both numbers. */
  function Sign(i: nat, j: nat): real
    decreases i
  {
    if i == 0 || j == 0 then 1.0
    else if i % 2 == 1 && j % 2 == 1 then -Sign(i / 2, j / 2) else Sign(i / 2, j / 2)
  }

  lemma SignOfBits(i: nat, j: nat, c: nat, d: nat)
    requires c < 2 && d < 2
    ensures Sign(2 * i + c, 2 * j + d) == if c == 1 && d == 1 then -Sign(i, j) else Sign(i, j)
  {
    assert (2 * i + c) / 2 == i && (2 * i + c) % 2 == c && (2 * j + d) / 2 == j && (2 * j + d) % 2 == d;
  }

  /** Setting a higher bit in both numbers flips the sign, setting it in one does not. */
  lemma {:induction false} SignHigh(k: nat, a: nat, b: nat, x: nat, y: nat)
    requires a < Pow2(k) && b < Pow2(k) && (x == 0 || x == Pow2(k)) && (y == 0 || y == Pow2(k))
    ensures Sign(a + x, b + y) == if x > 0 && y > 0 then -Sign(a, b) else Sign(a, b)
  {
    hide Sign;
    if k == 0 {
      SignOfBits(0, 0, x, y);
      SignOfBits(0, 0, 0, 0);
    } else {
      var m := Pow2(k - 1);
      var i, j, u, v := a / 2, b / 2, if x == 0 then 0 else m, if y == 0 then 0 else m;
      SignHigh(k - 1, i, j, u, v);
      SignOfBits(i + u, j + v, a % 2, b % 2);
      SignOfBits(i, j, a % 2, b % 2);
      assert 2 * (i + u) + a % 2 == a + x && 2 * (j + v) + b % 2 == b + y;
      assert 2 * i + a % 2 == a && 2 * j + b % 2 == b;
    }
  }

  lemma DoubledSigns(k: nat, h: Matrix, i: nat, j: nat)
    requires |h| == Pow2(k) && IsMatrix(h, |h|, |h|) && i < 2 * |h| && j < 2 * |h|
    requires h[Fold(i, |h|)][Fold(j, |h|)] == Sign(Fold(i, |h|), Fold(j, |h|))
    ensures Doubled(h)[i][j] == Sign(i, j)
  {
    hide Sign, Doubled, Pow2;
    var n := |h|;
    DoubledEntry(h, i, j);
    SignHigh(k, Fold(i, n), Fold(j, n), if i < n then 0 else n, if j < n then 0 else n);
  }

  /** Every entry of the doubled matrix is the sign of its two indices. */
  lemma {:induction false} SylvesterEntry(k: nat, i: nat, j: nat)
    requires i < Pow2(k) && j < Pow2(k)
    ensures Sylvester(k)[i][j] == Sign(i, j)
  {
    hide Sign, Doubled, Sylvester;
    if k > 0 {
      SylvesterUnfold(k);
      SylvesterEntry(k - 1, Fold(i, Pow2(k - 1)), Fold(j, Pow2(k - 1)));
      DoubledSigns(k - 1, Sylvester(k - 1), i, j);
    } else {
      SylvesterStart();
    }
  }

  lemma SylvesterStart()
    ensures Sylvester(0)[0][0] == Sign(0, 0)
  {
  }

  lemma SylvesterUnfold(k: nat)
    requires k > 0
    ensures Sylvester(k) == Doubled(Sylvester(k - 1))
  {
  }

  /** `h / root`, entrywise. */
  function Divided(h: Matrix, root: real): (r: Matrix)
    requires root != 0.0
    ensures |r| == |h| && forall i | 0 <= i < |h| :: r[i] == Scale(1.0 / root, h[i])
  {
    seq(|h|, i requires 0 <= i < |h| => Scale(1.0 / root, h[i]))
  }

  lemma DotScaleBoth(a: real, u: Vec, v: Vec)
    requires |u| == |v|
    ensures Dot(Scale(a, u), Scale(a, v)) == a * (a * Dot(u, v))
  {
    hide Dot, Scale;
    DotScale(a, u, Scale(a, v));
    DotCommutes(u, Scale(a, v));
    DotScale(a, v, u);
    DotCommutes(u, v);
  }

  lemma InverseSquare(root: real, n: real, g: real)
    requires root * root == n && n > 0.0
    ensures root != 0.0 && (1.0 / root) * ((1.0 / root) * g) == g / n
  {
    var a := 1.0 / root;
    var b := a * root;
    assert b == 1.0;
    assert (a * (a * g)) * (root * root) == (b * b) * g;
  }

  lemma DividedSymmetric(h: Matrix, root: real)
    requires root != 0.0 && Symmetric(h)
    ensures Symmetric(Divided(h, root))
  {
    hide Scale;
    var d := Divided(h, root);
    forall i, j | 0 <= i < |d| && 0 <= j < |d| ensures d[i][j] == d[j][i] {
      assert h[i][j] == h[j][i];
      ScaleAt(1.0 / root, h[i], j);
      ScaleAt(1.0 / root, h[j], i);
    }
  }

  /** The rows of the normalised matrix: squared length `2^k / n`, pairwise orthogonal. */
  lemma DividedGram(k: nat, n: nat, root: real, i: nat, j: nat)
    requires n >= 1 && root != 0.0 && root * root == n as real && i < Pow2(k) && j < Pow2(k)
    ensures Dot(Divided(Sylvester(k), root)[i], Divided(Sylvester(k), root)[j])
         == if i == j then Pow2(k) as real / n as real else 0.0
  {
    hide Dot, Sylvester, Pow2, Scale;
    var h := Sylvester(k);
    SylvesterGram(k, i, j);
    DotScaleBoth(1.0 / root, h[i], h[j]);
    InverseSquare(root, n as real, Dot(h[i], h[j]));
  }

  /** Everything the loop's exit state says about the returned matrix. */
  lemma HadamardExit(k: nat, n: nat, root: real, h: Matrix)
    requires n >= 1 && root != 0.0 && root * root == n as real
    requires h == Divided(Sylvester(k), root) && n <= Pow2(k) < 2 * n
    ensures Symmetric(h)
    ensures forall i, j | 0 <= i < |h| && 0 <= j < |h| ::
              Dot(h[i], h[j]) == if i == j then |h| as real / n as real else 0.0
    ensures IsPow2(n) <==> |h| == n
    ensures IsPow2(n) <==> Orthonormal(h)
    ensures forall i, j | 0 <= i < |h| && 0 <= j < |h| :: h[i][j] == 1.0 / root * Sign(i, j)
  {
    hide Dot, Sylvester, Pow2, Scale, Sign;
    forall i, j | 0 <= i < |h| && 0 <= j < |h| ensures h[i][j] == 1.0 / root * Sign(i, j) {
      SylvesterEntry(k, i, j);
      ScaleAt(1.0 / root, Sylvester(k)[i], j);
    }
    SylvesterSymmetric(k);
    DividedSymmetric(Sylvester(k), root);
    forall i, j | 0 <= i < |h| && 0 <= j < |h|
      ensures Dot(h[i], h[j]) == if i == j then |h| as real / n as real else 0.0
    {
      DividedGram(k, n, root, i, j);
    }
    NearestPow2(n, k);
    OrthonormalExactly(h, n, |h| as real / n as real);
  }

  /** Orthogonal rows of squared length `|h| / n` are orthonormal exactly when the sizes agree. */
  lemma OrthonormalExactly(h: Matrix, n: nat, d: real)
    requires n >= 1 && |h| >= 1 && IsMatrix(h, |h|, |h|) && d == |h| as real / n as real
    requires forall i, j | 0 <= i < |h| && 0 <= j < |h| :: Dot(h[i], h[j]) == if i == j then d else 0.0
    ensures Orthonormal(h) <==> |h| == n
  {
    hide Dot;
    QuotientIsOne(|h|, n, d);
    assert Dot(h[0], h[0]) == d;
  }

  lemma QuotientIsOne(a: nat, n: nat, d: real)
    requires n >= 1 && d == a as real / n as real
    ensures d == 1.0 <==> a == n
  {
    assert d * n as real == a as real;
  }

  lemma NearestPow2(n: nat, k: nat)
    requires n <= Pow2(k) < 2 * n
    ensures IsPow2(n) <==> Pow2(k) == n
  {
    if l: nat :| n == Pow2(l) {
      if k < l { Pow2Gap(k, l); } else if l < k { Pow2Gap(l, k); }
    }
  }

  lemma {:induction false} Pow2Gap(l: nat, k: nat)
    requires l < k
    ensures 2 * Pow2(l) <= Pow2(k)
  {
    if l + 1 < k { Pow2Gap(l, k - 1); }
  }

  /**
   The doubling loop and the final division by the square root of `n`. The result is always
   symmetric with orthogonal rows, and entry `(i, j)` is `1 / root` with the sign of `i` and `j`; it
   is orthonormal exactly when `n` is a power of two, and then it is `n` by `n`.
   */
  method BuildHadamard(n: nat, root: real) returns (h: Matrix)
    requires n >= 1 && root > 0.0 && root * root == n as real
    ensures Symmetric(h)
    ensures n <= |h| < 2 * n && IsPow2(|h|)
    ensures forall i, j | 0 <= i < |h| && 0 <= j < |h| ::
              Dot(h[i], h[j]) == if i == j then |h| as real / n as real else 0.0
    ensures IsPow2(n) <==> |h| == n
    ensures IsPow2(n) <==> Orthonormal(h)
    ensures forall i, j | 0 <= i < |h| && 0 <= j < |h| :: h[i][j] == 1.0 / root * Sign(i, j)
  {
    hide Dot, Sign, Scale, Doubled;
    ghost var k := 0;
    h := [[1.0]];
    while |h| < n
      invariant h == Sylvester(k)
      invariant |h| == Pow2(k) < 2 * n
      decreases n - |h|
    {
      h := Doubled(h);
      k := k + 1;
    }
    h := Divided(h, root);
    HadamardExit(k, n, root, h);
  }

  // ----- the Kronecker-factored transform

  /** `x` viewed as `count` rows of length `w`. */
  function Blocks(x: Vec, w: nat, count: nat): (m: Matrix)
    requires |x| == count * w
    ensures IsMatrix(m, count, w)
    decreases count
  {
    if count == 0 then [] else [x[..w]] + Blocks(x[w..], w, count - 1)
  }

  /** Contract `small` on the last axis of the `[rows, w]` view, then `big` on the first. */
  function KroneckerApply(x: Vec, big: Matrix, small: Matrix): (r: Matrix)
    requires |x| == |big| * |small|
    requires IsMatrix(big, |big|, |big|) && IsMatrix(small, |small|, |small|)
    ensures IsMatrix(r, |big|, |small|)
  {
    var t := MatMul(Blocks(x, |small|, |big|), small, |small|);
    seq(|big|, k requires 0 <= k < |big| => VecMat(Column(big, |big|, k), t, |small|))
  }

  lemma {:induction false} BlocksConcat(x: Vec, y: Vec, w: nat, m: nat, n: nat)
    requires |x| == m * w && |y| == n * w
    ensures |x + y| == (m + n) * w
    ensures Blocks(x + y, w, m + n) == Blocks(x, w, m) + Blocks(y, w, n)
    decreases m
  {
    assert |x + y| == (m + n) * w;
    if m == 0 {
      assert x + y == y;
    } else {
      assert |x| >= w by { assert m * w == w + (m - 1) * w; }
      assert |x[w..]| == (m - 1) * w;
      BlocksConcat(x[w..], y, w, m - 1, n);
      assert (x + y)[w..] == x[w..] + y;
      assert (x + y)[..w] == x[..w];
    }
  }

  /** A column of the doubled matrix: the folded column twice, negated once in the right half. */
  lemma DoubledColumn(h: Matrix, c: nat)
    requires IsMatrix(h, |h|, |h|) && c < 2 * |h|
    ensures Column(Doubled(h), 2 * |h|, c)
         == Column(h, |h|, Fold(c, |h|)) + Scale(if c < |h| then 1.0 else -1.0, Column(h, |h|, Fold(c, |h|)))
  {
    hide Scale;
    var col := Column(h, |h|, Fold(c, |h|));
    var s := if c < |h| then 1.0 else -1.0;
    forall i | 0 <= i < 2 * |h| ensures Column(Doubled(h), 2 * |h|, c)[i] == (col + Scale(s, col))[i] {
      DoubledEntry(h, i, c);
      ScaleAt(s, col, Fold(i, |h|));
    }
  }

  /** Every row `r` of `h` extended to `r, s * r`. */
  function SideBySide(h: Matrix, s: real, n: nat): (m: Matrix)
    requires IsMatrix(h, |h|, n)
    ensures IsMatrix(m, |h|, 2 * n) && forall i | 0 <= i < |h| :: m[i] == h[i] + Scale(s, h[i])
  {
    seq(|h|, i requires 0 <= i < |h| => h[i] + Scale(s, h[i]))
  }

  lemma DoubledIsSideBySide(h: Matrix)
    requires IsMatrix(h, |h|, |h|)
    ensures Doubled(h) == SideBySide(h, 1.0, |h|) + SideBySide(h, -1.0, |h|)
  {
    hide Scale, Neg;
    forall i | 0 <= i < |h| ensures Scale(1.0, h[i]) == h[i] && Scale(-1.0, h[i]) == Neg(h[i]) {
      ScaleOne(h[i]);
      ScaleMinusOne(h[i]);
    }
  }

  lemma ScaleMinusOne(v: Vec)
    ensures Scale(-1.0, v) == Neg(v)
  {
    hide Scale;
    forall i | 0 <= i < |v| ensures Scale(-1.0, v)[i] == Neg(v)[i] { ScaleAt(-1.0, v, i); }
  }

  lemma AddOfConcats(a: Vec, b: Vec, c: Vec, d: Vec)
    requires |a| == |c| && |b| == |d|
    ensures Add(a + b, c + d) == Add(a, c) + Add(b, d)
  {
  }

  lemma {:induction false} VecMatSide(x: Vec, h: Matrix, s: real, n: nat)
    requires IsMatrix(h, |x|, n)
    ensures VecMat(x, SideBySide(h, s, n), 2 * n) == VecMat(x, h, n) + Scale(s, VecMat(x, h, n))
  {
    hide VecMat, Scale, Add, SideBySide;
    var m := SideBySide(h, s, n);
    VecMatUnfold(x, m, 2 * n);
    VecMatUnfold(x, h, n);
    if x == [] {
      ScaleZeros(s, n);
      assert Zeros(2 * n) == Zeros(n) + Zeros(n);
    } else {
      assert m[1..] == SideBySide(h[1..], s, n);
      VecMatSide(x[1..], h[1..], s, n);
      SideStep(x[0], s, h[0], VecMat(x[1..], h[1..], n));
    }
  }

  lemma SideStep(a: real, s: real, r: Vec, q: Vec)
    requires |r| == |q|
    ensures Add(Scale(a, r + Scale(s, r)), q + Scale(s, q))
         == Add(Scale(a, r), q) + Scale(s, Add(Scale(a, r), q))
  {
    hide Scale, Add;
    var p := Scale(a, r);
    ScaleConcat(a, r, Scale(s, r));
    ScaleScale(a, s, a * s, r);
    ScaleScale(s, a, a * s, r);
    AddOfConcats(p, Scale(s, p), q, Scale(s, q));
    ScaleAdd(s, p, q);
  }

  /** Multiplying by a doubled matrix: `(x @ h + y @ h, x @ h - y @ h)`. */
  lemma VecMatDoubled(x: Vec, y: Vec, h: Matrix)
    requires IsMatrix(h, |h|, |h|) && |x| == |y| == |h|
    ensures VecMat(x + y, Doubled(h), 2 * |h|)
         == Add(VecMat(x, h, |h|), Scale(1.0, VecMat(y, h, |h|)))
          + Add(VecMat(x, h, |h|), Scale(-1.0, VecMat(y, h, |h|)))
  {
    hide VecMat, Doubled, Add, Scale, SideBySide;
    var n := |h|;
    var u, v := VecMat(x, h, n), VecMat(y, h, n);
    DoubledIsSideBySide(h);
    VecMatConcat(x, y, SideBySide(h, 1.0, n), SideBySide(h, -1.0, n), 2 * n);
    VecMatSide(x, h, 1.0, n);
    VecMatSide(y, h, -1.0, n);
    ScaleOne(u);
    ScaleOne(v);
    AddOfConcats(u, u, v, Scale(-1.0, v));
  }

  lemma SplitColumns(big: Matrix, t1: Matrix, t2: Matrix, w: nat, c: nat)
    requires IsMatrix(big, |big|, |big|) && IsMatrix(t1, |big|, w) && IsMatrix(t2, |big|, w) && c < 2 * |big|
    ensures IsMatrix(t1 + t2, 2 * |big|, w)
    ensures VecMat(Column(Doubled(big), 2 * |big|, c), t1 + t2, w)
         == Add(VecMat(Column(big, |big|, Fold(c, |big|)), t1, w),
                Scale(if c < |big| then 1.0 else -1.0, VecMat(Column(big, |big|, Fold(c, |big|)), t2, w)))
  {
    var col, s := Column(big, |big|, Fold(c, |big|)), if c < |big| then 1.0 else -1.0;
    DoubledColumn(big, c);
    VecMatConcat(col, Scale(s, col), t1, t2, w);
    VecMatScale(s, col, t2, w);
  }

  /** `a[k] + s * b[k]`, block by block. */
  function Combine(a: Matrix, b: Matrix, s: real, w: nat): (m: Matrix)
    requires IsMatrix(a, |a|, w) && IsMatrix(b, |a|, w)
    ensures IsMatrix(m, |a|, w) && forall k | 0 <= k < |a| :: m[k] == Add(a[k], Scale(s, b[k]))
  {
    seq(|a|, k requires 0 <= k < |a| => Add(a[k], Scale(s, b[k])))
  }

  lemma AddConcat(a: Vec, b: Vec, c: Vec, d: Vec, s: real)
    requires |a| == |c| && |b| == |d|
    ensures Add(a, Scale(s, c)) + Add(b, Scale(s, d)) == Add(a + b, Scale(s, c + d))
  {
    hide Scale;
    ScaleConcat(s, c, d);
  }

  /** Combining two matrices block by block combines their flattenings. */
  lemma {:induction false} FlattenCombine(a: Matrix, b: Matrix, s: real, w: nat)
    requires IsMatrix(a, |a|, w) && IsMatrix(b, |a|, w)
    ensures |Flatten(a)| == |Flatten(b)|
    ensures Flatten(Combine(a, b, s, w)) == Add(Flatten(a), Scale(s, Flatten(b)))
  {
    FlattenLength(a, w);
    FlattenLength(b, w);
    if a != [] {
      FlattenCombine(a[1..], b[1..], s, w);
      assert Combine(a, b, s, w)[1..] == Combine(a[1..], b[1..], s, w);
      AddConcat(a[0], Flatten(a[1..]), b[0], Flatten(b[1..]), s);
    }
  }

  lemma KroneckerBase(x: Vec, big: Matrix, small: Matrix)
    requires big == [[1.0]] && IsMatrix(small, |x|, |x|)
    ensures Flatten(KroneckerApply(x, big, small)) == VecMat(x, small, |x|)
  {
    hide VecMat, Blocks, MatMul, Column, Flatten, Scale;
    var t := MatMul([x], small, |x|);
    OneBlock(x);
    VecMatOne(t, |x|);
    assert Column(big, 1, 0) == [1.0];
    var r := KroneckerApply(x, big, small);
    assert r == [t[0]];
    FlattenOne(t[0]);
  }

  lemma OneBlock(x: Vec)
    ensures Blocks(x, |x|, 1) == [x]
  {
    assert x[..|x|] == x;
    assert Blocks(x[|x|..], |x|, 0) == [];
  }

  lemma VecMatOne(t: Matrix, w: nat)
    requires IsMatrix(t, 1, w)
    ensures VecMat([1.0], t, w) == t[0]
  {
    hide Scale;
    var x: Vec := [1.0];
    assert x[1..] == [] && VecMat(x[1..], t[1..], w) == Zeros(w);
    ScaleOne(t[0]);
  }

  lemma KroneckerStep(x1: Vec, x2: Vec, big: Matrix, small: Matrix)
    requires IsMatrix(big, |big|, |big|) && IsMatrix(small, |small|, |small|)
    requires |x1| == |x2| == |big| * |small|
    ensures |x1 + x2| == |Doubled(big)| * |small|
    ensures KroneckerApply(x1 + x2, Doubled(big), small)
         == Combine(KroneckerApply(x1, big, small), KroneckerApply(x2, big, small), 1.0, |small|)
          + Combine(KroneckerApply(x1, big, small), KroneckerApply(x2, big, small), -1.0, |small|)
  {
    hide VecMat, Doubled, Blocks, Scale, Add;
    var n, w := |big|, |small|;
    assert 2 * n * w == n * w + n * w;
    BlocksConcat(x1, x2, w, n, n);
    var b1, b2 := Blocks(x1, w, n), Blocks(x2, w, n);
    var t1, t2 := MatMul(b1, small, w), MatMul(b2, small, w);
    assert MatMul(b1 + b2, small, w) == t1 + t2;
    forall c | 0 <= c < 2 * n {
      SplitColumns(big, t1, t2, w, c);
    }
  }

  /**
   The fast transform is exact: contracting `H_(2^q)` on the last axis and `H_(2^p)` on the
   first axis of the `[2^p, 2^q]` view multiplies by the dense `H_(2^(p+q))`.
   */
  lemma {:induction false} KroneckerExact(x: Vec, p: nat, q: nat)
    requires |x| == Pow2(p) * Pow2(q)
    ensures Pow2(p + q) == Pow2(p) * Pow2(q)
    ensures Flatten(KroneckerApply(x, Sylvester(p), Sylvester(q)))
         == VecMat(x, Sylvester(p + q), Pow2(p + q))
    decreases p
  {
    hide VecMat, Doubled, Blocks, KroneckerApply, Flatten, Scale, Add;
    Pow2Add(p, q);
    var small, w := Sylvester(q), Pow2(q);
    if p == 0 {
      KroneckerBase(x, Sylvester(0), small);
    } else {
      var big, n := Sylvester(p - 1), Pow2(p - 1);
      assert 2 * n * w == n * w + n * w;
      var x1, x2 := x[..n * w], x[n * w..];
      assert x == x1 + x2;
      KroneckerExact(x1, p - 1, q);
      KroneckerExact(x2, p - 1, q);
      KroneckerStep(x1, x2, big, small);
      var a, b := KroneckerApply(x1, big, small), KroneckerApply(x2, big, small);
      FlattenConcat(Combine(a, b, 1.0, w), Combine(a, b, -1.0, w));
      FlattenCombine(a, b, 1.0, w);
      FlattenCombine(a, b, -1.0, w);
      VecMatDoubled(x1, x2, Sylvester(p - 1 + q));
      assert p + q - 1 == p - 1 + q;
    }
  }
}
