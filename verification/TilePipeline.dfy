/**
 From latents to a tile record and back: rotate, balance, quantise per channel, fold the scales,
 pack; then unpack and dequantise, with the error of the whole trip.
 */
module TilePipeline {
  import opened Vectors
  import opened Quantizer
  import opened Sinkhorn
  import opened TileRecord
  import opened TileCodec

  function Transpose(m: Matrix, n: nat): (r: Matrix)
    requires IsMatrix(m, |m|, n)
    ensures IsMatrix(r, n, |m|) && forall c, t | 0 <= c < n && 0 <= t < |m| :: r[c][t] == m[t][c]
  {
    seq(n, c requires 0 <= c < n => Column(m, n, c))
  }

  /** A frame (channels by tokens) with its per-token and per-channel scales and its rope rows. */
  datatype Frame = Frame(tile: Tile, sCol: Vec, sRow: Vec, rope: Matrix)

  predicate ValidFrame(f: Frame, g: Geometry) {
    && ValidTile(f.tile) && |f.tile.m| == g.r && f.tile.cols == g.group
    && |f.sCol| == g.group && |f.sRow| == g.r && AllPositive(f.sCol) && AllPositive(f.sRow)
    && IsMatrix(f.rope, g.group, g.rope)
  }

  /** The quantised channel `c` of the balanced frame. */
  function ChannelOf(f: Frame, g: Geometry, c: nat): (ch: Channel)
    requires ValidFrame(f, g) && c < g.r
    ensures |ch.codes| == g.group && ch.step > 0.0
  {
    Quantize(Balanced(f.tile, f.sCol, f.sRow)[c], QMAX)
  }

  lemma CodesBounded(v: Vec, i: nat)
    requires v != [] && i < |v|
    ensures Quantize(v, QMAX).codes[i] <= QMAX
  {
    hide MinOf, MaxOf, StepOf, CodeOf;
  }

  function TokenCodes(f: Frame, g: Geometry, t: nat): (q: seq<nat>)
    requires ValidFrame(f, g) && t < g.group
    ensures |q| == g.r && forall c | 0 <= c < g.r :: q[c] == ChannelOf(f, g, c).codes[t]
  {
    hide ChannelOf;
    seq(g.r, c requires 0 <= c < g.r => ChannelOf(f, g, c).codes[t])
  }

  /** What is stored: token-major codes, and the per-channel scale folded into step and lower end. */
  function ContentsOf(f: Frame, g: Geometry): (x: Contents)
    requires ValidFrame(f, g)
  {
    Contents(seq(g.group, t requires 0 <= t < g.group => TokenCodes(f, g, t)),
             seq(g.r, c requires 0 <= c < g.r => ChannelOf(f, g, c).step * f.sRow[c]),
             seq(g.r, c requires 0 <= c < g.r => ChannelOf(f, g, c).lo * f.sRow[c]),
             f.sCol, f.rope)
  }

  lemma ContentsOfFits(f: Frame, g: Geometry)
    requires ValidFrame(f, g)
    ensures ContentsFit(ContentsOf(f, g), g)
  {
    hide TokenCodes, Quantize, Balanced;
    var x := ContentsOf(f, g);
    forall t, c | 0 <= t < g.group && 0 <= c < g.r ensures x.codes[t][c] <= QMAX {
      assert x.codes[t] == TokenCodes(f, g, t);
      CodesBounded(Balanced(f.tile, f.sCol, f.sRow)[c], t);
    }
    forall t | 0 <= t < g.group ensures |x.codes[t]| == g.r {
      assert x.codes[t] == TokenCodes(f, g, t);
    }
  }

  // ----- exact dequantisation

  /** `(q * scale_abs + zp_abs) * sr`, with unrounded numbers. */
  function FoldedAt(f: Frame, g: Geometry, t: nat, c: nat): real
    requires ValidFrame(f, g) && t < g.group && c < g.r
  {
    var ch := ChannelOf(f, g, c);
    DequantValue(ch.codes[t] as real, ch.step * f.sRow[c], ch.lo * f.sRow[c], f.sCol[t])
  }

  /** `(q * scale + lo) * s_col * s_row`. */
  function UnfoldedAt(f: Frame, g: Geometry, t: nat, c: nat): real
    requires ValidFrame(f, g) && t < g.group && c < g.r
  {
    Dequantize(ChannelOf(f, g, c))[t] * f.sCol[t] * f.sRow[c]
  }

  /** Folding the per-channel scale into step and zero point changes no value. */
  lemma FoldingIsExact(f: Frame, g: Geometry, t: nat, c: nat)
    requires ValidFrame(f, g) && t < g.group && c < g.r
    ensures FoldedAt(f, g, t, c) == UnfoldedAt(f, g, t, c)
  {
    hide ChannelOf;
    var ch := ChannelOf(f, g, c);
    FoldAlgebra(ch.codes[t] as real, ch.step, ch.lo, f.sRow[c], f.sCol[t]);
  }

  lemma FoldAlgebra(q: real, step: real, lo: real, r: real, s: real)
    ensures (q * (step * r) + lo * r) * s == (q * step + lo) * s * r
  {
    var a := q * step + lo;
    assert q * (step * r) + lo * r == a * r;
    assert (a * r) * s == a * s * r;
  }

  /** The record stores, for every token and channel, the nearest of the 16 levels of the balanced channel. */
  lemma RecordLevels(f: Frame, g: Geometry, enc: HalfWriter, t: nat, c: nat)
    requires ValidGeometry(g) && ValidFrame(f, g) && t < g.group && c < g.r
    ensures ContentsFit(ContentsOf(f, g), g) && Holds(RecordOf(ContentsOf(f, g), g, enc), 0, g)
    ensures NearestLevel(Balanced(f.tile, f.sCol, f.sRow)[c], t,
                         CodeAt(RecordOf(ContentsOf(f, g), g, enc), 0, g, t, c))
  {
    hide RecordOf, ContentsFit, ContentsOf, CodeAt, Balanced, Quantize, NearestLevel, RecordBytes;
    ContentsOfFits(f, g);
    EntriesOf(f, g, t, c);
    CodesReadBack(ContentsOf(f, g), g, enc, t, c);
    CodesAreNearest(Balanced(f.tile, f.sCol, f.sRow)[c], t);
  }

  /** Half a quantisation step, in the units of the frame. */
  function HalfStep(f: Frame, g: Geometry, t: nat, c: nat): real
    requires ValidFrame(f, g) && t < g.group && c < g.r
  {
    ChannelOf(f, g, c).step / 2.0 * f.sRow[c] * f.sCol[t]
  }

  /** Every dequantised entry is within `scale / 2 * s_row * s_col` of the frame. */
  lemma FrameError(f: Frame, g: Geometry, t: nat, c: nat)
    requires ValidFrame(f, g) && t < g.group && c < g.r
    ensures Abs(FoldedAt(f, g, t, c) - f.tile.m[c][t]) <= HalfStep(f, g, t, c)
  {
    hide Quantize, Dequantize, Balanced, FoldedAt;
    FoldingIsExact(f, g, t, c);
    var bal := Balanced(f.tile, f.sCol, f.sRow)[c];
    ChannelError(bal, QMAX, t);
    BalancedRestores(f.tile, f.sCol, f.sRow, c, t);
    ScaledError(Dequantize(ChannelOf(f, g, c))[t], bal[t], ChannelOf(f, g, c).step / 2.0, f.sRow[c], f.sCol[t]);
  }

  /** That half step, from the entries of the balanced channel alone. */
  lemma HalfStepIs(f: Frame, g: Geometry, t: nat, c: nat)
    requires ValidFrame(f, g) && t < g.group && c < g.r
    ensures var bal := Balanced(f.tile, f.sCol, f.sRow)[c];
            var range := MaxOf(bal) - MinOf(bal);
            HalfStep(f, g, t, c) ==
            (if range > 0.00000015 then range / 30.0 else 0.000000005) * f.sRow[c] * f.sCol[t]
  {
    hide Balanced, Quantize;
    StepIs(Balanced(f.tile, f.sCol, f.sRow)[c]);
  }

  lemma ScaledError(d: real, b: real, e: real, r: real, s: real)
    requires Abs(d - b) <= e && r > 0.0 && s > 0.0
    ensures Abs(d * s * r - b * r * s) <= e * r * s
  {
    var k := r * s;
    ProductPositive(r, s);
    assert d * s * r == d * k && b * r * s == b * k && e * r * s == e * k;
    AbsProduct(k, d - b, e);
    assert k * (d - b) == d * k - b * k;
  }

  // ----- with fp16 rounding of the stored numbers

  /** The fp16 round trip of `x` has relative error at most `u`. */
  ghost predicate RoundsWithin(enc: HalfWriter, dec: HalfReader, u: real, x: real) {
    Abs(RoundTrip(enc, dec, x) - x) <= Times(u, Abs(x))
  }

  /** The numbers stored for this frame survive fp16 with relative error at most `u`. */
  ghost predicate FrameRounds(f: Frame, g: Geometry, enc: HalfWriter, dec: HalfReader, u: real)
    requires ValidFrame(f, g)
  {
    && u >= 0.0
    && (forall c | 0 <= c < g.r :: RoundsWithin(enc, dec, u, ContentsOf(f, g).scale[c]))
    && (forall c | 0 <= c < g.r :: RoundsWithin(enc, dec, u, ContentsOf(f, g).zero[c]))
    && (forall t | 0 <= t < g.group :: RoundsWithin(enc, dec, u, f.sCol[t]))
  }

  /** How far rounding scale, zero point and token scale can move a dequantised value. */
  function RoundingSlack(u: real, q: real, sa: real, za: real, sr: real): real {
    (2.0 * u + u * u) * ((q * sa + Abs(za)) * sr)
  }

  /** Half a step plus the effect of rounding the stored scale, zero point and token scale. */
  function StoredBound(f: Frame, g: Geometry, u: real, t: nat, c: nat): real
    requires ValidFrame(f, g) && t < g.group && c < g.r
  {
    var ch := ChannelOf(f, g, c);
    HalfStep(f, g, t, c)
    + RoundingSlack(u, ch.codes[t] as real, ch.step * f.sRow[c], ch.lo * f.sRow[c], f.sCol[t])
  }

  lemma AbsTimes(x: real, y: real)
    ensures Abs(Times(x, y)) == Times(Abs(x), Abs(y))
  {
    if x >= 0.0 {
      if y >= 0.0 { NonNegativeProduct(x, y); } else { NonNegativeProduct(x, -y); }
    } else {
      if y >= 0.0 { NonNegativeProduct(-x, y); } else { NonNegativeProduct(-x, -y); }
    }
  }

  lemma NonNegativeProduct(a: real, b: real)
    requires a >= 0.0 && b >= 0.0
    ensures a * b >= 0.0 && Times(a, b) >= 0.0
  {
  }

  lemma ProductBound(a: real, b: real, c: real, d: real)
    requires 0.0 <= a <= c && 0.0 <= b <= d
    ensures Times(a, b) <= Times(c, d)
  {
    RightMonotone(a, c, b);
    RightMonotone(b, d, c);
  }

  lemma PerturbedProduct(a: real, a': real, s: real, s': real)
    ensures Times(a', s') - Times(a, s) == Times(a' - a, s) + Times(a, s' - s) + Times(a' - a, s' - s)
  {
  }

  lemma CollectBounds(u: real, n: real, s: real)
    ensures Times(Times(u, n), s) + Times(n, Times(u, s)) + Times(Times(u, n), Times(u, s))
         == (2.0 * u + u * u) * (n * s)
  {
    var p := n * s;
    assert (u * n) * s == u * p;
    assert n * (u * s) == u * p;
    assert (u * n) * (u * s) == (u * u) * p;
    TimesDistributes(p, 2.0 * u, u * u);
  }

  lemma ProductPerturbation(a: real, a': real, s: real, s': real, n: real, u: real)
    requires n >= 0.0 && s >= 0.0 && u >= 0.0
    requires Abs(a' - a) <= Times(u, n) && Abs(a) <= n && Abs(s' - s) <= Times(u, s)
    ensures Abs(Times(a', s') - Times(a, s))
         <= Times(Times(u, n), s) + Times(n, Times(u, s)) + Times(Times(u, n), Times(u, s))
  {
    hide Times;
    var d, e := a' - a, s' - s;
    PerturbedProduct(a, a', s, s');
    AbsTimes(d, s);
    AbsTimes(a, e);
    AbsTimes(d, e);
    AbsOfNonNegative(s);
    ProductBound(Abs(d), s, Times(u, n), s);
    ProductBound(Abs(a), Abs(e), n, Times(u, s));
    ProductBound(Abs(d), Abs(e), Times(u, n), Times(u, s));
    ThreeTerms(Times(d, s), Times(a, e), Times(d, e),
               Times(Times(u, n), s), Times(n, Times(u, s)), Times(Times(u, n), Times(u, s)));
  }

  lemma ThreeTerms(x: real, y: real, z: real, a: real, b: real, c: real)
    requires Abs(x) <= a && Abs(y) <= b && Abs(z) <= c
    ensures Abs(x + y + z) <= a + b + c
  {
  }

  lemma TimesSwap(q: real, u: real, x: real)
    ensures Times(q, Times(u, x)) == Times(u, Times(q, x))
  {
  }

  lemma TimesAdds(a: real, b: real, c: real)
    ensures Times(a, b + c) == Times(a, b) + Times(a, c)
    ensures Times(a, b - c) == Times(a, b) - Times(a, c)
  {
  }

  lemma RoundedSum(q: real, sa: real, za: real, sa': real, za': real, u: real)
    requires q >= 0.0 && sa >= 0.0 && u >= 0.0
    requires Abs(sa' - sa) <= Times(u, sa) && Abs(za' - za) <= Times(u, Abs(za))
    ensures Abs((Times(q, sa') + za') - (Times(q, sa) + za)) <= Times(u, Times(q, sa) + Abs(za))
    ensures Abs(Times(q, sa) + za) <= Times(q, sa) + Abs(za) && Times(q, sa) + Abs(za) >= 0.0
  {
    hide Times;
    var e := sa' - sa;
    AbsTimes(q, e);
    AbsOfNonNegative(q);
    ProductBound(q, Abs(e), q, Times(u, sa));
    TimesSwap(q, u, sa);
    TimesAdds(q, sa', sa);
    TimesAdds(u, Times(q, sa), Abs(za));
    AbsTriangle(Times(q, e), za' - za);
    NonNegativeProduct(q, sa);
    AbsTriangle(Times(q, sa), za);
  }

  lemma DequantTimes(q: real, sa: real, za: real, sr: real)
    ensures DequantValue(q, sa, za, sr) == Times(Times(q, sa) + za, sr)
  {
  }

  lemma SlackTimes(u: real, q: real, sa: real, za: real, sr: real)
    ensures RoundingSlack(u, q, sa, za, sr)
         == Times(Times(u, Times(q, sa) + Abs(za)), sr) + Times(Times(q, sa) + Abs(za), Times(u, sr))
          + Times(Times(u, Times(q, sa) + Abs(za)), Times(u, sr))
  {
    hide Abs;
    CollectBounds(u, Times(q, sa) + Abs(za), sr);
  }

  /** Rounding three factors of a dequantisation. */
  lemma RoundedProduct(q: real, sa: real, za: real, sr: real, sa': real, za': real, sr': real, u: real)
    requires q >= 0.0 && sa >= 0.0 && sr >= 0.0 && u >= 0.0
    requires Abs(sa' - sa) <= Times(u, sa) && Abs(za' - za) <= Times(u, Abs(za)) && Abs(sr' - sr) <= Times(u, sr)
    ensures Abs(DequantValue(q, sa', za', sr') - DequantValue(q, sa, za, sr)) <= RoundingSlack(u, q, sa, za, sr)
  {
    hide Times, DequantValue, RoundingSlack, Abs;
    RoundedSum(q, sa, za, sa', za', u);
    ProductPerturbation(Times(q, sa) + za, Times(q, sa') + za', sr, sr', Times(q, sa) + Abs(za), u);
    DequantTimes(q, sa, za, sr);
    DequantTimes(q, sa', za', sr');
    SlackTimes(u, q, sa, za, sr);
  }

  /** Reading back a packed frame: every latent entry within the stored bound of the frame. */
  lemma StoredError(f: Frame, g: Geometry, enc: HalfWriter, dec: HalfReader, u: real, t: nat, c: nat)
    requires ValidGeometry(g) && ValidFrame(f, g) && FrameRounds(f, g, enc, dec, u) && t < g.group && c < g.r
    ensures ContentsFit(ContentsOf(f, g), g)
    ensures Holds(RecordOf(ContentsOf(f, g), g, enc), 0, g)
    ensures Abs(RecordRow(RecordOf(ContentsOf(f, g), g, enc), 0, g, dec, t).lat[c] - f.tile.m[c][t])
         <= StoredBound(f, g, u, t, c)
  {
    hide RecordOf, RecordRow, ContentsFit, TokenCodes, ChannelOf, RoundTrip, Abs, HalfStep, RecordBytes, ContentsOf,
         DequantValue, RoundingSlack, Times;
    ContentsOfFits(f, g);
    var x, ch := ContentsOf(f, g), ChannelOf(f, g, c);
    RecordRoundTrip(x, g, enc, dec, t);
    FrameError(f, g, t, c);
    EntriesOf(f, g, t, c);
    var q, sa, za, sr := x.codes[t][c] as real, x.scale[c], x.zero[c], x.token[t];
    assert RoundsWithin(enc, dec, u, sa) && RoundsWithin(enc, dec, u, za) && RoundsWithin(enc, dec, u, sr);
    NonNegativeProduct(ch.step, f.sRow[c]);
    AbsOfNonNegative(sa);
    AbsOfNonNegative(sr);
    RoundedProduct(q, sa, za, sr, RoundTrip(enc, dec, sa), RoundTrip(enc, dec, za), RoundTrip(enc, dec, sr), u);
    StoredParts(f, g, u, t, c, sa, za);
    AbsChain(RecordRow(RecordOf(x, g, enc), 0, g, dec, t).lat[c], FoldedAt(f, g, t, c), f.tile.m[c][t]);
  }

  lemma StoredParts(f: Frame, g: Geometry, u: real, t: nat, c: nat, sa: real, za: real)
    requires ValidFrame(f, g) && t < g.group && c < g.r
    requires sa == ChannelOf(f, g, c).step * f.sRow[c] && za == ChannelOf(f, g, c).lo * f.sRow[c]
    ensures var q := ChannelOf(f, g, c).codes[t] as real;
            && FoldedAt(f, g, t, c) == DequantValue(q, sa, za, f.sCol[t])
            && StoredBound(f, g, u, t, c) == HalfStep(f, g, t, c) + RoundingSlack(u, q, sa, za, f.sCol[t])
  {
    hide ChannelOf, HalfStep;
  }

  lemma EntriesOf(f: Frame, g: Geometry, t: nat, c: nat)
    requires ValidFrame(f, g) && t < g.group && c < g.r
    ensures var x, ch := ContentsOf(f, g), ChannelOf(f, g, c);
            && |x.codes| == g.group && |x.scale| == |x.zero| == g.r && |x.token| == g.group
            && |x.codes[t]| == g.r && x.codes[t][c] == ch.codes[t]
            && x.scale[c] == ch.step * f.sRow[c] && x.zero[c] == ch.lo * f.sRow[c] && x.token[t] == f.sCol[t]
  {
    hide TokenCodes, ChannelOf;
    assert ContentsOf(f, g).codes[t] == TokenCodes(f, g, t);
  }

  lemma AbsOfNonNegative(x: real)
    requires x >= 0.0
    ensures Abs(x) == x
  {
  }

  lemma AbsChain(a: real, b: real, c: real)
    ensures Abs(a - c) <= Abs(a - b) + Abs(b - c)
  {
    AbsTriangle(a - b, b - c);
  }
}
