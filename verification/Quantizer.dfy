/**
 The per-channel asymmetric round-to-nearest quantiser: `lo`, `scale`, codes and dequantisation
 of one channel, its error bound, and that it is a projection.
 */
module Quantizer {
  import opened Vectors

  /** Round to nearest, ties to even. */
  function RoundHalfEven(x: real): int {
    var f := x.Floor;
    var d := x - f as real;
    if d < 0.5 then f else if d > 0.5 then f + 1 else if f % 2 == 0 then f else f + 1
  }

  function MinOf(v: Vec): (m: real)
    requires v != []
    ensures m in v && forall i | 0 <= i < |v| :: m <= v[i]
  {
    if |v| == 1 then v[0]
    else
      var m := MinOf(v[1..]);
      assert forall i | 1 <= i < |v| :: v[i] == v[1..][i - 1];
      if v[0] < m then v[0] else m
  }

  function MaxOf(v: Vec): (m: real)
    requires v != []
    ensures m in v && forall i | 0 <= i < |v| :: v[i] <= m
  {
    if |v| == 1 then v[0]
    else
      var m := MaxOf(v[1..]);
      assert forall i | 1 <= i < |v| :: v[i] == v[1..][i - 1];
      if v[0] > m then v[0] else m
  }

  const SCALE_FLOOR: real := 0.00000001

  /** `((hi - lo) / qmax).clamp_min(1e-8)`. */
  function StepOf(lo: real, hi: real, qmax: nat): (s: real)
    requires qmax >= 1
    ensures s > 0.0
  {
    var s := (hi - lo) / qmax as real;
    if s < SCALE_FLOOR then SCALE_FLOOR else s
  }

  function Clamp(n: int, lo: int, hi: int): int { if n < lo then lo else if n > hi then hi else n }

  /** `clamp(round((x - lo) / scale), 0, qmax)`. */
  function CodeOf(x: real, lo: real, step: real, qmax: nat): (q: nat)
    requires step > 0.0
    ensures q <= qmax
  {
    Clamp(RoundHalfEven((x - lo) / step), 0, qmax)
  }

  function Decoded(q: nat, lo: real, step: real): real { q as real * step + lo }

  /** One channel: its lower end, its step and its codes. */
  datatype Channel = Channel(lo: real, step: real, codes: seq<nat>)

  function Quantize(v: Vec, qmax: nat): (ch: Channel)
    requires v != [] && qmax >= 1
    ensures |ch.codes| == |v| && ch.step > 0.0
  {
    var lo, hi := MinOf(v), MaxOf(v);
    var step := StepOf(lo, hi, qmax);
    Channel(lo, step, seq(|v|, i requires 0 <= i < |v| => CodeOf(v[i], lo, step, qmax)))
  }

  function Dequantize(ch: Channel): (v: Vec)
    ensures |v| == |ch.codes| && forall i | 0 <= i < |v| :: v[i] == Decoded(ch.codes[i], ch.lo, ch.step)
  {
    seq(|ch.codes|, i requires 0 <= i < |ch.codes| => Decoded(ch.codes[i], ch.lo, ch.step))
  }

  // ----- rounding

  lemma RoundNear(x: real)
    ensures -0.5 <= RoundHalfEven(x) as real - x <= 0.5
  {
  }

  lemma RoundInteger(n: int, x: real)
    requires x == n as real
    ensures RoundHalfEven(x) == n
  {
  }

  /** Rounding a value between two integers stays between them. */
  lemma RoundBetween(x: real, a: int, b: int)
    requires a as real <= x <= b as real
    ensures a <= RoundHalfEven(x) <= b
  {
    RoundNear(x);
  }

  lemma RoundTie(x: real)
    requires RoundHalfEven(x) as real - x == 0.5 || x - RoundHalfEven(x) as real == 0.5
    ensures RoundHalfEven(x) % 2 == 0
  {
  }

  // ----- one entry

  lemma StepTimesMax(lo: real, hi: real, qmax: nat, step: real)
    requires qmax >= 1 && step == StepOf(lo, hi, qmax)
    ensures hi - lo <= step * qmax as real
    ensures step > SCALE_FLOOR ==> hi - lo == step * qmax as real
  {
    var q := qmax as real;
    var s := (hi - lo) / q;
    assert s * q == hi - lo;
    if s < SCALE_FLOOR {
      RightMonotone(s, SCALE_FLOOR, q);
    }
  }

  lemma RightMonotone(a: real, b: real, k: real)
    requires a <= b && k >= 0.0
    ensures a * k <= b * k
  {
  }

  /** The normalised position of an entry of the channel lies in `0 .. qmax`. */
  lemma PositionInRange(x: real, lo: real, hi: real, step: real, qmax: nat)
    requires qmax >= 1 && lo <= x <= hi && step == StepOf(lo, hi, qmax)
    ensures 0.0 <= (x - lo) / step <= qmax as real
  {
    StepTimesMax(lo, hi, qmax, step);
    var p := (x - lo) / step;
    assert p * step == x - lo;
    if p < 0.0 {
      NegativeProduct(p, step);
    } else if p > qmax as real {
      StrictProduct(qmax as real, p, step);
    }
  }

  lemma NegativeProduct(p: real, s: real)
    requires p < 0.0 && s > 0.0
    ensures p * s < 0.0
  {
  }

  lemma StrictProduct(a: real, b: real, s: real)
    requires a < b && s > 0.0
    ensures a * s < b * s
  {
  }

  /** The clamp never changes a code, and the decoded code is within half a step of the entry. */
  lemma EntryError(x: real, lo: real, hi: real, step: real, qmax: nat)
    requires qmax >= 1 && lo <= x <= hi && step == StepOf(lo, hi, qmax)
    ensures CodeOf(x, lo, step, qmax) == RoundHalfEven((x - lo) / step)
    ensures Abs(Decoded(CodeOf(x, lo, step, qmax), lo, step) - x) <= step / 2.0
  {
    hide RoundHalfEven, StepOf;
    PositionInRange(x, lo, hi, step, qmax);
    var p := (x - lo) / step;
    RoundBetween(p, 0, qmax);
    RoundNear(p);
    var q := CodeOf(x, lo, step, qmax);
    assert p * step == x - lo;
    var d := q as real - p;
    ScaleHalf(d, step);
    assert d * step == q as real * step - p * step;
  }

  lemma ScaleHalf(d: real, s: real)
    requires -0.5 <= d <= 0.5 && s > 0.0
    ensures -(s / 2.0) <= d * s <= s / 2.0
  {
  }

  // ----- a whole channel

  /** Every entry of a channel is reproduced within half a step, and no code is clamped. */
  lemma ChannelError(v: Vec, qmax: nat, i: nat)
    requires v != [] && qmax >= 1 && i < |v|
    ensures Quantize(v, qmax).codes[i] == RoundHalfEven((v[i] - Quantize(v, qmax).lo) / Quantize(v, qmax).step)
    ensures Abs(Dequantize(Quantize(v, qmax))[i] - v[i]) <= Quantize(v, qmax).step / 2.0
  {
    hide RoundHalfEven, StepOf, CodeOf, Decoded, MinOf, MaxOf;
    var lo, hi := MinOf(v), MaxOf(v);
    EntryError(v[i], lo, hi, StepOf(lo, hi, qmax), qmax);
  }

  lemma CodeOfDecoded(q: nat, lo: real, step: real, qmax: nat)
    requires step > 0.0 && q <= qmax
    ensures CodeOf(Decoded(q, lo, step), lo, step, qmax) == q
  {
    hide RoundHalfEven;
    var p := (Decoded(q, lo, step) - lo) / step;
    assert p * step == q as real * step;
    assert p == q as real by { CancelStep(p, q as real, step); }
    RoundInteger(q, p);
  }

  lemma CancelStep(a: real, b: real, s: real)
    requires a * s == b * s && s > 0.0
    ensures a == b
  {
    if a < b { StrictProduct(a, b, s); } else if b < a { StrictProduct(b, a, s); }
  }

  /** The smallest entry gets code 0, and without the floor the largest gets `qmax`. */
  lemma EndCodes(lo: real, hi: real, step: real, qmax: nat)
    requires qmax >= 1 && lo <= hi && step == StepOf(lo, hi, qmax)
    ensures CodeOf(lo, lo, step, qmax) == 0
    ensures step > SCALE_FLOOR ==> CodeOf(hi, lo, step, qmax) == qmax
  {
    hide RoundHalfEven, StepOf;
    StepTimesMax(lo, hi, qmax, step);
    assert (lo - lo) / step == 0.0;
    RoundInteger(0, (lo - lo) / step);
    if step > SCALE_FLOOR {
      var p := (hi - lo) / step;
      assert p * step == qmax as real * step;
      CancelStep(p, qmax as real, step);
      RoundInteger(qmax, p);
    }
  }

  lemma DecodedMonotone(a: nat, b: nat, lo: real, step: real)
    requires a <= b && step > 0.0
    ensures Decoded(a, lo, step) <= Decoded(b, lo, step)
  {
    RightMonotone(a as real, b as real, step);
  }

  /** The dequantised channel starts at the same lower end. */
  lemma RequantizedLo(v: Vec, qmax: nat)
    requires v != [] && qmax >= 1
    ensures MinOf(Dequantize(Quantize(v, qmax))) == Quantize(v, qmax).lo
  {
    hide RoundHalfEven, StepOf, CodeOf;
    var ch := Quantize(v, qmax);
    var w := Dequantize(ch);
    var lo, hi := MinOf(v), MaxOf(v);
    var i :| 0 <= i < |v| && v[i] == lo;
    EndCodes(lo, hi, ch.step, qmax);
    assert w[i] == Decoded(0, ch.lo, ch.step) == lo;
    var m := MinOf(w);
    assert m <= w[i];
    var j :| 0 <= j < |w| && w[j] == m;
    DecodedMonotone(0, ch.codes[j], ch.lo, ch.step);
  }

  lemma StepRecovered(lo: real, top: real, step: real, qmax: nat)
    requires qmax >= 1 && step >= SCALE_FLOOR && top - lo <= qmax as real * step
    requires step > SCALE_FLOOR ==> top - lo == qmax as real * step
    ensures StepOf(lo, top, qmax) == step
  {
    if step > SCALE_FLOOR {
      DivideBack(top - lo, step, qmax as real);
    } else {
      DivideBelow(top - lo, step, qmax as real);
    }
  }

  lemma StepAtLeastFloor(lo: real, hi: real, qmax: nat)
    requires qmax >= 1
    ensures StepOf(lo, hi, qmax) >= SCALE_FLOOR
  {
  }

  /** The dequantised channel has the same step, whether or not the floor is active. */
  lemma RequantizedStep(v: Vec, qmax: nat)
    requires v != [] && qmax >= 1
    ensures StepOf(Quantize(v, qmax).lo, MaxOf(Dequantize(Quantize(v, qmax))), qmax) == Quantize(v, qmax).step
  {
    hide RoundHalfEven, CodeOf, MinOf, MaxOf, StepOf, Decoded, Dequantize;
    var ch := Quantize(v, qmax);
    var w := Dequantize(ch);
    var lo, hi := MinOf(v), MaxOf(v);
    EndCodes(lo, hi, ch.step, qmax);
    StepAtLeastFloor(lo, hi, qmax);
    var top := MaxOf(w);
    var j :| 0 <= j < |w| && w[j] == top;
    DecodedMonotone(ch.codes[j], qmax, ch.lo, ch.step);
    DecodedIs(qmax, ch.lo, ch.step);
    if ch.step > SCALE_FLOOR {
      var i :| 0 <= i < |v| && v[i] == hi;
      assert ch.codes[i] == qmax;
      assert w[i] <= top;
    }
    StepRecovered(ch.lo, top, ch.step, qmax);
  }

  lemma DecodedIs(q: nat, lo: real, step: real)
    ensures Decoded(q, lo, step) == q as real * step + lo
  {
  }

  lemma DivideBack(x: real, s: real, q: real)
    requires q > 0.0 && x == q * s
    ensures x / q == s
  {
  }

  lemma DivideBelow(x: real, s: real, q: real)
    requires q > 0.0 && x <= q * s
    ensures x / q <= s
  {
    var d := x / q;
    assert d * q == x;
    if d > s { StrictProduct(s, d, q); }
  }

  /** The quantiser is a projection: re-quantising a dequantised channel changes nothing. */
  lemma QuantizeIsProjection(v: Vec, qmax: nat)
    requires v != [] && qmax >= 1
    ensures Quantize(Dequantize(Quantize(v, qmax)), qmax) == Quantize(v, qmax)
  {
    hide RoundHalfEven, StepOf, CodeOf, MinOf, MaxOf, Decoded;
    var ch := Quantize(v, qmax);
    var w := Dequantize(ch);
    RequantizedLo(v, qmax);
    RequantizedStep(v, qmax);
    forall i | 0 <= i < |v| ensures CodeOf(w[i], ch.lo, ch.step, qmax) == ch.codes[i] {
      CodeOfDecoded(ch.codes[i], ch.lo, ch.step, qmax);
    }
    assert Quantize(w, qmax).codes == ch.codes;
  }

  // ----- the sixteen levels of a four-bit channel

  /** `q` units are nearest to `x`; half way between two, `q` is even. */
  predicate NearestMultiple(x: real, unit: real, q: nat) {
    && Abs(x - q as real * unit) <= unit / 2.0
    && (Abs(x - q as real * unit) == unit / 2.0 ==> q % 2 == 0)
  }

  /**
   Code `q` is the nearest of the 16 evenly spaced levels from the smallest to the largest entry of
   the channel; a channel with a range of at most 15e-8 has levels 1e-8 apart.
   */
  predicate NearestLevel(v: Vec, i: nat, q: nat)
    requires v != [] && i < |v|
  {
    var lo, hi := MinOf(v), MaxOf(v);
    && q <= 15
    && if hi - lo > 0.00000015 then NearestMultiple(15.0 * (v[i] - lo), hi - lo, q)
       else NearestMultiple(v[i] - lo, 0.00000001, q)
  }

  lemma NearestScaled(p: real, q: nat, unit: real, x: real)
    requires unit > 0.0 && x == p * unit && -0.5 <= q as real - p <= 0.5
    requires q as real - p == 0.5 || p - q as real == 0.5 ==> q % 2 == 0
    ensures NearestMultiple(x, unit, q)
  {
    var d := p - q as real;
    assert x - q as real * unit == d * unit;
    ScaleHalf(d, unit);
    if d < 0.5 && d > -0.5 {
      StrictProduct(d, 0.5, unit);
      StrictProduct(-0.5, d, unit);
    }
  }

  /** With 15 as the largest code, every entry is stored as its nearest level. */
  lemma CodesAreNearest(v: Vec, i: nat)
    requires v != [] && i < |v|
    ensures NearestLevel(v, i, Quantize(v, 15).codes[i])
  {
    hide RoundHalfEven, MinOf, MaxOf, CodeOf, NearestMultiple;
    var lo, hi, ch := MinOf(v), MaxOf(v), Quantize(v, 15);
    EntryError(v[i], lo, hi, ch.step, 15);
    var p, q := (v[i] - lo) / ch.step, ch.codes[i];
    RoundNear(p);
    if q as real - p == 0.5 || p - q as real == 0.5 { RoundTie(p); }
    assert p * ch.step == v[i] - lo;
    if hi - lo > 0.00000015 {
      assert p * (15.0 * ch.step) == 15.0 * (v[i] - lo);
      NearestScaled(p, q, hi - lo, 15.0 * (v[i] - lo));
    } else {
      NearestScaled(p, q, 0.00000001, v[i] - lo);
    }
  }

  /** The smallest entry has level 0 and the largest, above the floor, level 15. */
  lemma EndLevels(v: Vec, i: nat, q: nat)
    requires v != [] && i < |v| && NearestLevel(v, i, q)
    ensures (forall k | 0 <= k < |v| :: v[i] <= v[k]) ==> q == 0
    ensures (forall k | 0 <= k < |v| :: v[k] <= v[i]) && MaxOf(v) - MinOf(v) > 0.00000015 ==> q == 15
  {
    hide NearestMultiple, MinOf, MaxOf;
    var lo, hi := MinOf(v), MaxOf(v);
    if forall k | 0 <= k < |v| :: v[i] <= v[k] {
      assert v[i] == lo;
      if hi - lo > 0.00000015 { OnlyMultiple(15.0 * (v[i] - lo), hi - lo, 0, q); }
      else { OnlyMultiple(v[i] - lo, 0.00000001, 0, q); }
    }
    if (forall k | 0 <= k < |v| :: v[k] <= v[i]) && hi - lo > 0.00000015 {
      assert v[i] == hi;
      OnlyMultiple(15.0 * (v[i] - lo), hi - lo, 15, q);
    }
  }

  lemma OnlyMultiple(x: real, unit: real, k: nat, q: nat)
    requires unit > 0.0 && x == k as real * unit && NearestMultiple(x, unit, q)
    ensures q == k
  {
    var d := k as real - q as real;
    assert x - q as real * unit == d * unit;
    if q < k { StrictProduct(0.5, d, unit); } else if k < q { StrictProduct(d, -0.5, unit); }
  }

  /** The step of a four-bit channel: a fifteenth of its range, or the floor. */
  lemma StepIs(v: Vec)
    requires v != []
    ensures Quantize(v, 15).step ==
            if MaxOf(v) - MinOf(v) > 0.00000015 then (MaxOf(v) - MinOf(v)) / 15.0 else 0.00000001
  {
  }
}
