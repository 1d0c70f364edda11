/**
 How a kernel turns the bytes of an int4 record into a row: it loads the per-channel numbers, splits
 the packed bytes of a token into two rows of nibbles, interleaves them, and scales.
 */
module TileReader {
  import opened Vectors
  import opened TileRecord

  /** `interleave(a, b)`. */
  function Interleave(a: seq<nat>, b: seq<nat>): (r: seq<nat>)
    requires |a| == |b|
    ensures |r| == 2 * |a| && forall c | 0 <= c < |r| :: r[c] == if c % 2 == 0 then a[c / 2] else b[c / 2]
  {
    seq(2 * |a|, c requires 0 <= c < 2 * |a| => if c % 2 == 0 then a[c / 2] else b[c / 2])
  }

  /** One token's codes, as the kernels compute them: two nibble rows, interleaved. */
  lemma InterleavedCodes(bytes: seq<bv8>, base: nat, g: Geometry, t: nat, lo: seq<nat>, hi: seq<nat>)
    requires ValidGeometry(g) && Holds(bytes, base, g) && t < g.group && |lo| == |hi| == g.r / 2
    requires forall i | 0 <= i < g.r / 2 :: base + PackedIndex(g, t, i) < |bytes|
    requires forall i | 0 <= i < g.r / 2 ::
               && lo[i] == LowNibble(bytes[base + PackedIndex(g, t, i)])
               && hi[i] == HighNibble(bytes[base + PackedIndex(g, t, i)])
    ensures forall c | 0 <= c < g.r :: Interleave(lo, hi)[c] == CodeAt(bytes, base, g, t, c)
  {
    hide LowNibble, HighNibble, PackedIndex, RecordBytes, Interleave;
    forall c | 0 <= c < g.r ensures Interleave(lo, hi)[c] == CodeAt(bytes, base, g, t, c) {
      var i := c / 2;
      assert base + PackedIndex(g, t, i) < |bytes|;
    }
  }

  /** The scale and zero point of every channel are those of the record. */
  ghost predicate ScalesOf(bytes: seq<bv8>, base: nat, g: Geometry, half: HalfReader, sc: Vec, zp: Vec) {
    && |sc| == |zp| == g.r
    && forall c | 0 <= c < g.r ::
         && base + ScaleOff(g) + 2 * c + 1 < |bytes| && base + ZeroOff(g) + 2 * c + 1 < |bytes|
         && sc[c] == HalfAt(bytes, base, ScaleOff(g), c, half) && zp[c] == HalfAt(bytes, base, ZeroOff(g), c, half)
  }

  /** The per-channel loads of a record. */
  method LoadScales(bytes: seq<bv8>, base: nat, g: Geometry, half: HalfReader) returns (sc: Vec, zp: Vec)
    requires ValidGeometry(g) && Holds(bytes, base, g)
    ensures ScalesOf(bytes, base, g, half, sc, zp)
  {
    hide HalfAt, RecordBytes, ScaleOff, ZeroOff;
    sc, zp := [], [];
    var c := 0;
    while c < g.r
      invariant c <= g.r && |sc| == |zp| == c
      invariant forall k | 0 <= k < c ::
                  && base + ScaleOff(g) + 2 * k + 1 < |bytes| && base + ZeroOff(g) + 2 * k + 1 < |bytes|
                  && sc[k] == HalfAt(bytes, base, ScaleOff(g), k, half)
                  && zp[k] == HalfAt(bytes, base, ZeroOff(g), k, half)
    {
      NumbersInside(g, 0, c);
      sc := sc + [HalfAt(bytes, base, ScaleOff(g), c, half)];
      zp := zp + [HalfAt(bytes, base, ZeroOff(g), c, half)];
      c := c + 1;
    }
  }

  /** `(q4 * sc + zp) * srow`, channel by channel. */
  method ScaleCodes(q: seq<nat>, sc: Vec, zp: Vec, srow: real) returns (lat: Vec)
    requires |q| == |sc| == |zp|
    ensures |lat| == |q| && forall c | 0 <= c < |q| :: lat[c] == DequantValue(q[c] as real, sc[c], zp[c], srow)
  {
    hide DequantValue;
    lat := [];
    var c := 0;
    while c < |q|
      invariant c <= |q| && |lat| == c
      invariant forall k | 0 <= k < c :: lat[k] == DequantValue(q[k] as real, sc[k], zp[k], srow)
    {
      lat := lat + [DequantValue(q[c] as real, sc[c], zp[c], srow)];
      c := c + 1;
    }
  }

  /** The unmasked lane of a kernel that reads token `t`: exactly the record's row. */
  method ReadRow(bytes: seq<bv8>, base: nat, g: Geometry, half: HalfReader, t: nat, sc: Vec, zp: Vec)
    returns (row: Row)
    requires ValidGeometry(g) && Holds(bytes, base, g) && t < g.group && ScalesOf(bytes, base, g, half, sc, zp)
    ensures row == RecordRow(bytes, base, g, half, t)
  {
    hide LowNibble, HighNibble, CodeAt, HalfAt, RecordBytes, ScaleOff, ZeroOff, TokenOff, RopeOff, PackedIndex,
         Interleave, DequantValue;
    forall i | 0 <= i < g.r / 2 ensures base + PackedIndex(g, t, i) < |bytes| { PackedInside(g, t, i); }
    var lo := seq(g.r / 2, i requires 0 <= i < g.r / 2 => LowNibble(bytes[base + PackedIndex(g, t, i)]));
    var hi := seq(g.r / 2, i requires 0 <= i < g.r / 2 => HighNibble(bytes[base + PackedIndex(g, t, i)]));
    InterleavedCodes(bytes, base, g, t, lo, hi);
    TokenNumber(g, t);
    var lat := ScaleCodes(Interleave(lo, hi), sc, zp, HalfAt(bytes, base, TokenOff(g), t, half));
    var rope := seq(g.rope, k requires 0 <= k < g.rope => RopeAt(bytes, base, g, half, t, k));
    forall c | 0 <= c < g.r ensures lat[c] == DequantAt(bytes, base, g, half, t, c) {}
    row := Row(lat, rope);
    assert row.lat == RecordRow(bytes, base, g, half, t).lat;
  }

  lemma TokenNumber(g: Geometry, t: nat)
    requires t < g.group
    ensures TokenOff(g) + 2 * t + 1 < RecordBytes(g)
  {
    hide PackedBytes;
    assert g.group * g.rope >= 0;
  }

  /** A masked lane: zero bytes and a zero token scale give a zero row, whatever the channel numbers. */
  method ReadMaskedRow(g: Geometry, sc: Vec, zp: Vec) returns (row: Row)
    requires ValidGeometry(g) && |sc| == |zp| == g.r
    ensures row == Row(Zeros(g.r), Zeros(g.rope))
  {
    hide Interleave, Zeros;
    var none := seq(g.r / 2, _ => 0);
    var q := Interleave(none, none);
    var lat := ScaleCodes(q, sc, zp, 0.0);
    forall c | 0 <= c < g.r ensures lat[c] == 0.0 { TimesZero(q[c] as real, sc[c], zp[c]); }
    assert lat == Zeros(g.r);
    row := Row(lat, Zeros(g.rope));
  }

  lemma TimesZero(q: real, sc: real, zp: real)
    ensures DequantValue(q, sc, zp, 0.0) == 0.0
  {
  }
}
