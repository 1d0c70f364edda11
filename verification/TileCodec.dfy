/**
 Packing a block of rotated latents and rope rows into its tile record, unpacking it again, and
 the error of the round trip.
 */
module TileCodec {
  import opened Vectors
  import opened TileRecord

  const QMAX: nat := 15

  /** How an fp16 number is written as two bytes; reading it back may round. */
  type HalfWriter = real -> (bv8, bv8)

  function RoundTrip(enc: HalfWriter, dec: HalfReader, x: real): real { dec(enc(x).0, enc(x).1) }

  // ----- nibbles

  function PackByte(lo: nat, hi: nat): bv8
    requires lo < 16 && hi < 16
  {
    (lo as bv8) | ((hi as bv8) << 4)
  }

  lemma NibbleRoundTrip(lo: nat, hi: nat)
    requires lo < 16 && hi < 16
    ensures LowNibble(PackByte(lo, hi)) == lo && HighNibble(PackByte(lo, hi)) == hi
  {
    NibbleBits(lo as bv8, hi as bv8);
  }

  lemma NibbleBits(a: bv8, b: bv8)
    requires a < 16 && b < 16
    ensures (a | (b << 4)) & 0xF == a && ((a | (b << 4)) >> 4) & 0xF == b
  {
  }

  // ----- the record as bytes

  /** The values a record holds: codes and rope per token, scale and zero point per channel. */
  datatype Contents = Contents(codes: seq<seq<nat>>, scale: Vec, zero: Vec, token: Vec, rope: Matrix)

  predicate ContentsFit(x: Contents, g: Geometry) {
    && |x.codes| == g.group && (forall t | 0 <= t < g.group :: |x.codes[t]| == g.r)
    && (forall t, c | 0 <= t < g.group && 0 <= c < g.r :: x.codes[t][c] <= QMAX)
    && |x.scale| == |x.zero| == g.r && |x.token| == g.group && IsMatrix(x.rope, g.group, g.rope)
  }

  /** `qT[:, 0::2] | (qT[:, 1::2] << 4)`, one token. */
  function PackedRow(codes: seq<nat>): (b: seq<bv8>)
    requires |codes| % 2 == 0 && forall c | 0 <= c < |codes| :: codes[c] <= QMAX
    ensures |b| == |codes| / 2
    ensures forall i | 0 <= i < |b| :: b[i] == PackByte(codes[2 * i], codes[2 * i + 1])
  {
    seq(|codes| / 2, i requires 0 <= i < |codes| / 2 => PackByte(codes[2 * i], codes[2 * i + 1]))
  }

  /** The rows of a byte matrix one after the other. */
  function FlatBytes(rows: seq<seq<bv8>>): seq<bv8> {
    if rows == [] then [] else FlatBytes(rows[..|rows| - 1]) + rows[|rows| - 1]
  }

  lemma {:induction false} FlatBytesAt(rows: seq<seq<bv8>>, w: nat, t: nat, i: nat)
    requires (forall k | 0 <= k < |rows| :: |rows[k]| == w) && t < |rows| && i < w
    ensures |FlatBytes(rows)| == |rows| * w
    ensures t * w + i < |rows| * w && FlatBytes(rows)[t * w + i] == rows[t][i]
  {
    hide FlatBytes;
    FlatBytesLength(rows, w);
    FlatBytesUnfold(rows);
    IndexInside(t, |rows|, i, w);
    var k := |rows| - 1;
    FlatBytesLength(rows[..k], w);
    if t < k {
      IndexInside(t, k, i, w);
      FlatBytesAt(rows[..k], w, t, i);
    }
  }

  lemma FlatBytesUnfold(rows: seq<seq<bv8>>)
    requires rows != []
    ensures FlatBytes(rows) == FlatBytes(rows[..|rows| - 1]) + rows[|rows| - 1]
  {
  }

  lemma {:induction false} FlatBytesLength(rows: seq<seq<bv8>>, w: nat)
    requires forall k | 0 <= k < |rows| :: |rows[k]| == w
    ensures |FlatBytes(rows)| == |rows| * w
  {
    if rows != [] {
      FlatBytesLength(rows[..|rows| - 1], w);
      assert (|rows| - 1) * w + w == |rows| * w;
    }
  }

  /** A vector of fp16 numbers as bytes. */
  function HalfBytes(v: Vec, enc: HalfWriter): (b: seq<bv8>)
    ensures |b| == 2 * |v|
  {
    if v == [] then [] else
      HalfBytes(v[..|v| - 1], enc) + [enc(v[|v| - 1]).0, enc(v[|v| - 1]).1]
  }

  lemma {:induction false} HalfBytesAt(v: Vec, enc: HalfWriter, i: nat)
    requires i < |v|
    ensures HalfBytes(v, enc)[2 * i] == enc(v[i]).0 && HalfBytes(v, enc)[2 * i + 1] == enc(v[i]).1
  {
    var k := |v| - 1;
    if i < k {
      HalfBytesAt(v[..k], enc, i);
      assert v[..k][i] == v[i];
    }
  }

  lemma {:induction false} FlattenAt(m: Matrix, w: nat, t: nat, i: nat)
    requires IsMatrix(m, |m|, w) && t < |m| && i < w
    ensures |Flatten(m)| == |m| * w
    ensures t * w + i < |m| * w && Flatten(m)[t * w + i] == m[t][i]
  {
    hide Flatten;
    FlattenLength(m, w);
    FlattenLast(m);
    IndexInside(t, |m|, i, w);
    var k := |m| - 1;
    FlattenLength(m[..k], w);
    if t < k {
      IndexInside(t, k, i, w);
      FlattenAt(m[..k], w, t, i);
    }
  }

  function PackedRows(x: Contents, g: Geometry): (rows: seq<seq<bv8>>)
    requires ValidGeometry(g) && ContentsFit(x, g)
    ensures |rows| == g.group && forall t | 0 <= t < g.group :: |rows[t]| == g.r / 2
    ensures forall t | 0 <= t < g.group :: rows[t] == PackedRow(x.codes[t])
  {
    hide PackedRow;
    seq(g.group, t requires 0 <= t < g.group => PackedRow(x.codes[t]))
  }

  /** The five fields one after the other. */
  function RecordOf(x: Contents, g: Geometry, enc: HalfWriter): (b: seq<bv8>)
    requires ValidGeometry(g) && ContentsFit(x, g)
  {
    FlatBytes(PackedRows(x, g)) + HalfBytes(x.scale, enc) + HalfBytes(x.zero, enc)
    + HalfBytes(x.token, enc) + HalfBytes(Flatten(x.rope), enc)
  }

  /** Bytes `lo .. hi` of the record are exactly this field. */
  predicate FieldIs(b: seq<bv8>, lo: nat, hi: nat, f: seq<bv8>) { lo <= hi <= |b| && b[lo..hi] == f }

  /** The fields sit at the record's offsets, do not overlap and fill it exactly. */
  lemma RecordFields(x: Contents, g: Geometry, enc: HalfWriter)
    requires ValidGeometry(g) && ContentsFit(x, g)
    ensures |RecordOf(x, g, enc)| == RecordBytes(g)
    ensures FieldIs(RecordOf(x, g, enc), 0, ScaleOff(g), FlatBytes(PackedRows(x, g)))
    ensures FieldIs(RecordOf(x, g, enc), ScaleOff(g), ZeroOff(g), HalfBytes(x.scale, enc))
    ensures FieldIs(RecordOf(x, g, enc), ZeroOff(g), TokenOff(g), HalfBytes(x.zero, enc))
    ensures FieldIs(RecordOf(x, g, enc), TokenOff(g), RopeOff(g), HalfBytes(x.token, enc))
    ensures FieldIs(RecordOf(x, g, enc), RopeOff(g), RecordBytes(g), HalfBytes(Flatten(x.rope), enc))
  {
    hide PackedBytes, FlatBytes, HalfBytes, Flatten, PackedRows, ContentsFit;
    FieldSizes(x, g, enc);
    FiveParts(FlatBytes(PackedRows(x, g)), HalfBytes(x.scale, enc), HalfBytes(x.zero, enc),
              HalfBytes(x.token, enc), HalfBytes(Flatten(x.rope), enc));
  }

  lemma FiveParts(a: seq<bv8>, b: seq<bv8>, c: seq<bv8>, d: seq<bv8>, e: seq<bv8>)
    ensures var r := a + b + c + d + e;
            var i, j, k, l := |a|, |a| + |b|, |a| + |b| + |c|, |a| + |b| + |c| + |d|;
            && |r| == l + |e|
            && r[0..i] == a && r[i..j] == b && r[j..k] == c && r[k..l] == d && r[l..l + |e|] == e
  {
  }

  lemma FieldSizes(x: Contents, g: Geometry, enc: HalfWriter)
    requires ValidGeometry(g) && ContentsFit(x, g)
    ensures |FlatBytes(PackedRows(x, g))| == PackedBytes(g)
    ensures |HalfBytes(x.scale, enc)| == |HalfBytes(x.zero, enc)| == g.r * 2
    ensures |HalfBytes(x.token, enc)| == g.group * 2
    ensures |HalfBytes(Flatten(x.rope), enc)| == g.group * g.rope * 2
  {
    hide FlatBytes, HalfBytes, Flatten, PackedRows;
    PackedBytesIs(g);
    FlatBytesLength(PackedRows(x, g), g.r / 2);
    FlattenLength(x.rope, g.rope);
  }

  // ----- reading a packed record back

  /** The two codes that share packed byte `i` of token `t`. */
  predicate CodePair(x: Contents, g: Geometry, t: nat, i: nat, lo: nat, hi: nat)
    requires ContentsFit(x, g)
  {
    t < g.group && 2 * i + 1 < g.r && lo == x.codes[t][2 * i] && hi == x.codes[t][2 * i + 1] && lo < 16 && hi < 16
  }

  lemma PackedByteAt(x: Contents, g: Geometry, t: nat, i: nat, lo: nat, hi: nat, at: nat)
    requires ValidGeometry(g) && ContentsFit(x, g) && CodePair(x, g, t, i, lo, hi) && at == PackedIndex(g, t, i)
    ensures at < |FlatBytes(PackedRows(x, g))|
    ensures FlatBytes(PackedRows(x, g))[at] == PackByte(lo, hi)
  {
    hide FlatBytes, PackByte, PackedRows;
    FlatBytesAt(PackedRows(x, g), g.r / 2, t, i);
  }

  lemma RecordByteAt(x: Contents, g: Geometry, enc: HalfWriter, t: nat, i: nat, lo: nat, hi: nat, at: nat)
    requires ValidGeometry(g) && ContentsFit(x, g) && CodePair(x, g, t, i, lo, hi) && at == PackedIndex(g, t, i)
    ensures at < |RecordOf(x, g, enc)| && RecordOf(x, g, enc)[at] == PackByte(lo, hi)
  {
    hide RecordOf, FlatBytes, PackedRows, RecordBytes, ScaleOff, ZeroOff, TokenOff, RopeOff, PackByte,
         ContentsFit, PackedIndex;
    RecordFields(x, g, enc);
    PackedByteAt(x, g, t, i, lo, hi, at);
    SliceAt(RecordOf(x, g, enc), 0, ScaleOff(g), at);
  }

  lemma CodeAtIs(bytes: seq<bv8>, g: Geometry, t: nat, c: nat, at: nat, b: bv8)
    requires ValidGeometry(g) && Holds(bytes, 0, g) && t < g.group && c < g.r
    requires at == PackedIndex(g, t, c / 2) && at < |bytes| && bytes[at] == b
    ensures CodeAt(bytes, 0, g, t, c) == if c % 2 == 0 then LowNibble(b) else HighNibble(b)
  {
    hide LowNibble, HighNibble, RecordBytes, PackedIndex;
  }

  lemma CodesReadBack(x: Contents, g: Geometry, enc: HalfWriter, t: nat, c: nat)
    requires ValidGeometry(g) && ContentsFit(x, g) && t < g.group && c < g.r
    ensures Holds(RecordOf(x, g, enc), 0, g)
    ensures CodeAt(RecordOf(x, g, enc), 0, g, t, c) == x.codes[t][c]
  {
    hide RecordOf, FlatBytes, PackedRows, RecordBytes, CodeAt, LowNibble, HighNibble, PackByte, FieldIs,
         ScaleOff, ZeroOff, TokenOff, RopeOff, PackedIndex;
    var i := c / 2;
    RecordFields(x, g, enc);
    var lo, hi := x.codes[t][2 * i], x.codes[t][2 * i + 1];
    RecordByteAt(x, g, enc, t, i, lo, hi, PackedIndex(g, t, i));
    NibbleRoundTrip(lo, hi);
    CodeAtIs(RecordOf(x, g, enc), g, t, c, PackedIndex(g, t, i), PackByte(lo, hi));
    if c % 2 == 0 { assert c == 2 * i; } else { assert c == 2 * i + 1; }
  }

  lemma HalfReadBack(b: seq<bv8>, lo: nat, hi: nat, v: Vec, enc: HalfWriter, dec: HalfReader, i: nat)
    requires FieldIs(b, lo, hi, HalfBytes(v, enc)) && i < |v|
    ensures lo + 2 * i + 1 < |b|
    ensures HalfAt(b, 0, lo, i, dec) == RoundTrip(enc, dec, v[i])
  {
    hide HalfBytes;
    HalfBytesAt(v, enc, i);
    SliceAt(b, lo, hi, 2 * i);
    SliceAt(b, lo, hi, 2 * i + 1);
  }

  lemma SliceAt(b: seq<bv8>, lo: nat, hi: nat, k: nat)
    requires lo <= hi <= |b| && k < hi - lo
    ensures b[lo..hi][k] == b[lo + k]
  {
  }

  /** What every reader recovers from a packed record: exact codes, fp16-rounded numbers. */
  lemma RecordRoundTrip(x: Contents, g: Geometry, enc: HalfWriter, dec: HalfReader, t: nat)
    requires ValidGeometry(g) && ContentsFit(x, g) && t < g.group
    ensures Holds(RecordOf(x, g, enc), 0, g)
    ensures forall c | 0 <= c < g.r ::
              RecordRow(RecordOf(x, g, enc), 0, g, dec, t).lat[c]
              == DequantValue(x.codes[t][c] as real, RoundTrip(enc, dec, x.scale[c]),
                              RoundTrip(enc, dec, x.zero[c]), RoundTrip(enc, dec, x.token[t]))
    ensures forall k | 0 <= k < g.rope ::
              RecordRow(RecordOf(x, g, enc), 0, g, dec, t).rope[k] == RoundTrip(enc, dec, x.rope[t][k])
  {
    hide RecordOf, DequantAt, DequantValue, RopeAt, RoundTrip, RecordBytes, FieldIs, FlatBytes, HalfBytes,
         Flatten, PackedRows, ScaleOff, ZeroOff, TokenOff, RopeOff;
    var b := RecordOf(x, g, enc);
    RecordFields(x, g, enc);
    var row := RecordRow(b, 0, g, dec, t);
    forall c | 0 <= c < g.r
      ensures row.lat[c] == DequantValue(x.codes[t][c] as real, RoundTrip(enc, dec, x.scale[c]),
                                         RoundTrip(enc, dec, x.zero[c]), RoundTrip(enc, dec, x.token[t]))
    {
      LatReadBack(x, g, enc, dec, t, c);
    }
    forall k | 0 <= k < g.rope ensures row.rope[k] == RoundTrip(enc, dec, x.rope[t][k]) {
      RopeReadBack(x, g, enc, dec, t, k);
    }
  }

  lemma LatReadBack(x: Contents, g: Geometry, enc: HalfWriter, dec: HalfReader, t: nat, c: nat)
    requires ValidGeometry(g) && ContentsFit(x, g) && t < g.group && c < g.r
    ensures Holds(RecordOf(x, g, enc), 0, g)
    ensures DequantAt(RecordOf(x, g, enc), 0, g, dec, t, c)
         == DequantValue(x.codes[t][c] as real, RoundTrip(enc, dec, x.scale[c]),
                         RoundTrip(enc, dec, x.zero[c]), RoundTrip(enc, dec, x.token[t]))
  {
    hide RecordOf, CodeAt, HalfAt, RoundTrip, DequantValue, HalfBytes, Flatten, FlatBytes, PackedRows, FieldIs,
         ScaleOff, ZeroOff, TokenOff, RopeOff, RecordBytes;
    var b := RecordOf(x, g, enc);
    RecordFields(x, g, enc);
    CodesReadBack(x, g, enc, t, c);
    HalfReadBack(b, ScaleOff(g), ZeroOff(g), x.scale, enc, dec, c);
    HalfReadBack(b, ZeroOff(g), TokenOff(g), x.zero, enc, dec, c);
    HalfReadBack(b, TokenOff(g), RopeOff(g), x.token, enc, dec, t);
  }

  lemma RopeReadBack(x: Contents, g: Geometry, enc: HalfWriter, dec: HalfReader, t: nat, k: nat)
    requires ValidGeometry(g) && ContentsFit(x, g) && t < g.group && k < g.rope
    ensures Holds(RecordOf(x, g, enc), 0, g)
    ensures RopeAt(RecordOf(x, g, enc), 0, g, dec, t, k) == RoundTrip(enc, dec, x.rope[t][k])
  {
    hide RecordOf, HalfAt, RoundTrip, HalfBytes, Flatten, FlatBytes, PackedRows, FieldIs, ContentsFit, ScaleOff,
         ZeroOff, TokenOff, RopeOff, RecordBytes;
    var b := RecordOf(x, g, enc);
    RecordFields(x, g, enc);
    assert IsMatrix(x.rope, g.group, g.rope) by { RopeShape(x, g); }
    FlattenAt(x.rope, g.rope, t, k);
    HalfReadBack(b, RopeOff(g), RecordBytes(g), Flatten(x.rope), enc, dec, t * g.rope + k);
  }

  lemma RopeShape(x: Contents, g: Geometry)
    requires ContentsFit(x, g)
    ensures IsMatrix(x.rope, g.group, g.rope)
  {
  }
}
