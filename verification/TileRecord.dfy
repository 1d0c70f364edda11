/**
 The per-block tile record: byte offsets of its five fields, and the address arithmetic with
 which a reader turns bytes back into a row.
 */
module TileRecord {
  import opened Vectors

  /** `r` latent channels, `rope` rotary channels, `group` tokens per block; 4-bit codes. */
  datatype Geometry = Geometry(r: nat, rope: nat, group: nat)

  predicate ValidGeometry(g: Geometry) { g.r % 2 == 0 && g.group >= 1 }

  /** How two bytes are read as an fp16 number. */
  type HalfReader = (bv8, bv8) -> real

  // ----- byte offsets

  function PackedBytes(g: Geometry): nat { g.group * g.r * 4 / 8 }
  function ScaleOff(g: Geometry): nat { PackedBytes(g) }
  function ZeroOff(g: Geometry): nat { ScaleOff(g) + g.r * 2 }
  function TokenOff(g: Geometry): nat { ZeroOff(g) + g.r * 2 }
  function RopeOff(g: Geometry): nat { TokenOff(g) + g.group * 2 }
  function RecordBytes(g: Geometry): nat { RopeOff(g) + g.group * g.rope * 2 }

  lemma PackedBytesIs(g: Geometry)
    requires ValidGeometry(g)
    ensures PackedBytes(g) == g.group * (g.r / 2)
  {
    var h := g.r / 2;
    assert g.r == 2 * h;
    assert g.group * g.r * 4 == (g.group * h) * 8;
  }

  lemma IndexInside(t: nat, n: nat, i: nat, w: nat)
    requires t < n && i < w
    ensures 0 <= t * w + i < n * w
  {
    assert (t + 1) * w <= n * w;
  }

  lemma RowBefore(t: nat, i: nat, t': nat, w: nat)
    requires t < t' && i < w
    ensures t * w + i < t' * w
  {
    assert (t + 1) * w <= t' * w;
  }

  /** Row-major addresses are injective. */
  lemma IndexInjective(t: nat, i: nat, t': nat, i': nat, w: nat)
    requires i < w && i' < w && t * w + i == t' * w + i'
    ensures t == t' && i == i'
  {
    if t < t' { RowBefore(t, i, t', w); } else if t' < t { RowBefore(t', i', t, w); }
  }

  /** A record at byte `base` lies inside the buffer. */
  predicate Holds(bytes: seq<bv8>, base: nat, g: Geometry) { base + RecordBytes(g) <= |bytes| }

  /** Packed byte `i` of token `t`: token-major, `r / 2` bytes per token. */
  function PackedIndex(g: Geometry, t: nat, i: nat): nat { t * (g.r / 2) + i }

  lemma PackedInside(g: Geometry, t: nat, i: nat)
    requires ValidGeometry(g) && t < g.group && i < g.r / 2
    ensures PackedIndex(g, t, i) < PackedBytes(g) <= RecordBytes(g)
  {
    PackedBytesIs(g);
    IndexInside(t, g.group, i, g.r / 2);
  }

  lemma RopeInside(g: Geometry, t: nat, k: nat)
    requires t < g.group && k < g.rope
    ensures RopeOff(g) + 2 * (t * g.rope + k) + 1 < RecordBytes(g)
  {
    IndexInside(t, g.group, k, g.rope);
  }

  lemma NumbersInside(g: Geometry, t: nat, c: nat)
    requires t < g.group && c < g.r
    ensures ScaleOff(g) + 2 * c + 1 < RecordBytes(g) && ZeroOff(g) + 2 * c + 1 < RecordBytes(g)
    ensures TokenOff(g) + 2 * t + 1 < RecordBytes(g)
  {
    hide PackedBytes;
    assert g.group * g.rope >= 0;
  }

  // ----- reading

  function LowNibble(b: bv8): (n: nat) ensures n < 16 { (b & 0xF) as nat }
  function HighNibble(b: bv8): (n: nat) ensures n < 16 { ((b >> 4) & 0xF) as nat }

  /** Code of channel `c` of token `t`: low nibble for even channels, high nibble for odd. */
  function CodeAt(bytes: seq<bv8>, base: nat, g: Geometry, t: nat, c: nat): (n: nat)
    requires ValidGeometry(g) && Holds(bytes, base, g) && t < g.group && c < g.r
    ensures n < 16
  {
    PackedInside(g, t, c / 2);
    var b := bytes[base + PackedIndex(g, t, c / 2)];
    if c % 2 == 0 then LowNibble(b) else HighNibble(b)
  }

  /** The `i`-th fp16 number of the field that starts `off` bytes into the record. */
  function HalfAt(bytes: seq<bv8>, base: nat, off: nat, i: nat, half: HalfReader): real
    requires base + off + 2 * i + 1 < |bytes|
  {
    half(bytes[base + off + 2 * i], bytes[base + off + 2 * i + 1])
  }

  /** `(q4 * sc + zp) * srow`. */
  function DequantValue(q: real, sc: real, zp: real, srow: real): real { (q * sc + zp) * srow }

  /** The dequantised entry of token `t`, channel `c`. */
  function DequantAt(bytes: seq<bv8>, base: nat, g: Geometry, half: HalfReader, t: nat, c: nat): real
    requires ValidGeometry(g) && Holds(bytes, base, g) && t < g.group && c < g.r
  {
    hide ScaleOff, ZeroOff, TokenOff, RecordBytes, CodeAt;
    NumbersInside(g, t, c);
    DequantValue(CodeAt(bytes, base, g, t, c) as real,
                 HalfAt(bytes, base, ScaleOff(g), c, half),
                 HalfAt(bytes, base, ZeroOff(g), c, half),
                 HalfAt(bytes, base, TokenOff(g), t, half))
  }

  function RopeAt(bytes: seq<bv8>, base: nat, g: Geometry, half: HalfReader, t: nat, k: nat): real
    requires Holds(bytes, base, g) && t < g.group && k < g.rope
  {
    RopeInside(g, t, k);
    HalfAt(bytes, base, RopeOff(g), t * g.rope + k, half)
  }

  /** One token's rotated latent row and rope row. */
  datatype Row = Row(lat: Vec, rope: Vec)

  predicate RowFits(row: Row, g: Geometry) { |row.lat| == g.r && |row.rope| == g.rope }

  predicate RowsFit(rows: seq<Row>, g: Geometry) {
    forall k | 0 <= k < |rows| :: |rows[k].lat| == g.r && |rows[k].rope| == g.rope
  }

  function RecordRow(bytes: seq<bv8>, base: nat, g: Geometry, half: HalfReader, t: nat): (row: Row)
    requires ValidGeometry(g) && Holds(bytes, base, g) && t < g.group
    ensures RowFits(row, g)
  {
    Row(seq(g.r, c requires 0 <= c < g.r => DequantAt(bytes, base, g, half, t, c)),
        seq(g.rope, k requires 0 <= k < g.rope => RopeAt(bytes, base, g, half, t, k)))
  }
}
