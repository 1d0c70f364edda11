/**
 The imperative packers and readers of tile records: `pack_tile` and `unpack_tile`, which fill
 buffers slice by slice, and the per-token dequantisation kernel.
 */
module TileKernels {
  import opened Vectors
  import opened Floats
  import opened Quantizer
  import opened Sinkhorn
  import opened TileRecord
  import opened TileReader
  import opened TileCodec
  import opened TilePipeline

  // ----- packing

  /** `rec[off:off + len(f)] = f`. */
  method WriteField(rec: array<bv8>, off: nat, f: seq<bv8>)
    requires off + |f| <= rec.Length
    modifies rec
    ensures rec[..off + |f|] == old(rec[..off]) + f
    ensures rec[off + |f|..] == old(rec[off + |f|..])
  {
    var i := 0;
    while i < |f|
      invariant i <= |f|
      invariant rec[..off] == old(rec[..off]) && rec[off + |f|..] == old(rec[off + |f|..])
      invariant rec[off..off + i] == f[..i]
    {
      rec[off + i] := f[i];
      assert rec[off..off + i + 1] == rec[off..off + i] + [f[i]];
      i := i + 1;
    }
    assert rec[..off + |f|] == rec[..off] + rec[off..off + |f|];
  }

  /** Writing the next field extends the finished prefix by it. */
  method AppendField(rec: array<bv8>, off: nat, f: seq<bv8>, end: nat, ghost pre: seq<bv8>)
    requires end == off + |f| <= rec.Length && rec[..off] == pre
    modifies rec
    ensures rec[..end] == pre + f
  {
    WriteField(rec, off, f);
  }

  /** The slice-by-slice fill of a zeroed record leaves exactly the five fields in it. */
  method PackContents(x: Contents, g: Geometry, enc: HalfWriter) returns (rec: array<bv8>)
    requires ValidGeometry(g) && ContentsFit(x, g)
    ensures fresh(rec) && rec[..] == RecordOf(x, g, enc)
  {
    hide FlatBytes, PackedRows, HalfBytes, Flatten, ContentsFit, ScaleOff, ZeroOff, TokenOff, RopeOff, RecordBytes;
    OffsetsAre(x, g, enc);
    var packed, sc, zp := FlatBytes(PackedRows(x, g)), HalfBytes(x.scale, enc), HalfBytes(x.zero, enc);
    var sr, rp := HalfBytes(x.token, enc), HalfBytes(Flatten(x.rope), enc);
    rec := new bv8[RecordBytes(g)](_ => 0);
    AppendField(rec, 0, packed, ScaleOff(g), []);
    AppendField(rec, ScaleOff(g), sc, ZeroOff(g), packed);
    AppendField(rec, ZeroOff(g), zp, TokenOff(g), packed + sc);
    AppendField(rec, TokenOff(g), sr, RopeOff(g), packed + sc + zp);
    AppendField(rec, RopeOff(g), rp, RecordBytes(g), packed + sc + zp + sr);
    assert rec[..RecordBytes(g)] == rec[..];
  }

  lemma OffsetsAre(x: Contents, g: Geometry, enc: HalfWriter)
    requires ValidGeometry(g) && ContentsFit(x, g)
    ensures ScaleOff(g) == |FlatBytes(PackedRows(x, g))|
    ensures ZeroOff(g) == ScaleOff(g) + |HalfBytes(x.scale, enc)|
    ensures TokenOff(g) == ZeroOff(g) + |HalfBytes(x.zero, enc)|
    ensures RopeOff(g) == TokenOff(g) + |HalfBytes(x.token, enc)|
    ensures RecordBytes(g) == RopeOff(g) + |HalfBytes(Flatten(x.rope), enc)|
  {
    hide FlatBytes, PackedRows, HalfBytes, Flatten, PackedBytes, ContentsFit;
    FieldSizes(x, g, enc);
  }

  /**
   `pack_tile`: rotate the latents, balance the transposed frame, quantise each channel, fold the
   per-channel scale, pack. The frame it packs is the rotated tile with the balancing scales.
   */
  method PackTile(g: Geometry, st: Stats, iters: nat, enc: HalfWriter, h: Matrix, lat: Matrix, rope: Matrix)
    returns (rec: array<bv8>, ghost f: Frame)
    requires ValidGeometry(g) && g.r >= 1 && Laws(st.e)
    requires IsMatrix(h, g.r, g.r) && IsMatrix(lat, g.group, g.r) && IsMatrix(rope, g.group, g.rope)
    ensures ValidFrame(f, g)
    ensures forall c, t | 0 <= c < g.r && 0 <= t < g.group :: f.tile.m[c][t] == VecMat(lat[t], h, g.r)[c]
    ensures f.rope == rope && f.sCol == BestCol(st, f.tile, iters) && f.sRow == BestRow(st, f.tile, iters)
    ensures ContentsFit(ContentsOf(f, g), g) && fresh(rec) && rec[..] == RecordOf(ContentsOf(f, g), g, enc)
    ensures Holds(rec[..], 0, g) && forall t, c | 0 <= t < g.group && 0 <= c < g.r ::
              NearestLevel(Balanced(f.tile, f.sCol, f.sRow)[c], t, CodeAt(rec[..], 0, g, t, c))
  {
    hide VecMat, BestCol, BestRow, Balanced, ContentsOf, RecordOf, ContentsFit, Laws, CodeAt, NearestLevel;
    var rot := MatMul(lat, h, g.r);
    var tile := Tile(Transpose(rot, g.r), g.group);
    var bal, sCol, sRow := VarianceNormalize(st, tile, iters);
    var frame := Frame(tile, sCol, sRow, rope);
    f := frame;
    ContentsOfFits(f, g);
    rec := PackContents(ContentsOf(frame, g), g, enc);
    RecordLevels(f, g, enc, 0, 0);
    forall t, c | 0 <= t < g.group && 0 <= c < g.r
      ensures NearestLevel(Balanced(f.tile, f.sCol, f.sRow)[c], t, CodeAt(rec[..], 0, g, t, c))
    {
      RecordLevels(f, g, enc, t, c);
    }
  }

  /** Any reader of a packed tile gets every rotated latent within the stored bound. */
  lemma PackedTileError(g: Geometry, f: Frame, enc: HalfWriter, dec: HalfReader, u: real, h: Matrix, lat: Matrix,
                        rec: seq<bv8>, t: nat, c: nat)
    requires ValidGeometry(g) && ValidFrame(f, g) && FrameRounds(f, g, enc, dec, u) && t < g.group && c < g.r
    requires IsMatrix(h, g.r, g.r) && IsMatrix(lat, g.group, g.r)
    requires f.tile.m[c][t] == VecMat(lat[t], h, g.r)[c]
    requires ContentsFit(ContentsOf(f, g), g) && rec == RecordOf(ContentsOf(f, g), g, enc)
    ensures Holds(rec, 0, g)
    ensures Abs(RecordRow(rec, 0, g, dec, t).lat[c] - VecMat(lat[t], h, g.r)[c]) <= StoredBound(f, g, u, t, c)
  {
    hide VecMat, ContentsOf, RecordOf, ContentsFit, RecordRow, StoredBound, FrameRounds;
    StoredError(f, g, enc, dec, u, t, c);
  }

  // ----- unpack_tile

  lemma ShiftIsHighNibble(b: bv8)
    ensures (b >> 4) as nat == HighNibble(b)
  {
    assert b >> 4 == (b >> 4) & 0xF;
  }

  lemma PairIndex(i: nat, r: nat)
    requires r % 2 == 0 && i < r / 2
    ensures 2 * i + 1 < r && (2 * i) / 2 == i && (2 * i + 1) / 2 == i && (2 * i) % 2 == 0 && (2 * i + 1) % 2 == 1
  {
  }

  /** `unpack_tile`'s strided fill of the code matrix. */
  method UnpackCodes(rec: seq<bv8>, g: Geometry) returns (q: array2<nat>)
    requires ValidGeometry(g) && Holds(rec, 0, g)
    ensures fresh(q) && q.Length0 == g.group && q.Length1 == g.r
    ensures forall t, c | 0 <= t < g.group && 0 <= c < g.r :: q[t, c] == CodeAt(rec, 0, g, t, c)
  {
    hide LowNibble, HighNibble, RecordBytes, PackedIndex, CodeAt;
    q := new nat[g.group, g.r];
    var t := 0;
    while t < g.group
      invariant t <= g.group
      invariant forall s, c | 0 <= s < t && 0 <= c < g.r :: q[s, c] == CodeAt(rec, 0, g, s, c)
    {
      var i := 0;
      while i < g.r / 2
        invariant i <= g.r / 2
        invariant forall s, c | 0 <= s < t && 0 <= c < g.r :: q[s, c] == CodeAt(rec, 0, g, s, c)
        invariant forall c | 0 <= c < 2 * i :: q[t, c] == CodeAt(rec, 0, g, t, c)
      {
        PackedInside(g, t, i);
        PairIndex(i, g.r);
        var at := PackedIndex(g, t, i);
        var b := rec[at];
        CodeAtIs(rec, g, t, 2 * i, at, b);
        CodeAtIs(rec, g, t, 2 * i + 1, at, b);
        ShiftIsHighNibble(b);
        q[t, 2 * i] := LowNibble(b);
        q[t, 2 * i + 1] := (b >> 4) as nat;
        i := i + 1;
      }
      t := t + 1;
    }
  }

  /** `unpack_tile` returns the rows that the kernels read from the same record. */
  method UnpackTile(rec: seq<bv8>, g: Geometry, half: HalfReader) returns (deq: Matrix, rope: Matrix)
    requires ValidGeometry(g) && Holds(rec, 0, g)
    ensures |deq| == |rope| == g.group
    ensures forall t | 0 <= t < g.group :: Row(deq[t], rope[t]) == RecordRow(rec, 0, g, half, t)
  {
    hide CodeAt, HalfAt, RecordBytes, ScaleOff, ZeroOff, TokenOff, RopeOff;
    var q := UnpackCodes(rec, g);
    deq, rope := [], [];
    var t := 0;
    while t < g.group
      modifies {}
      invariant t <= g.group && |deq| == |rope| == t
      invariant forall s | 0 <= s < t :: Row(deq[s], rope[s]) == RecordRow(rec, 0, g, half, s)
    {
      var lat := [];
      var c := 0;
      while c < g.r
        modifies {}
        invariant c <= g.r && |lat| == c
        invariant forall k | 0 <= k < c :: lat[k] == DequantAt(rec, 0, g, half, t, k)
      {
        NumbersInside(g, t, c);
        var v := DequantValue(q[t, c] as real, HalfAt(rec, 0, ScaleOff(g), c, half),
                              HalfAt(rec, 0, ZeroOff(g), c, half), HalfAt(rec, 0, TokenOff(g), t, half));
        lat := lat + [v];
        c := c + 1;
      }
      var ro := seq(g.rope, k requires 0 <= k < g.rope => RopeAt(rec, 0, g, half, t, k));
      assert Row(lat, ro) == RecordRow(rec, 0, g, half, t);
      deq, rope := deq + [lat], rope + [ro];
      t := t + 1;
    }
  }

  // ----- the per-token dequantisation kernel

  lemma BaseInside(g: Geometry, cache: seq<bv8>, blocks: nat, blk: nat)
    requires blk < blocks && |cache| == blocks * RecordBytes(g)
    ensures Holds(cache, blk * RecordBytes(g), g)
  {
    hide RecordBytes;
    assert (blk + 1) * RecordBytes(g) <= blocks * RecordBytes(g);
  }

  /** One program of the kernel: exactly its own row of the two scratch buffers is written. */
  method DequantProgram(cache: seq<bv8>, g: Geometry, half: HalfReader, blocks: nat, blk: nat, t: nat,
                        outLat: array2<Vec>, outRope: array2<Vec>)
    requires ValidGeometry(g) && blk < blocks && t < g.group && |cache| == blocks * RecordBytes(g)
    requires outLat.Length0 == outRope.Length0 == blocks && outLat.Length1 == outRope.Length1 == g.group
    requires outLat != outRope
    modifies outLat, outRope
    ensures Holds(cache, blk * RecordBytes(g), g)
    ensures Row(outLat[blk, t], outRope[blk, t]) == RecordRow(cache, blk * RecordBytes(g), g, half, t)
    ensures forall b, s | 0 <= b < blocks && 0 <= s < g.group && (b, s) != (blk, t) ::
              outLat[b, s] == old(outLat[b, s]) && outRope[b, s] == old(outRope[b, s])
  {
    hide RecordBytes, RecordRow, ScalesOf;
    BaseInside(g, cache, blocks, blk);
    var base := blk * RecordBytes(g);
    var scale, zp := LoadScales(cache, base, g, half);
    var row := ReadRow(cache, base, g, half, t, scale, zp);
    outLat[blk, t] := row.lat;
    outRope[blk, t] := row.rope;
  }
}
