/**
 Runs of the dual-source cache: slot assignment, scattered rows, tile flushes and discards, with
 a history of the last row each slot accepted.
 */
module CacheRun {
  import opened Vectors
  import opened TileRecord
  import opened TileCodec
  import opened Sinkhorn
  import opened TilePipeline
  import opened DecodeMemory
  import opened AttentionError
  import opened DualCache

  // ----- replacing one record of the flat cache

  function ReplaceRecord(cache: seq<bv8>, base: nat, rec: seq<bv8>): (r: seq<bv8>)
    requires base + |rec| <= |cache|
    ensures |r| == |cache|
  {
    cache[..base] + rec + cache[base + |rec|..]
  }

  /** A record's rows depend only on its own bytes. */
  lemma RowIsLocal(a: seq<bv8>, i: nat, b: seq<bv8>, j: nat, g: Geometry, half: HalfReader, t: nat)
    requires ValidGeometry(g) && Holds(a, i, g) && Holds(b, j, g) && t < g.group
    requires a[i..i + RecordBytes(g)] == b[j..j + RecordBytes(g)]
    ensures RecordRow(a, i, g, half, t) == RecordRow(b, j, g, half, t)
  {
    hide RecordBytes, DequantAt, RopeAt;
    forall c | 0 <= c < g.r ensures DequantAt(a, i, g, half, t, c) == DequantAt(b, j, g, half, t, c) {
      DequantIsLocal(a, i, b, j, g, half, t, c);
    }
    forall k | 0 <= k < g.rope ensures RopeAt(a, i, g, half, t, k) == RopeAt(b, j, g, half, t, k) {
      RopeInside(g, t, k);
      HalfIsLocal(a, i, b, j, RopeOff(g), t * g.rope + k, half, RecordBytes(g));
      RopeAtIs(a, i, g, half, t, k);
      RopeAtIs(b, j, g, half, t, k);
    }
  }

  lemma RopeAtIs(a: seq<bv8>, i: nat, g: Geometry, half: HalfReader, t: nat, k: nat)
    requires Holds(a, i, g) && t < g.group && k < g.rope
    ensures i + RopeOff(g) + 2 * (t * g.rope + k) + 1 < |a|
    ensures RopeAt(a, i, g, half, t, k) == HalfAt(a, i, RopeOff(g), t * g.rope + k, half)
  {
    hide RopeOff, HalfAt, RecordBytes;
    RopeInside(g, t, k);
  }

  lemma ByteIsLocal(a: seq<bv8>, i: nat, b: seq<bv8>, j: nat, k: nat, n: nat)
    requires i + n <= |a| && j + n <= |b| && k < n && a[i..i + n] == b[j..j + n]
    ensures a[i + k] == b[j + k]
  {
    assert a[i + k] == a[i..i + n][k] && b[j + k] == b[j..j + n][k];
  }

  lemma HalfIsLocal(a: seq<bv8>, i: nat, b: seq<bv8>, j: nat, off: nat, k: nat, half: HalfReader, n: nat)
    requires i + n <= |a| && j + n <= |b| && off + 2 * k + 1 < n && a[i..i + n] == b[j..j + n]
    ensures HalfAt(a, i, off, k, half) == HalfAt(b, j, off, k, half)
  {
    ByteIsLocal(a, i, b, j, off + 2 * k, n);
    ByteIsLocal(a, i, b, j, off + 2 * k + 1, n);
  }

  lemma DequantIsLocal(a: seq<bv8>, i: nat, b: seq<bv8>, j: nat, g: Geometry, half: HalfReader, t: nat, c: nat)
    requires ValidGeometry(g) && Holds(a, i, g) && Holds(b, j, g) && t < g.group && c < g.r
    requires a[i..i + RecordBytes(g)] == b[j..j + RecordBytes(g)]
    ensures DequantAt(a, i, g, half, t, c) == DequantAt(b, j, g, half, t, c)
  {
    hide RecordBytes, ScaleOff, ZeroOff, TokenOff, PackedIndex, LowNibble, HighNibble, DequantValue, HalfAt;
    NumbersInside(g, t, c);
    var n := RecordBytes(g);
    HalfIsLocal(a, i, b, j, ScaleOff(g), c, half, n);
    HalfIsLocal(a, i, b, j, ZeroOff(g), c, half, n);
    HalfIsLocal(a, i, b, j, TokenOff(g), t, half, n);
    PackedInside(g, t, c / 2);
    ByteIsLocal(a, i, b, j, PackedIndex(g, t, c / 2), n);
  }

  lemma BlocksApart(a: nat, b: nat, k: nat)
    requires a < b
    ensures a * k + k <= b * k
  {
    MulMonotone(a + 1, b, k);
    assert (a + 1) * k == a * k + k;
  }

  /** Replacing block `a`'s record gives its rows, and leaves the rows of every other block. */
  lemma ReplaceRecordRows(cache: seq<bv8>, n: nat, a: nat, rec: seq<bv8>, b: nat, g: Geometry, half: HalfReader, t: nat)
    requires ValidGeometry(g) && |cache| == n * RecordBytes(g) && |rec| == RecordBytes(g) && a < n && b < n
             && t < g.group
    ensures a * RecordBytes(g) + |rec| <= |cache|
    ensures Holds(ReplaceRecord(cache, a * RecordBytes(g), rec), b * RecordBytes(g), g)
    ensures Holds(cache, b * RecordBytes(g), g) && Holds(rec, 0, g)
    ensures RecordRow(ReplaceRecord(cache, a * RecordBytes(g), rec), b * RecordBytes(g), g, half, t)
         == if a == b then RecordRow(rec, 0, g, half, t) else RecordRow(cache, b * RecordBytes(g), g, half, t)
  {
    hide RecordBytes, RecordRow;
    var k := RecordBytes(g);
    BlocksApart(a, n, k);
    BlocksApart(b, n, k);
    if a < b { BlocksApart(a, b, k); } else if b < a { BlocksApart(b, a, k); }
    ReplaceRowAt(cache, a * k, rec, b * k, g, half, t);
  }

  lemma ReplaceRowAt(cache: seq<bv8>, i: nat, rec: seq<bv8>, j: nat, g: Geometry, half: HalfReader, t: nat)
    requires ValidGeometry(g) && |rec| == RecordBytes(g) && t < g.group
    requires i + |rec| <= |cache| && j + |rec| <= |cache| && (i == j || i + |rec| <= j || j + |rec| <= i)
    ensures Holds(ReplaceRecord(cache, i, rec), j, g) && Holds(cache, j, g) && Holds(rec, 0, g)
    ensures RecordRow(ReplaceRecord(cache, i, rec), j, g, half, t)
         == if i == j then RecordRow(rec, 0, g, half, t) else RecordRow(cache, j, g, half, t)
  {
    hide RecordBytes, RecordRow;
    var k, r := |rec|, ReplaceRecord(cache, i, rec);
    if i == j {
      assert r[i..i + k] == rec == rec[0..0 + k];
      RowIsLocal(r, j, rec, 0, g, half, t);
    } else {
      SliceOutside(cache, i, rec, j, k);
      RowIsLocal(r, j, cache, j, g, half, t);
    }
  }

  lemma SliceOutside(cache: seq<bv8>, i: nat, rec: seq<bv8>, j: nat, k: nat)
    requires i + |rec| <= |cache| && j + k <= |cache| && |rec| == k && (i + k <= j || j + k <= i)
    ensures ReplaceRecord(cache, i, rec)[j..j + k] == cache[j..j + k]
  {
    var r := ReplaceRecord(cache, i, rec);
    var u, v := r[j..j + k], cache[j..j + k];
    forall x | 0 <= x < k ensures u[x] == v[x] {
      assert r[j + x] == cache[j + x];
    }
  }

  // ----- operations

  /** The last row a slot accepted, and how far what is now stored may be from it. */
  datatype Entry = Entry(row: Row, lat: Vec, rope: Vec)

  datatype State = State(kv: Kv, last: map<nat, Entry>)

  datatype Op =
    | Scatter(row: Row, slot: int)
    | Assign(block: nat, p: nat)
    | Flush(block: nat, sCol: Vec, sRow: Vec)
    | Discard(block: nat)

  /** The fp16 writer, and the relative error its round trip may have. */
  datatype Codec = Codec(enc: HalfWriter, u: real)

  predicate Mapped(kv: Kv, block: nat) { block < |kv.blockToSlot| && kv.blockToSlot[block] >= 0 }

  /** The frame that flushing a block quantises: its pool slot, transposed. */
  function FlushFrame(kv: Kv, block: nat, sCol: Vec, sRow: Vec): Frame
    requires ValidStore(kv) && Mapped(kv, block)
  {
    var p := kv.blockToSlot[block];
    Frame(Tile(Transpose(kv.poolLat[p], kv.g.r), kv.g.group), sCol, sRow, kv.poolRope[p])
  }

  /** When an operation may happen. A flush needs positive scales and numbers that fp16 can hold. */
  ghost predicate Enabled(kv: Kv, op: Op, x: Codec)
    requires ValidStore(kv)
  {
    match op
    case Scatter(row, slot) => RowFits(row, kv.g)
    case Assign(block, p) =>
      && block < |kv.blockToSlot| && !Mapped(kv, block) && p < |kv.poolLat| && p !in kv.blockToSlot
    case Flush(block, sCol, sRow) =>
      && Mapped(kv, block)
      && var f := FlushFrame(kv, block, sCol, sRow);
         && ValidFrame(f, kv.g) && FrameRounds(f, kv.g, x.enc, kv.half, x.u)
         && forall t, k | 0 <= t < kv.g.group && 0 <= k < kv.g.rope :: RoundsWithin(x.enc, kv.half, x.u, f.rope[t][k])
    case Discard(block) => Mapped(kv, block)
  }

  function AssignStore(kv: Kv, block: nat, p: nat): Kv
    requires ValidStore(kv) && block < |kv.blockToSlot| && p < |kv.poolLat|
  {
    kv.(blockToSlot := kv.blockToSlot[block := p],
        poolLat := kv.poolLat[p := ZeroRows(kv.g.group, kv.g.r)],
        poolRope := kv.poolRope[p := ZeroRows(kv.g.group, kv.g.rope)])
  }

  function DiscardStore(kv: Kv, block: nat): Kv
    requires block < |kv.blockToSlot|
  {
    kv.(blockToSlot := kv.blockToSlot[block := -1])
  }

  /** The bytes that flushing frame `f` writes. */
  function FlushRecord(f: Frame, g: Geometry, enc: HalfWriter): (b: seq<bv8>)
    requires ValidGeometry(g) && ValidFrame(f, g)
    ensures |b| == RecordBytes(g)
  {
    hide ContentsOf, RecordOf, ContentsFit, RecordBytes, FieldIs, ScaleOff, ZeroOff, TokenOff, RopeOff;
    ContentsOfFits(f, g);
    RecordFields(ContentsOf(f, g), g, enc);
    RecordOf(ContentsOf(f, g), g, enc)
  }

  /** `make_int4_record` followed by dropping the block's pool slot. */
  function FlushStore(kv: Kv, block: nat, f: Frame, enc: HalfWriter): Kv
    requires ValidStore(kv) && block < |kv.blockToSlot| && ValidFrame(f, kv.g)
  {
    hide FlushRecord, RecordBytes, Injective, ValidFrame;
    BlocksApart(block, |kv.blockToSlot|, RecordBytes(kv.g));
    kv.(cache := ReplaceRecord(kv.cache, block * RecordBytes(kv.g), FlushRecord(f, kv.g, enc)),
        blockToSlot := kv.blockToSlot[block := -1])
  }

  /** The store after an operation. */
  ghost function Apply(kv: Kv, op: Op, x: Codec): Kv
    requires ValidStore(kv) && Enabled(kv, op, x)
  {
    match op
    case Scatter(row, slot) => ScatterOne(kv, row, slot)
    case Assign(block, p) => AssignStore(kv, block, p)
    case Flush(block, sCol, sRow) => FlushStore(kv, block, FlushFrame(kv, block, sCol, sRow), x.enc)
    case Discard(block) => DiscardStore(kv, block)
  }

  ghost function FlushedEntry(kv: Kv, f: Frame, x: Codec, e: Entry, t: nat): Entry
    requires ValidFrame(f, kv.g) && t < kv.g.group
  {
    Entry(e.row,
          seq(kv.g.r, c requires 0 <= c < kv.g.r => StoredBound(f, kv.g, x.u, t, c)),
          seq(kv.g.rope, k requires 0 <= k < kv.g.rope => Times(x.u, Abs(f.rope[t][k]))))
  }

  /** The history after an operation: scattering records a row, flushing widens its bounds. */
  ghost function Track(st: State, op: Op, x: Codec): map<nat, Entry>
    requires ValidStore(st.kv) && Enabled(st.kv, op, x)
  {
    match op
    case Scatter(row, slot) =>
      if Pooled(st.kv, slot) then st.last[slot := Entry(row, Zeros(st.kv.g.r), Zeros(st.kv.g.rope))] else st.last
    case Assign(block, p) => map s | s in st.last && BlockOf(st.kv, s) != block :: st.last[s]
    case Flush(block, sCol, sRow) =>
      map s | s in st.last ::
        if BlockOf(st.kv, s) != block then st.last[s]
        else FlushedEntry(st.kv, FlushFrame(st.kv, block, sCol, sRow), x, st.last[s], PosOf(st.kv, s))
    case Discard(block) => map s | s in st.last && BlockOf(st.kv, s) != block :: st.last[s]
  }

  ghost function Step(st: State, op: Op, x: Codec): State
    requires ValidStore(st.kv) && Enabled(st.kv, op, x)
  {
    State(Apply(st.kv, op, x), Track(st, op, x))
  }

  // ----- the invariant

  /** Slot `s` reads its last row, exactly while pooled and within the entry's bounds once flushed. */
  ghost predicate SlotGood(kv: Kv, s: nat, e: Entry)
    requires ValidStore(kv)
  {
    && InStore(kv, s) && RowFits(e.row, kv.g)
    && RowWithin(GatherRow(kv, s), e.row, e.lat, e.rope)
    && (Pooled(kv, s) ==> GatherRow(kv, s) == e.row)
  }

  ghost predicate Good(st: State) {
    ValidStore(st.kv) && forall s | s in st.last :: SlotGood(st.kv, s, st.last[s])
  }

  lemma ExactIsWithin(row: Row, g: Geometry)
    requires RowFits(row, g)
    ensures RowWithin(row, row, Zeros(g.r), Zeros(g.rope))
  {
  }

  lemma StoreGroup(kv: Kv)
    requires ValidStore(kv)
    ensures kv.g.group >= 1 && ValidGeometry(kv.g)
  {
  }

  lemma ScatterKeepsGood(st: State, row: Row, slot: int, x: Codec)
    requires Good(st) && RowFits(row, st.kv.g)
    ensures Good(Step(st, Scatter(row, slot), x))
  {
    hide ValidStore, ScatterOne, GatherRow, RowWithin, RowFits;
    StoreGroup(st.kv);
    var next := Step(st, Scatter(row, slot), x);
    ScatterKeepsShape(st.kv, row, slot);
    forall s | s in next.last ensures SlotGood(next.kv, s, next.last[s]) {
      if s in st.last { assert SlotGood(st.kv, s, st.last[s]); }
      ScatterThenGather(st.kv, row, slot, s);
      ExactIsWithin(row, st.kv.g);
      if s == slot && Pooled(st.kv, slot) {
        assert next.last[s] == Entry(row, Zeros(st.kv.g.r), Zeros(st.kv.g.rope));
      }
    }
  }

  // ----- unmapping and mapping

  lemma DiscardShape(kv: Kv, block: nat)
    requires ValidStore(kv) && block < |kv.blockToSlot|
    ensures ValidStore(DiscardStore(kv, block))
  {
    hide RecordBytes;
  }

  /** Discarding a block changes no other block's rows. */
  lemma DiscardGather(kv: Kv, block: nat, s: int)
    requires ValidStore(kv) && block < |kv.blockToSlot| && InStore(kv, s) && BlockOf(kv, s) != block
    ensures ValidStore(DiscardStore(kv, block)) && InStore(DiscardStore(kv, block), s)
    ensures GatherRow(DiscardStore(kv, block), s) == GatherRow(kv, s)
    ensures Pooled(DiscardStore(kv, block), s) == Pooled(kv, s)
  {
    hide RecordBytes, RecordRow, GatherRow, Injective;
    DiscardShape(kv, block);
    var r := DiscardStore(kv, block);
    if Pooled(kv, s) {
      GatherPooled(kv, s);
      GatherPooled(r, s);
    } else {
      GatherFlushed(kv, s);
      GatherFlushed(r, s);
    }
  }

  lemma DiscardKeepsGood(st: State, block: nat, x: Codec)
    requires Good(st) && Enabled(st.kv, Discard(block), x)
    ensures Good(Step(st, Discard(block), x))
  {
    hide ValidStore, GatherRow, RowWithin, RowFits, DiscardStore;
    StoreGroup(st.kv);
    DiscardShape(st.kv, block);
    var next := Step(st, Discard(block), x);
    forall s | s in next.last ensures SlotGood(next.kv, s, next.last[s]) {
      assert SlotGood(st.kv, s, st.last[s]);
      DiscardGather(st.kv, block, s);
      DiscardSame(st.kv, block);
    }
  }

  lemma DiscardSame(kv: Kv, block: nat)
    requires block < |kv.blockToSlot|
    ensures DiscardStore(kv, block).g == kv.g
  {
  }

  lemma AssignShape(kv: Kv, block: nat, p: nat)
    requires ValidStore(kv) && block < |kv.blockToSlot| && p < |kv.poolLat| && p !in kv.blockToSlot
    ensures ValidStore(AssignStore(kv, block, p))
  {
    hide RecordBytes;
    var r := AssignStore(kv, block, p);
    forall a, b | && 0 <= a < |r.blockToSlot| && 0 <= b < |r.blockToSlot|
                  && r.blockToSlot[a] >= 0 && r.blockToSlot[a] == r.blockToSlot[b]
      ensures a == b
    {
      assert a != block ==> kv.blockToSlot[a] in kv.blockToSlot;
      assert b != block ==> kv.blockToSlot[b] in kv.blockToSlot;
    }
  }

  /** Giving a block a free slot changes no other block's rows. */
  lemma AssignGather(kv: Kv, block: nat, p: nat, s: int)
    requires ValidStore(kv) && block < |kv.blockToSlot| && p < |kv.poolLat| && p !in kv.blockToSlot
    requires InStore(kv, s) && BlockOf(kv, s) != block
    ensures ValidStore(AssignStore(kv, block, p)) && InStore(AssignStore(kv, block, p), s)
    ensures AssignStore(kv, block, p).g == kv.g
    ensures GatherRow(AssignStore(kv, block, p), s) == GatherRow(kv, s)
    ensures Pooled(AssignStore(kv, block, p), s) == Pooled(kv, s)
  {
    hide RecordBytes, RecordRow, GatherRow, Injective;
    AssignShape(kv, block, p);
    var r := AssignStore(kv, block, p);
    if Pooled(kv, s) {
      GatherPooled(kv, s);
      GatherPooled(r, s);
      assert kv.blockToSlot[BlockOf(kv, s)] in kv.blockToSlot;
    } else {
      GatherFlushed(kv, s);
      GatherFlushed(r, s);
    }
  }

  /** A block that has just been given a slot reads zeros, whatever the slot held before. */
  lemma AssignReadsZeros(kv: Kv, block: nat, p: nat, s: int)
    requires ValidStore(kv) && block < |kv.blockToSlot| && p < |kv.poolLat| && p !in kv.blockToSlot
    requires InStore(kv, s) && BlockOf(kv, s) == block
    ensures ValidStore(AssignStore(kv, block, p)) && Pooled(AssignStore(kv, block, p), s)
    ensures GatherRow(AssignStore(kv, block, p), s) == Row(Zeros(kv.g.r), Zeros(kv.g.rope))
  {
    hide RecordBytes, RecordRow, GatherRow, Injective;
    AssignShape(kv, block, p);
    GatherPooled(AssignStore(kv, block, p), s);
  }

  /** A block whose slot was discarded reads its record again. */
  lemma DiscardReadsRecord(kv: Kv, block: nat, s: int)
    requires ValidStore(kv) && block < |kv.blockToSlot| && InStore(kv, s) && BlockOf(kv, s) == block
    ensures ValidStore(DiscardStore(kv, block)) && InStore(DiscardStore(kv, block), s)
    ensures Holds(kv.cache, block * RecordBytes(kv.g), kv.g)
    ensures GatherRow(DiscardStore(kv, block), s)
         == RecordRow(kv.cache, block * RecordBytes(kv.g), kv.g, kv.half, PosOf(kv, s))
  {
    hide RecordBytes, RecordRow, GatherRow, Injective;
    DiscardShape(kv, block);
    GatherFlushed(DiscardStore(kv, block), s);
  }

  lemma AssignKeepsGood(st: State, block: nat, p: nat, x: Codec)
    requires Good(st) && Enabled(st.kv, Assign(block, p), x)
    ensures Good(Step(st, Assign(block, p), x))
  {
    hide ValidStore, GatherRow, RowWithin, RowFits, AssignStore;
    StoreGroup(st.kv);
    AssignShape(st.kv, block, p);
    var next := Step(st, Assign(block, p), x);
    forall s | s in next.last ensures SlotGood(next.kv, s, next.last[s]) {
      assert SlotGood(st.kv, s, st.last[s]);
      AssignGather(st.kv, block, p, s);
    }
  }

  // ----- flushing

  lemma FlushShape(kv: Kv, block: nat, f: Frame, enc: HalfWriter)
    requires ValidStore(kv) && block < |kv.blockToSlot| && ValidFrame(f, kv.g)
    ensures ValidStore(FlushStore(kv, block, f, enc)) && FlushStore(kv, block, f, enc).g == kv.g
  {
    hide RecordBytes, FlushRecord, ReplaceRecord, ValidFrame;
    BlocksApart(block, |kv.blockToSlot|, RecordBytes(kv.g));
  }

  /** After a flush the block's slots read its record; other blocks read what they read before. */
  lemma FlushGather(kv: Kv, block: nat, f: Frame, enc: HalfWriter, s: int)
    requires ValidStore(kv) && block < |kv.blockToSlot| && ValidFrame(f, kv.g) && InStore(kv, s)
    ensures ValidStore(FlushStore(kv, block, f, enc)) && InStore(FlushStore(kv, block, f, enc), s)
    ensures Holds(FlushRecord(f, kv.g, enc), 0, kv.g)
    ensures GatherRow(FlushStore(kv, block, f, enc), s)
         == if BlockOf(kv, s) == block then RecordRow(FlushRecord(f, kv.g, enc), 0, kv.g, kv.half, PosOf(kv, s))
            else GatherRow(kv, s)
    ensures Pooled(FlushStore(kv, block, f, enc), s) <==> Pooled(kv, s) && BlockOf(kv, s) != block
  {
    hide RecordBytes, RecordRow, GatherRow, Injective, FlushRecord, ReplaceRecord, ValidFrame;
    FlushShape(kv, block, f, enc);
    var r, rec := FlushStore(kv, block, f, enc), FlushRecord(f, kv.g, enc);
    ReplaceRecordRows(kv.cache, |kv.blockToSlot|, block, rec, BlockOf(kv, s), kv.g, kv.half, PosOf(kv, s));
    if Pooled(r, s) {
      GatherPooled(kv, s);
      GatherPooled(r, s);
    } else {
      GatherFlushed(r, s);
      if BlockOf(kv, s) != block { GatherFlushed(kv, s); }
    }
  }

  /** The flushed record's row is within the entry bounds of the pool row it came from. */
  lemma FlushedRowWithin(kv: Kv, block: nat, sCol: Vec, sRow: Vec, x: Codec, t: nat)
    requires ValidStore(kv) && Enabled(kv, Flush(block, sCol, sRow), x) && t < kv.g.group
    ensures var f := FlushFrame(kv, block, sCol, sRow);
            var p := kv.blockToSlot[block];
            var e := FlushedEntry(kv, f, x, Entry(Row([], []), [], []), t);
            && Holds(FlushRecord(f, kv.g, x.enc), 0, kv.g) && 0 <= p < |kv.poolLat| == |kv.poolRope|
            && t < |kv.poolLat[p]| && t < |kv.poolRope[p]|
            && RowWithin(RecordRow(FlushRecord(f, kv.g, x.enc), 0, kv.g, kv.half, t),
                         Row(kv.poolLat[p][t], kv.poolRope[p][t]), e.lat, e.rope)
  {
    hide RecordBytes, RecordRow, RecordOf, ContentsOf, ContentsFit, Injective, StoredBound, Times, Abs, FrameRounds,
         ValidFrame, RoundTrip;
    var f, g := FlushFrame(kv, block, sCol, sRow), kv.g;
    var p := kv.blockToSlot[block];
    ContentsOfFits(f, g);
    var rec := FlushRecord(f, g, x.enc);
    var row := RecordRow(rec, 0, g, kv.half, t);
    FrameParts(f, g);
    forall c | 0 <= c < g.r ensures Abs(row.lat[c] - kv.poolLat[p][t][c]) <= StoredBound(f, g, x.u, t, c) {
      StoredError(f, g, x.enc, kv.half, x.u, t, c);
    }
    RecordRoundTrip(ContentsOf(f, g), g, x.enc, kv.half, t);
    ContentsRope(f, g);
    forall k | 0 <= k < g.rope ensures Abs(row.rope[k] - kv.poolRope[p][t][k]) <= Times(x.u, Abs(f.rope[t][k])) {
      assert RoundsWithin(x.enc, kv.half, x.u, f.rope[t][k]);
    }
  }

  lemma FrameParts(f: Frame, g: Geometry)
    requires ValidFrame(f, g)
    ensures IsMatrix(f.rope, g.group, g.rope) && ValidTile(f.tile) && |f.tile.m| == g.r && f.tile.cols == g.group
  {
  }

  lemma ContentsRope(f: Frame, g: Geometry)
    requires ValidFrame(f, g)
    ensures ContentsOf(f, g).rope == f.rope
  {
  }

  lemma FlushKeepsGood(st: State, block: nat, sCol: Vec, sRow: Vec, x: Codec)
    requires Good(st) && Enabled(st.kv, Flush(block, sCol, sRow), x)
    ensures Good(Step(st, Flush(block, sCol, sRow), x))
  {
    hide ValidStore, GatherRow, RowWithin, RowFits, FlushStore, ValidFrame, FrameRounds, FlushRecord, RecordRow,
         FlushFrame, RoundsWithin;
    StoreGroup(st.kv);
    var f := FlushFrame(st.kv, block, sCol, sRow);
    FlushShape(st.kv, block, f, x.enc);
    var next := Step(st, Flush(block, sCol, sRow), x);
    forall s | s in next.last ensures SlotGood(next.kv, s, next.last[s]) {
      assert SlotGood(st.kv, s, st.last[s]);
      FlushGather(st.kv, block, f, x.enc, s);
      if BlockOf(st.kv, s) == block {
        GatherPooled(st.kv, s);
        FlushedRowWithin(st.kv, block, sCol, sRow, x, PosOf(st.kv, s));
      }
    }
  }

  // ----- runs

  /** Every operation of the run is enabled when it happens. */
  ghost predicate Legal(st: State, ops: seq<Op>, x: Codec)
    decreases |ops|
  {
    ops != [] ==> ValidStore(st.kv) && Enabled(st.kv, ops[0], x) && Legal(Step(st, ops[0], x), ops[1..], x)
  }

  ghost function Run(st: State, ops: seq<Op>, x: Codec): State
    requires Legal(st, ops, x)
    decreases |ops|
  {
    if ops == [] then st else Run(Step(st, ops[0], x), ops[1..], x)
  }

  lemma StepKeepsGood(st: State, op: Op, x: Codec)
    requires Good(st) && Enabled(st.kv, op, x)
    ensures Good(Step(st, op, x))
  {
    match op
    case Scatter(row, slot) => ScatterKeepsGood(st, row, slot, x);
    case Assign(block, p) => AssignKeepsGood(st, block, p, x);
    case Flush(block, sCol, sRow) => FlushKeepsGood(st, block, sCol, sRow, x);
    case Discard(block) => DiscardKeepsGood(st, block, x);
  }

  /**
   Over every legal run, a gather of any slot in the history returns its last accepted row:
   exactly while the block is pooled, within the recorded quantisation bounds once it is flushed.
   */
  lemma {:induction false} RunKeepsGood(st: State, ops: seq<Op>, x: Codec)
    requires Good(st) && Legal(st, ops, x)
    ensures Good(Run(st, ops, x))
    decreases |ops|
  {
    hide Step, Enabled, ValidStore, SlotGood;
    if ops != [] {
      StepKeepsGood(st, ops[0], x);
      RunKeepsGood(Step(st, ops[0], x), ops[1..], x);
    }
  }

  /** A run of one list of operations after another is a run of both. */
  lemma {:induction false} RunConcat(st: State, a: seq<Op>, b: seq<Op>, x: Codec)
    requires Legal(st, a, x) && Legal(Run(st, a, x), b, x)
    ensures Legal(st, a + b, x) && Run(st, a + b, x) == Run(Run(st, a, x), b, x)
    decreases |a|
  {
    hide Step, Enabled, ValidStore;
    if a == [] {
      assert a + b == b;
    } else {
      RunConcat(Step(st, a[0], x), a[1..], b, x);
      assert (a + b)[1..] == a[1..] + b;
    }
  }

  lemma RunOne(st: State, op: Op, x: Codec)
    requires ValidStore(st.kv) && Enabled(st.kv, op, x)
    ensures Legal(st, [op], x) && Run(st, [op], x) == Step(st, op, x)
  {
    hide Step, Enabled, ValidStore;
    assert Legal(Step(st, op, x), [], x);
  }

  // ----- a scatter launch as a run

  /** The operations of a scatter launch whose programs run in the given order. */
  function BatchOps(b: Batch, order: seq<nat>): (ops: seq<Op>)
    requires |b.rows| == |b.slots| && IsProgramList(order, |b.rows|)
    ensures |ops| == |order| && forall i | 0 <= i < |order| :: ops[i] == Scatter(b.rows[order[i]], b.slots[order[i]])
  {
    seq(|order|, i requires 0 <= i < |order| => Scatter(b.rows[order[i]], b.slots[order[i]]))
  }

  /** A scatter launch, in any order, is a legal run of scatters. */
  lemma {:induction false} BatchIsRun(st: State, b: Batch, order: seq<nat>, x: Codec)
    requires ValidStore(st.kv) && DualCache.ValidBatch(b, st.kv.g) && IsProgramList(order, |b.rows|)
    ensures Legal(st, BatchOps(b, order), x) && Run(st, BatchOps(b, order), x).kv == ScatterRun(st.kv, b, order)
    decreases |order|
  {
    hide ValidStore, ScatterOne, ScatterRun, Track;
    if order == [] {
      ScatterRunEmpty(st.kv, b);
    } else {
      var k := |order| - 1;
      var first, op := BatchOps(b, order[..k]), Scatter(b.rows[order[k]], b.slots[order[k]]);
      BatchIsRun(st, b, order[..k], x);
      ScatterRunUnfold(st.kv, b, order);
      var mid := Run(st, first, x);
      RunOne(mid, op, x);
      RunConcat(st, first, [op], x);
      assert BatchOps(b, order) == first + [op];
    }
  }

  /** Padding slots gather zeros in every state. */
  lemma PaddingGathersZeros(kv: Kv, slot: int)
    requires ValidStore(kv) && slot < 0
    ensures GatherRow(kv, slot) == Row(Zeros(kv.g.r), Zeros(kv.g.rope))
  {
  }
}
