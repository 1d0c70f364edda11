/**
 The in-place kernels of the dual-source cache: the scatter grid over the pool buffers, the
 record writer over the flat cache, and the gather grid over the workspace.
 */
module CacheKernels {
  import opened Vectors
  import opened TileRecord
  import opened TileReader
  import opened TileCodec
  import opened TilePipeline
  import opened TileKernels
  import opened DecodeMemory
  import opened DualCache
  import opened CacheRun

  /** The contents of a `[pool, group]` buffer of rows. */
  ghost function Cells(a: array2<Vec>): (m: seq<Matrix>)
    reads a
    ensures |m| == a.Length0 && forall p | 0 <= p < a.Length0 :: |m[p]| == a.Length1
    ensures forall p, t | 0 <= p < a.Length0 && 0 <= t < a.Length1 :: m[p][t] == a[p, t]
  {
    seq(a.Length0, p requires 0 <= p < a.Length0 reads a =>
      seq(a.Length1, t requires 0 <= t < a.Length1 reads a => a[p, t]))
  }

  /** The pool buffers hold what the store says. */
  ghost predicate Backs(kv: Kv, lat: array2<Vec>, rope: array2<Vec>)
    reads lat, rope
  {
    && lat != rope && lat.Length0 == rope.Length0 == |kv.poolLat| && lat.Length1 == rope.Length1 == kv.g.group
    && Cells(lat) == kv.poolLat && Cells(rope) == kv.poolRope
  }

  lemma WrittenCells(before: seq<Matrix>, after: seq<Matrix>, p: nat, t: nat, v: Vec)
    requires p < |before| == |after| && t < |before[p]|
    requires forall q | 0 <= q < |before| :: |after[q]| == |before[q]|
    requires after[p][t] == v
    requires forall q, s | 0 <= q < |before| && 0 <= s < |before[q]| && (q, s) != (p, t) :: after[q][s] == before[q][s]
    ensures after == SetCell(before, p, t, v)
  {
    forall q | 0 <= q < |before| ensures after[q] == SetCell(before, p, t, v)[q] {
      forall s | 0 <= s < |before[q]| ensures after[q][s] == SetCell(before, p, t, v)[q][s] {
        if (q, s) == (p, t) {} else { assert after[q][s] == before[q][s]; }
      }
    }
  }

  /** One scatter program, in place. */
  method ScatterProgram(ghost kv: Kv, row: Row, sm: int, group: nat, blockToSlot: seq<int>,
                        lat: array2<Vec>, rope: array2<Vec>)
    requires ValidStore(kv) && RowFits(row, kv.g) && group == kv.g.group && blockToSlot == kv.blockToSlot
    requires Backs(kv, lat, rope)
    modifies lat, rope
    ensures ValidStore(ScatterOne(kv, row, sm)) && Backs(ScatterOne(kv, row, sm), lat, rope)
  {
    hide RecordBytes, Injective, Cells, SetCell;
    ScatterKeepsShape(kv, row, sm);
    if sm < 0 {
      return;
    }
    var block, pos := sm / group, sm % group;
    if !(0 <= block < |blockToSlot|) {
      return;
    }
    var slot := blockToSlot[block];
    if slot < 0 {
      return;
    }
    lat[slot, pos] := row.lat;
    rope[slot, pos] := row.rope;
    WrittenCells(kv.poolLat, Cells(lat), slot, pos, row.lat);
    WrittenCells(kv.poolRope, Cells(rope), slot, pos, row.rope);
  }

  ghost predicate EachOnce(order: seq<nat>, n: nat) {
    && IsProgramList(order, n)
    && forall i: nat | i < n :: i in order
  }

  ghost function InOrder(n: nat): (order: seq<nat>)
    ensures |order| == n && forall i | 0 <= i < n :: order[i] == i
  {
    seq(n, i requires 0 <= i < n => i)
  }

  lemma InOrderSame(order: seq<nat>, n: nat)
    requires EachOnce(order, n)
    ensures IsProgramList(InOrder(n), n) && SamePrograms(order, InOrder(n))
  {
    forall i | i in order ensures i in InOrder(n) { assert InOrder(n)[i] == i; }
  }

  /** The scatter launch: whatever order the grid runs in, the buffers end as if it ran in order. */
  method ScatterStore(ghost kv: Kv, b: Batch, order: seq<nat>, group: nat, blockToSlot: seq<int>,
                      lat: array2<Vec>, rope: array2<Vec>)
    requires ValidStore(kv) && ValidBatch(b, kv.g) && DistinctSlots(b) && EachOnce(order, |b.rows|)
    requires group == kv.g.group && blockToSlot == kv.blockToSlot && Backs(kv, lat, rope)
    modifies lat, rope
    ensures IsProgramList(InOrder(|b.rows|), |b.rows|)
    ensures Backs(ScatterRun(kv, b, InOrder(|b.rows|)), lat, rope)
  {
    hide ValidStore, ScatterOne, Backs, ScatterRun, DistinctSlots, InOrder;
    ScatterRunEmpty(kv, b);
    ghost var now := kv;
    var k := 0;
    while k < |order|
      invariant k <= |order| && ValidStore(now) && now == ScatterRun(kv, b, order[..k]) && Backs(now, lat, rope)
    {
      var i := order[k];
      ghost var next := ScatterOne(now, b.rows[i], b.slots[i]);
      assert order[..k + 1][..k] == order[..k];
      ScatterRunUnfold(kv, b, order[..k + 1]);
      ScatterProgram(now, b.rows[i], b.slots[i], group, blockToSlot, lat, rope);
      now := next;
      k := k + 1;
    }
    assert order[..|order|] == order;
    InOrderSame(order, |b.rows|);
    ScatterCommutes(kv, b, order, InOrder(|b.rows|));
  }

  /** `make_int4_record`: write the five fields into the block's slice of the flat cache. */
  method MakeInt4Record(cache: array<bv8>, blocks: nat, phys: nat, f: Frame, g: Geometry, enc: HalfWriter)
    requires ValidGeometry(g) && ValidFrame(f, g) && phys < blocks && cache.Length == blocks * RecordBytes(g)
    modifies cache
    ensures phys * RecordBytes(g) + RecordBytes(g) <= cache.Length
    ensures cache[..] == ReplaceRecord(old(cache[..]), phys * RecordBytes(g), FlushRecord(f, g, enc))
  {
    hide RecordBytes, FlushRecord, ContentsOf, RecordOf, ContentsFit, ValidFrame;
    BlocksApart(phys, blocks, RecordBytes(g));
    ContentsOfFits(f, g);
    FlushRecordIs(f, g, enc);
    var rec := PackContents(ContentsOf(f, g), g, enc);
    var base := phys * RecordBytes(g);
    ghost var was := cache[..];
    WriteField(cache, base, rec[..]);
    assert cache[..] == cache[..base + RecordBytes(g)] + cache[base + RecordBytes(g)..];
    assert cache[base + RecordBytes(g)..] == was[base + RecordBytes(g)..];
    assert cache[..base + RecordBytes(g)] == was[..base] + rec[..];
  }

  lemma FlushRecordIs(f: Frame, g: Geometry, enc: HalfWriter)
    requires ValidGeometry(g) && ValidFrame(f, g)
    ensures ContentsFit(ContentsOf(f, g), g) && FlushRecord(f, g, enc) == RecordOf(ContentsOf(f, g), g, enc)
  {
    hide RecordBytes, ContentsOf, RecordOf, ContentsFit;
    ContentsOfFits(f, g);
  }

  /** One gather program: its workspace row is `[latent | rope]` of the selected slot. */
  method GatherProgram(kv: Kv, slots: seq<int>, r: nat, dst: array<Vec>)
    requires ValidStore(kv) && r < |slots| == dst.Length && (slots[r] < 0 || InStore(kv, slots[r]))
    modifies dst
    ensures dst[r] == GatherRow(kv, slots[r]).lat + GatherRow(kv, slots[r]).rope
    ensures forall i | 0 <= i < dst.Length && i != r :: dst[i] == old(dst[i])
  {
    hide RecordBytes, RecordRow, ValidStore, ScalesOf;
    StoreGroup(kv);
    var slot := slots[r];
    if slot < 0 {
      dst[r] := Zeros(kv.g.r) + Zeros(kv.g.rope);
      return;
    }
    var phys, intra := slot / kv.g.group, slot % kv.g.group;
    StoreReadable(kv, phys);
    var p := SlotOf(kv, phys);
    if p >= 0 {
      dst[r] := kv.poolLat[p][intra] + kv.poolRope[p][intra];
    } else {
      var base := phys * RecordBytes(kv.g);
      var sc, zp := LoadScales(kv.cache, base, kv.g, kv.half);
      var row := ReadRow(kv.cache, base, kv.g, kv.half, intra, sc, zp);
      dst[r] := row.lat + row.rope;
    }
  }
}
