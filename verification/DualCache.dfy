/**
 The dual-source cache over whole runs: rows are scattered into pool slots, full tiles are
 flushed to int4 records, and gathers read whichever source currently holds a block.
 */
module DualCache {
  import opened Vectors
  import opened TileRecord
  import opened DecodeMemory

  /** Numbers of blocks and the shape every state keeps. */
  predicate ValidStore(kv: Kv) {
    && ValidGeometry(kv.g) && kv.g.r >= 1
    && |kv.cache| == |kv.blockToSlot| * RecordBytes(kv.g)
    && |kv.poolLat| == |kv.poolRope|
    && (forall p | 0 <= p < |kv.poolLat| :: IsMatrix(kv.poolLat[p], kv.g.group, kv.g.r))
    && (forall p | 0 <= p < |kv.poolRope| :: IsMatrix(kv.poolRope[p], kv.g.group, kv.g.rope))
    && (forall b | 0 <= b < |kv.blockToSlot| :: kv.blockToSlot[b] < |kv.poolLat|)
    && Injective(kv.blockToSlot)
  }

  /** No two pooled blocks share a slot. */
  predicate Injective(b2s: seq<int>) {
    forall a, b | 0 <= a < |b2s| && 0 <= b < |b2s| && b2s[a] >= 0 && b2s[a] == b2s[b] :: a == b
  }

  function BlockOf(kv: Kv, slot: nat): nat
    requires kv.g.group >= 1
  {
    slot / kv.g.group
  }

  function PosOf(kv: Kv, slot: nat): (p: nat)
    requires kv.g.group >= 1
    ensures p < kv.g.group
  {
    slot % kv.g.group
  }

  /** A global slot that names a row of some block of the cache. */
  predicate InStore(kv: Kv, slot: int)
    requires kv.g.group >= 1
  {
    slot >= 0 && BlockOf(kv, slot) < |kv.blockToSlot|
  }

  predicate Pooled(kv: Kv, slot: int)
    requires kv.g.group >= 1
  {
    InStore(kv, slot) && kv.blockToSlot[BlockOf(kv, slot)] >= 0
  }

  lemma StoreReadable(kv: Kv, block: nat)
    requires ValidStore(kv) && block < |kv.blockToSlot|
    ensures BlockReadable(kv, block)
  {
    hide RecordBytes;
    assert (block + 1) * RecordBytes(kv.g) <= |kv.blockToSlot| * RecordBytes(kv.g);
  }

  /** The gather kernel's row for a selected slot: zeros for a padding slot. */
  function GatherRow(kv: Kv, slot: int): (row: Row)
    requires ValidStore(kv) && (slot < 0 || InStore(kv, slot))
    ensures RowFits(row, kv.g)
  {
    if slot < 0 then BlankRow(kv.g)
    else
      StoreReadable(kv, BlockOf(kv, slot));
      LoadRow(kv, BlockOf(kv, slot), PosOf(kv, slot))
  }

  // ----- scatter

  function SetCell(pool: seq<Matrix>, p: nat, t: nat, v: Vec): seq<Matrix>
    requires p < |pool| && t < |pool[p]|
  {
    pool[p := pool[p][t := v]]
  }

  /** One scatter program: skip padding, unknown blocks and blocks without a pool slot. */
  function ScatterOne(kv: Kv, row: Row, slot: int): (r: Kv)
    requires ValidStore(kv) && RowFits(row, kv.g)
  {
    if !Pooled(kv, slot) then kv
    else
      var p, t := kv.blockToSlot[BlockOf(kv, slot)], PosOf(kv, slot);
      kv.(poolLat := SetCell(kv.poolLat, p, t, row.lat), poolRope := SetCell(kv.poolRope, p, t, row.rope))
  }

  lemma ScatterKeepsShape(kv: Kv, row: Row, slot: int)
    requires ValidStore(kv) && RowFits(row, kv.g)
    ensures ValidStore(ScatterOne(kv, row, slot))
    ensures ScatterOne(kv, row, slot).blockToSlot == kv.blockToSlot && ScatterOne(kv, row, slot).cache == kv.cache
    ensures ScatterOne(kv, row, slot).g == kv.g && ScatterOne(kv, row, slot).half == kv.half
    ensures |ScatterOne(kv, row, slot).poolLat| == |kv.poolLat|
  {
    hide RecordBytes;
  }

  /** The pool cell that holds a pooled slot. */
  function PoolSlot(kv: Kv, slot: int): (p: nat)
    requires ValidStore(kv) && Pooled(kv, slot)
    ensures p < |kv.poolLat| == |kv.poolRope|
  {
    kv.blockToSlot[BlockOf(kv, slot)]
  }

  lemma GatherPooled(kv: Kv, s: int)
    requires ValidStore(kv) && Pooled(kv, s)
    ensures GatherRow(kv, s) == Row(kv.poolLat[PoolSlot(kv, s)][PosOf(kv, s)],
                                    kv.poolRope[PoolSlot(kv, s)][PosOf(kv, s)])
  {
    hide RecordBytes, RecordRow;
  }

  lemma GatherFlushed(kv: Kv, s: int)
    requires ValidStore(kv) && InStore(kv, s) && !Pooled(kv, s)
    ensures Holds(kv.cache, BlockOf(kv, s) * RecordBytes(kv.g), kv.g)
    ensures GatherRow(kv, s) == RecordRow(kv.cache, BlockOf(kv, s) * RecordBytes(kv.g), kv.g, kv.half, PosOf(kv, s))
  {
    hide RecordBytes, RecordRow;
    StoreReadable(kv, BlockOf(kv, s));
  }

  /** Distinct pooled slots live in distinct pool cells. */
  lemma DistinctCells(kv: Kv, s: int, slot: int)
    requires ValidStore(kv) && Pooled(kv, s) && Pooled(kv, slot)
    requires PoolSlot(kv, s) == PoolSlot(kv, slot) && PosOf(kv, s) == PosOf(kv, slot)
    ensures s == slot
  {
    hide RecordBytes;
    var k := kv.g.group;
    assert BlockOf(kv, s) == BlockOf(kv, slot);
    assert s == (s / k) * k + s % k;
    assert slot == (slot / k) * k + slot % k;
  }

  lemma SetCellAt(pool: seq<Matrix>, p: nat, t: nat, v: Vec, p': nat, t': nat)
    requires p < |pool| && t < |pool[p]| && p' < |pool| && t' < |pool[p']|
    ensures |SetCell(pool, p, t, v)| == |pool| && |SetCell(pool, p, t, v)[p']| == |pool[p']|
    ensures SetCell(pool, p, t, v)[p'][t'] == if (p', t') == (p, t) then v else pool[p'][t']
  {
  }

  /** A scattered row is read back exactly; every other row of the store is untouched. */
  lemma ScatterThenGather(kv: Kv, row: Row, slot: int, s: int)
    requires ValidStore(kv) && RowFits(row, kv.g) && InStore(kv, s)
    ensures ValidStore(ScatterOne(kv, row, slot))
    ensures GatherRow(ScatterOne(kv, row, slot), s)
         == if s == slot && Pooled(kv, slot) then row else GatherRow(kv, s)
  {
    hide RecordBytes, RecordRow, GatherRow, SetCell, Injective;
    ScatterKeepsShape(kv, row, slot);
    var after := ScatterOne(kv, row, slot);
    if !Pooled(kv, s) {
      GatherFlushed(kv, s);
      GatherFlushed(after, s);
    } else {
      GatherPooled(kv, s);
      GatherPooled(after, s);
      if Pooled(kv, slot) {
        var p, t, p', t' := PoolSlot(kv, slot), PosOf(kv, slot), PoolSlot(kv, s), PosOf(kv, s);
        SetCellAt(kv.poolLat, p, t, row.lat, p', t');
        SetCellAt(kv.poolRope, p, t, row.rope, p', t');
        if (p, t) == (p', t') { DistinctCells(kv, s, slot); }
      }
    }
  }

  // ----- the scatter grid

  /** Rows and their target slots; negative slots are padding. */
  datatype Batch = Batch(rows: seq<Row>, slots: seq<int>)

  predicate ValidBatch(b: Batch, g: Geometry) { |b.rows| == |b.slots| && RowsFit(b.rows, g) }

  /** The non-negative slots of a batch are distinct. */
  predicate DistinctSlots(b: Batch) {
    forall i, j | 0 <= i < |b.slots| && 0 <= j < |b.slots| && b.slots[i] >= 0 && b.slots[i] == b.slots[j] :: i == j
  }

  predicate IsProgramList(order: seq<nat>, n: nat) { forall k | 0 <= k < |order| :: order[k] < n }

  /** The programs of the grid, run in the given order. */
  ghost function ScatterRun(kv: Kv, b: Batch, order: seq<nat>): (r: Kv)
    requires ValidStore(kv) && ValidBatch(b, kv.g) && IsProgramList(order, |b.rows|)
    ensures ValidStore(r) && r.g == kv.g && r.blockToSlot == kv.blockToSlot && r.cache == kv.cache && r.half == kv.half
    ensures |r.poolLat| == |kv.poolLat|
  {
    hide ValidStore, ScatterOne;
    if order == [] then kv
    else
      var k := |order| - 1;
      var mid := ScatterRun(kv, b, order[..k]);
      ScatterKeepsShape(mid, b.rows[order[k]], b.slots[order[k]]);
      ScatterOne(mid, b.rows[order[k]], b.slots[order[k]])
  }

  lemma ScatterRunUnfold(kv: Kv, b: Batch, order: seq<nat>)
    requires ValidStore(kv) && ValidBatch(b, kv.g) && order != [] && IsProgramList(order, |b.rows|)
    ensures var k := |order| - 1;
            ScatterRun(kv, b, order) == ScatterOne(ScatterRun(kv, b, order[..k]), b.rows[order[k]], b.slots[order[k]])
  {
    hide ScatterOne, ValidStore;
  }

  /** Slot `s` of the batch names pool cell `(p, t)`. */
  predicate Names(kv: Kv, s: int, p: nat, t: nat)
    requires ValidStore(kv)
  {
    Pooled(kv, s) && PoolSlot(kv, s) == p && PosOf(kv, s) == t
  }

  lemma CellInPool(kv: Kv, p: nat, t: nat)
    requires ValidStore(kv) && p < |kv.poolLat| && t < kv.g.group
    ensures p < |kv.poolRope| && t < |kv.poolLat[p]| && t < |kv.poolRope[p]|
  {
    hide RecordBytes, Injective;
  }

  lemma ScatterOneCell(kv: Kv, row: Row, slot: int, p: nat, t: nat)
    requires ValidStore(kv) && RowFits(row, kv.g) && p < |kv.poolLat| && t < kv.g.group
    ensures var r := ScatterOne(kv, row, slot);
            && |r.poolLat| == |kv.poolLat| == |kv.poolRope| == |r.poolRope|
            && |r.poolLat[p]| == |r.poolRope[p]| == |kv.poolLat[p]| == |kv.poolRope[p]| == kv.g.group
            && r.poolLat[p][t] == (if Names(kv, slot, p, t) then row.lat else kv.poolLat[p][t])
            && r.poolRope[p][t] == (if Names(kv, slot, p, t) then row.rope else kv.poolRope[p][t])
  {
    hide RecordBytes, Injective, SetCell;
    if Pooled(kv, slot) {
      SetCellAt(kv.poolLat, PoolSlot(kv, slot), PosOf(kv, slot), row.lat, p, t);
      SetCellAt(kv.poolRope, PoolSlot(kv, slot), PosOf(kv, slot), row.rope, p, t);
    }
  }

  /** What cell `(p, t)` holds after the programs of `order`. */
  ghost predicate CellAfter(kv: Kv, b: Batch, order: seq<nat>, r: Kv, p: nat, t: nat)
    requires ValidStore(kv) && ValidStore(r) && ValidBatch(b, kv.g) && IsProgramList(order, |b.rows|)
    requires p < |kv.poolLat| == |r.poolLat| && t < kv.g.group && kv.g == r.g
  {
    CellInPool(kv, p, t);
    CellInPool(r, p, t);
    && (forall k | 0 <= k < |order| && Names(kv, b.slots[order[k]], p, t) ::
          r.poolLat[p][t] == b.rows[order[k]].lat && r.poolRope[p][t] == b.rows[order[k]].rope)
    && ((forall k | 0 <= k < |order| :: !Names(kv, b.slots[order[k]], p, t)) ==>
          r.poolLat[p][t] == kv.poolLat[p][t] && r.poolRope[p][t] == kv.poolRope[p][t])
  }

  lemma NamesKept(kv: Kv, r: Kv, s: int, p: nat, t: nat)
    requires ValidStore(kv) && ValidStore(r) && r.g == kv.g && r.blockToSlot == kv.blockToSlot
    ensures Names(kv, s, p, t) == Names(r, s, p, t)
  {
    hide ValidStore;
  }

  /** Two programs that name the same cell are the same program. */
  lemma NamesOnce(kv: Kv, b: Batch, i: nat, j: nat, p: nat, t: nat)
    requires ValidStore(kv) && ValidBatch(b, kv.g) && DistinctSlots(b) && i < |b.rows| && j < |b.rows|
    requires Names(kv, b.slots[i], p, t) && Names(kv, b.slots[j], p, t)
    ensures i == j
  {
    hide ValidStore;
    DistinctCells(kv, b.slots[i], b.slots[j]);
  }

  lemma {:induction false} ScatterRunCell(kv: Kv, b: Batch, order: seq<nat>, p: nat, t: nat)
    requires ValidStore(kv) && ValidBatch(b, kv.g) && DistinctSlots(b) && IsProgramList(order, |b.rows|)
    requires p < |kv.poolLat| && t < kv.g.group
    ensures CellAfter(kv, b, order, ScatterRun(kv, b, order), p, t)
  {
    hide ValidStore, ScatterOne, Names, ScatterRun, DistinctSlots;
    CellInPool(kv, p, t);
    if order == [] {
      ScatterRunEmpty(kv, b);
    } else {
      var k := |order| - 1;
      ScatterRunCell(kv, b, order[..k], p, t);
      ScatterRunUnfold(kv, b, order);
      var mid, i := ScatterRun(kv, b, order[..k]), order[k];
      CellInPool(mid, p, t);
      NamesKept(kv, mid, b.slots[i], p, t);
      ScatterOneCell(mid, b.rows[i], b.slots[i], p, t);
      if Names(kv, b.slots[i], p, t) {
        forall j | 0 <= j < |order| && Names(kv, b.slots[order[j]], p, t) ensures order[j] == i {
          NamesOnce(kv, b, order[j], i, p, t);
        }
      } else {
        forall j | 0 <= j < |order| && Names(kv, b.slots[order[j]], p, t)
          ensures j < k && order[..k][j] == order[j]
        {
        }
      }
    }
  }

  lemma ScatterRunEmpty(kv: Kv, b: Batch)
    requires ValidStore(kv) && ValidBatch(b, kv.g)
    ensures ScatterRun(kv, b, []) == kv
  {
  }

  /** Both orders run the same programs. */
  predicate SamePrograms(a: seq<nat>, b: seq<nat>) {
    (forall i | i in a :: i in b) && (forall i | i in b :: i in a)
  }

  lemma CellsAgree(kv: Kv, b: Batch, o1: seq<nat>, o2: seq<nat>, r1: Kv, r2: Kv, p: nat, t: nat)
    requires ValidStore(kv) && ValidStore(r1) && ValidStore(r2) && ValidBatch(b, kv.g)
    requires IsProgramList(o1, |b.rows|) && IsProgramList(o2, |b.rows|) && SamePrograms(o1, o2)
    requires p < |kv.poolLat| == |r1.poolLat| == |r2.poolLat| && t < kv.g.group && kv.g == r1.g == r2.g
    requires CellAfter(kv, b, o1, r1, p, t) && CellAfter(kv, b, o2, r2, p, t)
    ensures p < |r1.poolRope| && p < |r2.poolRope|
    ensures |r1.poolLat[p]| == |r2.poolLat[p]| == |r1.poolRope[p]| == |r2.poolRope[p]| == kv.g.group
    ensures r1.poolLat[p][t] == r2.poolLat[p][t] && r1.poolRope[p][t] == r2.poolRope[p][t]
  {
    hide RecordBytes, Names, Injective;
    if k :| 0 <= k < |o1| && Names(kv, b.slots[o1[k]], p, t) {
      assert o1[k] in o2;
      var j :| 0 <= j < |o2| && o2[j] == o1[k];
    } else {
      forall j | 0 <= j < |o2| ensures !Names(kv, b.slots[o2[j]], p, t) {
        assert o2[j] in o1;
        var i :| 0 <= i < |o1| && o1[i] == o2[j];
      }
    }
  }

  /**
   Scatter programs commute: with distinct slots and an injective pool map, any two execution
   orders of the same programs leave the same store.
   */
  lemma ScatterCommutes(kv: Kv, b: Batch, o1: seq<nat>, o2: seq<nat>)
    requires ValidStore(kv) && ValidBatch(b, kv.g) && DistinctSlots(b)
    requires IsProgramList(o1, |b.rows|) && IsProgramList(o2, |b.rows|) && SamePrograms(o1, o2)
    ensures ScatterRun(kv, b, o1) == ScatterRun(kv, b, o2)
  {
    hide ValidStore, ScatterRun, CellAfter;
    var r1, r2 := ScatterRun(kv, b, o1), ScatterRun(kv, b, o2);
    PoolShapes(r1);
    PoolShapes(r2);
    forall p | 0 <= p < |kv.poolLat| ensures r1.poolLat[p] == r2.poolLat[p] && r1.poolRope[p] == r2.poolRope[p] {
      forall t | 0 <= t < kv.g.group
        ensures r1.poolLat[p][t] == r2.poolLat[p][t] && r1.poolRope[p][t] == r2.poolRope[p][t]
      {
        ScatterRunCell(kv, b, o1, p, t);
        ScatterRunCell(kv, b, o2, p, t);
        CellsAgree(kv, b, o1, o2, r1, r2, p, t);
      }
    }
    assert r1.poolLat == r2.poolLat && r1.poolRope == r2.poolRope;
  }

  lemma PoolShapes(kv: Kv)
    requires ValidStore(kv)
    ensures |kv.poolLat| == |kv.poolRope|
    ensures forall p | 0 <= p < |kv.poolLat| :: |kv.poolLat[p]| == kv.g.group
    ensures forall p | 0 <= p < |kv.poolRope| :: |kv.poolRope[p]| == kv.g.group
  {
    hide RecordBytes, Injective;
  }
}
