/**
 What a decode program can read: the int4 tile cache, the fp16 pool and the block-to-slot table,
 and the rows and scores of a sequence's tokens as they are stored there.
 */
module DecodeMemory {
  import opened Vectors
  import opened Floats
  import opened TileRecord

  datatype Kv = Kv(g: Geometry, half: HalfReader, cache: seq<bv8>,
                   poolLat: seq<Matrix>, poolRope: seq<Matrix>, blockToSlot: seq<int>)

  /** The masked table load: `-1` outside the table. */
  function SlotOf(kv: Kv, block: int): int {
    if 0 <= block < |kv.blockToSlot| then kv.blockToSlot[block] else -1
  }

  predicate PoolHolds(kv: Kv, slot: int) {
    && 0 <= slot < |kv.poolLat| && slot < |kv.poolRope|
    && IsMatrix(kv.poolLat[slot], kv.g.group, kv.g.r)
    && IsMatrix(kv.poolRope[slot], kv.g.group, kv.g.rope)
  }

  /** The source this block is read from exists: its pool slot, or its record in the cache. */
  predicate BlockReadable(kv: Kv, block: int) {
    && block >= 0
    && if SlotOf(kv, block) >= 0 then PoolHolds(kv, SlotOf(kv, block))
       else Holds(kv.cache, block * RecordBytes(kv.g), kv.g)
  }

  /** One token row, from the pool when the block has a slot and from its int4 record otherwise. */
  function LoadRow(kv: Kv, block: int, t: nat): (row: Row)
    requires ValidGeometry(kv.g) && BlockReadable(kv, block) && t < kv.g.group
    ensures RowFits(row, kv.g)
  {
    var slot := SlotOf(kv, block);
    if slot >= 0 then Row(kv.poolLat[slot][t], kv.poolRope[slot][t])
    else RecordRow(kv.cache, block * RecordBytes(kv.g), kv.g, kv.half, t)
  }

  /** `(sum(deq * q_lat) + sum(rope * q_rope)) * sm_scale`. */
  function Score(q: Row, row: Row, sm: real): real
    requires |q.lat| == |row.lat| && |q.rope| == |row.rope|
  {
    (Dot(row.lat, q.lat) + Dot(row.rope, q.rope)) * sm
  }

  /** A score is the scale times one dot product, of the whole query with the whole row. */
  lemma ScoreIsDot(q: Row, row: Row, sm: real)
    requires |q.lat| == |row.lat| && |q.rope| == |row.rope|
    ensures Score(q, row, sm) == sm * Dot(q.lat + q.rope, row.lat + row.rope)
  {
    hide Dot;
    DotConcat(q.lat, q.rope, row.lat, row.rope);
    DotCommutes(q.lat, row.lat);
    DotCommutes(q.rope, row.rope);
  }

  /** A sequence: its block table row and its length. */
  datatype Sequence = Sequence(table: seq<int>, len: nat)

  function BlockCount(g: Geometry, s: Sequence): nat
    requires g.group >= 1
  {
    (s.len + g.group - 1) / g.group
  }

  /** Index of the first token of block `j`. */
  function FirstToken(g: Geometry, j: nat): nat { j * g.group }

  lemma FirstTokenStep(g: Geometry, j: nat)
    ensures FirstToken(g, j + 1) == FirstToken(g, j) + g.group
  {
  }

  predicate Readable(kv: Kv, s: Sequence) {
    && ValidGeometry(kv.g)
    && BlockCount(kv.g, s) <= |s.table|
    && forall j | 0 <= j < BlockCount(kv.g, s) :: BlockReadable(kv, s.table[j])
  }

  lemma MulMonotone(a: nat, b: nat, k: nat)
    requires a <= b
    ensures a * k <= b * k
  {
  }

  lemma CeilingCounts(n: nat, k: nat, d: nat, r: nat, j: nat)
    requires n + k - 1 == d * k + r && r < k
    ensures j < d <==> j * k < n
  {
    if j < d {
      MulMonotone(j + 1, d, k);
      assert (j + 1) * k == j * k + k;
    } else {
      MulMonotone(d, j, k);
    }
  }

  /** Block `j` exists exactly when its first token does. */
  lemma BlockCountBounds(g: Geometry, s: Sequence, j: nat)
    requires g.group >= 1
    ensures j < BlockCount(g, s) <==> FirstToken(g, j) < s.len
  {
    var x := s.len + g.group - 1;
    CeilingCounts(s.len, g.group, x / g.group, x % g.group, j);
  }

  lemma DivModUnique(j: nat, t: nat, k: nat)
    requires t < k
    ensures (j * k + t) / k == j && (j * k + t) % k == t
  {
    var x := j * k + t;
    assert x == (x / k) * k + x % k;
    IndexInjective(x / k, x % k, j, t, k);
  }

  lemma TokenBlock(g: Geometry, s: Sequence, i: nat)
    requires g.group >= 1 && i < s.len
    ensures i / g.group < BlockCount(g, s) && i % g.group < g.group
  {
    assert (i / g.group) * g.group <= i;
    BlockCountBounds(g, s, i / g.group);
  }

  /** The stored row of token `i`. */
  function TokenRow(kv: Kv, s: Sequence, i: nat): (row: Row)
    requires Readable(kv, s) && i < s.len
    ensures RowFits(row, kv.g)
  {
    TokenBlock(kv.g, s, i);
    LoadRow(kv, s.table[i / kv.g.group], i % kv.g.group)
  }

  /** The stored rows of tokens `lo .. hi`. */
  function TokenRows(kv: Kv, s: Sequence, lo: nat, hi: nat): (rows: seq<Row>)
    requires Readable(kv, s) && lo <= hi <= s.len
    ensures |rows| == hi - lo && RowsFit(rows, kv.g)
    ensures forall k | 0 <= k < hi - lo :: rows[k] == TokenRow(kv, s, lo + k)
  {
    hide TokenRow;
    var rows := seq(hi - lo, k requires 0 <= k < hi - lo => TokenRow(kv, s, lo + k));
    assert forall k | 0 <= k < hi - lo :: rows[k] == TokenRow(kv, s, lo + k) && RowFits(rows[k], kv.g);
    rows
  }

  lemma TokenRowsConcat(kv: Kv, s: Sequence, lo: nat, mid: nat, hi: nat)
    requires Readable(kv, s) && lo <= mid <= hi <= s.len
    ensures TokenRows(kv, s, lo, mid) + TokenRows(kv, s, mid, hi) == TokenRows(kv, s, lo, hi)
  {
    hide TokenRow, TokenRows, Readable;
    var a, b, c := TokenRows(kv, s, lo, mid), TokenRows(kv, s, mid, hi), TokenRows(kv, s, lo, hi);
    forall k | 0 <= k < hi - lo ensures (a + b)[k] == c[k] {
      if k >= mid - lo { assert mid + (k - (mid - lo)) == lo + k; }
    }
    assert a + b == c;
  }

  function LatsOf(rows: seq<Row>, g: Geometry): (m: Matrix)
    requires RowsFit(rows, g)
    ensures IsMatrix(m, |rows|, g.r) && forall k | 0 <= k < |rows| :: m[k] == rows[k].lat
  {
    seq(|rows|, k requires 0 <= k < |rows| => rows[k].lat)
  }

  function ScoresOf(rows: seq<Row>, g: Geometry, q: Row, sm: real): (v: Vec)
    requires RowsFit(rows, g) && RowFits(q, g)
    ensures |v| == |rows| && forall k | 0 <= k < |rows| :: v[k] == Score(q, rows[k], sm)
  {
    seq(|rows|, k requires 0 <= k < |rows| => Score(q, rows[k], sm))
  }

  function KeysOf(rows: seq<Row>, g: Geometry): (m: Matrix)
    requires RowsFit(rows, g)
    ensures IsMatrix(m, |rows|, g.r + g.rope) && forall k | 0 <= k < |rows| :: m[k] == rows[k].lat + rows[k].rope
  {
    seq(|rows|, k requires 0 <= k < |rows| => rows[k].lat + rows[k].rope)
  }

  lemma ScoresAreDots(rows: seq<Row>, g: Geometry, q: Row, sm: real)
    requires RowsFit(rows, g) && RowFits(q, g)
    ensures forall k | 0 <= k < |rows| :: ScoresOf(rows, g, q, sm)[k] == sm * Dot(q.lat + q.rope, KeysOf(rows, g)[k])
  {
    hide Score, Dot;
    forall k | 0 <= k < |rows|
      ensures ScoresOf(rows, g, q, sm)[k] == sm * Dot(q.lat + q.rope, KeysOf(rows, g)[k])
    {
      ScoreIsDot(q, rows[k], sm);
    }
  }

  lemma RowsConcat(a: seq<Row>, b: seq<Row>, g: Geometry, q: Row, sm: real)
    requires RowsFit(a, g) && RowsFit(b, g) && RowFits(q, g)
    ensures RowsFit(a + b, g)
    ensures LatsOf(a + b, g) == LatsOf(a, g) + LatsOf(b, g)
    ensures ScoresOf(a + b, g, q, sm) == ScoresOf(a, g, q, sm) + ScoresOf(b, g, q, sm)
  {
    hide Score;
  }

  function Clip(x: nat, n: nat): nat { if x < n then x else n }

  function BlankRow(g: Geometry): (row: Row)
    ensures RowFits(row, g)
  {
    Row(Zeros(g.r), Zeros(g.rope))
  }

  function BlankRows(k: nat, g: Geometry): (rows: seq<Row>)
    ensures |rows| == k && RowsFit(rows, g) && forall i | 0 <= i < k :: rows[i] == BlankRow(g)
  {
    seq(k, _ => BlankRow(g))
  }

  /** A masked row load: zeros where the token mask fails. */
  function MaskedRow(kv: Kv, block: int, bound: int, t: nat): (row: Row)
    requires ValidGeometry(kv.g) && BlockReadable(kv, block) && t < kv.g.group
    ensures RowFits(row, kv.g)
  {
    if t < bound then LoadRow(kv, block, t) else BlankRow(kv.g)
  }

  function ChunkRows(kv: Kv, block: int, bound: int, c0: nat, width: nat): (rows: seq<Row>)
    requires ValidGeometry(kv.g) && BlockReadable(kv, block) && c0 + width <= kv.g.group
    ensures |rows| == width && RowsFit(rows, kv.g)
    ensures forall k | 0 <= k < width :: rows[k] == MaskedRow(kv, block, bound, c0 + k)
  {
    hide BlockReadable, MaskedRow;
    var rows := seq(width, k requires 0 <= k < width => MaskedRow(kv, block, bound, c0 + k));
    assert forall k | 0 <= k < width :: rows[k] == MaskedRow(kv, block, bound, c0 + k) && RowFits(rows[k], kv.g);
    rows
  }

  /** `where(tok_mask, score, -inf)` for the rows of a chunk that starts at `c0`. */
  function ChunkScores(rows: seq<Row>, g: Geometry, bound: int, c0: nat, q: Row, sm: real): (v: seq<Float>)
    requires RowFits(q, g) && RowsFit(rows, g)
    ensures |v| == |rows|
    ensures forall k | 0 <= k < |rows| :: v[k] == if c0 + k < bound then Fin(Score(q, rows[k], sm)) else NegInf
  {
    hide Score;
    seq(|rows|, k requires 0 <= k < |rows| =>
      if c0 + k < bound then Fin(Score(q, rows[k], sm)) else NegInf)
  }

  lemma ChunkTokenAt(kv: Kv, s: Sequence, j: nat, t: nat)
    requires Readable(kv, s) && j < BlockCount(kv.g, s) && t < kv.g.group && FirstToken(kv.g, j) + t < s.len
    ensures TokenRow(kv, s, FirstToken(kv.g, j) + t) == LoadRow(kv, s.table[j], t)
  {
    hide LoadRow, BlockCount, BlockReadable;
    DivModUnique(j, t, kv.g.group);
  }

  /**
   A chunk loads exactly the tokens in its range that exist, each from its own block and position,
   followed by blank rows for the masked lanes.
   */
  lemma ChunkIsTokens(kv: Kv, s: Sequence, j: nat, base: nat, c0: nat, width: nat)
    requires Readable(kv, s) && j < BlockCount(kv.g, s) && c0 + width <= kv.g.group
    requires base == FirstToken(kv.g, j)
    ensures Clip(base + c0, s.len) <= Clip(base + c0 + width, s.len) <= Clip(base + c0, s.len) + width
    ensures ChunkRows(kv, s.table[j], s.len - base, c0, width)
         == TokenRows(kv, s, Clip(base + c0, s.len), Clip(base + c0 + width, s.len))
          + BlankRows(width - (Clip(base + c0 + width, s.len) - Clip(base + c0, s.len)), kv.g)
  {
    hide LoadRow, BlockCount, BlockReadable, TokenRow, ChunkRows, TokenRows, BlankRow, BlankRows;
    var lo, hi := Clip(base + c0, s.len), Clip(base + c0 + width, s.len);
    var rows, toks := ChunkRows(kv, s.table[j], s.len - base, c0, width), TokenRows(kv, s, lo, hi);
    forall k | 0 <= k < hi - lo ensures rows[k] == toks[k] {
      ChunkTokenAt(kv, s, j, c0 + k);
      assert lo + k == base + (c0 + k);
    }
    forall k | hi - lo <= k < width ensures rows[k] == BlankRow(kv.g) {
      assert c0 + k >= s.len - base;
    }
    var blanks := BlankRows(width - (hi - lo), kv.g);
    forall k | 0 <= k < width ensures rows[k] == (toks + blanks)[k] {}
    assert rows == toks + blanks;
  }

  /** The masked scores and the loaded latents of a chunk, in the form the online step expects. */
  lemma ChunkMasked(toks: seq<Row>, pad: nat, g: Geometry, bound: int, c0: nat, q: Row, sm: real)
    requires RowsFit(toks, g) && RowFits(q, g)
    requires pad > 0 ==> bound <= c0 + |toks|
    requires toks != [] ==> c0 + |toks| <= bound
    ensures RowsFit(toks + BlankRows(pad, g), g)
    ensures LatsOf(toks + BlankRows(pad, g), g) == LatsOf(toks, g) + ZeroRows(pad, g.r)
    ensures ChunkScores(toks + BlankRows(pad, g), g, bound, c0, q, sm)
         == Lift(ScoresOf(toks, g, q, sm)) + AllNegInf(pad)
  {
    hide Score;
    var rows := toks + BlankRows(pad, g);
    var v, w := ChunkScores(rows, g, bound, c0, q, sm), Lift(ScoresOf(toks, g, q, sm)) + AllNegInf(pad);
    forall k | 0 <= k < |rows| ensures v[k] == w[k] {}
    assert v == w;
    assert LatsOf(rows, g) == LatsOf(toks, g) + ZeroRows(pad, g.r);
  }
}
