/**
 The single-pass decode kernel: one program walks a sequence's blocks, chunk by chunk, keeping
 the online-softmax state, and stores the normalised output and its log-sum-exp.
 */
module TileDecode {
  import opened Vectors
  import opened Floats
  import opened Softmax
  import opened TileRecord
  import opened TileReader
  import opened DecodeMemory

  /** What the kernel is launched with: `width` lanes per chunk (BLOCK_N), dividing the block size. */
  datatype Launch = Launch(e: ExpLog, kv: Kv, s: Sequence, sm: real, width: nat)

  ghost predicate ValidLaunch(l: Launch) {
    && Laws(l.e) && Readable(l.kv, l.s)
    && l.width >= 1 && l.kv.g.group % l.width == 0
  }

  /** Scores and latent rows of tokens `lo .. hi` for one query. */
  ghost function Scores(l: Launch, q: Row, lo: nat, hi: nat): (v: Vec)
    requires Readable(l.kv, l.s) && RowFits(q, l.kv.g) && lo <= hi <= l.s.len
    ensures |v| == hi - lo
  {
    ScoresOf(TokenRows(l.kv, l.s, lo, hi), l.kv.g, q, l.sm)
  }

  ghost function Lats(l: Launch, lo: nat, hi: nat): (m: Matrix)
    requires Readable(l.kv, l.s) && lo <= hi <= l.s.len
    ensures IsMatrix(m, hi - lo, l.kv.g.r)
  {
    LatsOf(TokenRows(l.kv, l.s, lo, hi), l.kv.g)
  }

  lemma TokensConcat(l: Launch, q: Row, lo: nat, mid: nat, hi: nat)
    requires Readable(l.kv, l.s) && RowFits(q, l.kv.g) && lo <= mid <= hi <= l.s.len
    ensures Scores(l, q, lo, mid) + Scores(l, q, mid, hi) == Scores(l, q, lo, hi)
    ensures Lats(l, lo, mid) + Lats(l, mid, hi) == Lats(l, lo, hi)
  {
    hide Readable, TokenRows, ScoresOf, LatsOf;
    TokenRowsConcat(l.kv, l.s, lo, mid, hi);
    RowsConcat(TokenRows(l.kv, l.s, lo, mid), TokenRows(l.kv, l.s, mid, hi), l.kv.g, q, l.sm);
  }

  /** The loop state stands for exactly tokens `lo .. hi`. */
  ghost predicate Stands(l: Launch, q: Row, eMax: Float, eSum: Float, acc: seq<Float>, lo: nat, hi: nat)
    requires Readable(l.kv, l.s) && RowFits(q, l.kv.g)
  {
    lo <= hi <= l.s.len && Represents(l.e, eMax, eSum, acc, Scores(l, q, lo, hi), Lats(l, lo, hi), l.kv.g.r)
  }

  lemma NextMultiple(c0: nat, n: nat, width: nat)
    requires width >= 1 && c0 < n && c0 % width == 0 && n % width == 0
    ensures c0 + width <= n && (c0 + width) % width == 0
  {
    var a, b := c0 / width, n / width;
    assert c0 == a * width && n == b * width;
    if a >= b { MulMonotone(b, a, width); }
    MulMonotone(a + 1, b, width);
    assert (a + 1) * width == c0 + width;
    DivModUnique(a + 1, 0, width);
  }

  /** The token range grows by the chunk's tokens; it is never empty afterwards. */
  lemma ChunkGrows(l: Launch, q: Row, j: nat, base: nat, c0: nat, lo: nat)
    requires ValidLaunch(l) && RowFits(q, l.kv.g) && j < BlockCount(l.kv.g, l.s)
    requires base == FirstToken(l.kv.g, j) && c0 + l.width <= l.kv.g.group
    requires lo <= Clip(base + c0, l.s.len) && lo <= base
    ensures var mid, hi := Clip(base + c0, l.s.len), Clip(base + c0 + l.width, l.s.len);
            var pad := l.width - (hi - mid);
            var rows := ChunkRows(l.kv, l.s.table[j], l.s.len - base, c0, l.width);
            && lo < hi && mid <= hi && 0 <= pad
            && LatsOf(rows, l.kv.g) == Lats(l, mid, hi) + ZeroRows(pad, l.kv.g.r)
            && ChunkScores(rows, l.kv.g, l.s.len - base, c0, q, l.sm) == Lift(Scores(l, q, mid, hi)) + AllNegInf(pad)
  {
    hide BlockReadable, BlockCount, TokenRows, ChunkRows, ChunkScores, LatsOf, ScoresOf, Laws, FirstToken;
    var mid, hi := Clip(base + c0, l.s.len), Clip(base + c0 + l.width, l.s.len);
    var pad := l.width - (hi - mid);
    BlockCountBounds(l.kv.g, l.s, j);
    ChunkIsTokens(l.kv, l.s, j, base, c0, l.width);
    ChunkMasked(TokenRows(l.kv, l.s, mid, hi), pad, l.kv.g, l.s.len - base, c0, q, l.sm);
  }

  /** One chunk of the scan: the new state stands for the tokens up to the chunk's end. */
  lemma ScanStep(l: Launch, q: Row, eMax: Float, eSum: Float, acc: seq<Float>,
                 j: nat, base: nat, c0: nat, lo: nat)
    requires ValidLaunch(l) && RowFits(q, l.kv.g) && j < BlockCount(l.kv.g, l.s)
    requires base == FirstToken(l.kv.g, j) && c0 + l.width <= l.kv.g.group && lo <= base
    requires Stands(l, q, eMax, eSum, acc, lo, Clip(base + c0, l.s.len))
    ensures var rows := ChunkRows(l.kv, l.s.table[j], l.s.len - base, c0, l.width);
            var scores := ChunkScores(rows, l.kv.g, l.s.len - base, c0, q, l.sm);
            var m := NewMax(eMax, scores);
            var alpha, p := FExp(l.e, FSub(eMax, m)), ChunkWeights(l.e, scores, m);
            && |acc| == l.kv.g.r
            && Stands(l, q, m, NewSum(eSum, alpha, p), NewAcc(acc, alpha, p, LatsOf(rows, l.kv.g)),
                      lo, Clip(base + c0 + l.width, l.s.len))
  {
    hide Scores, Lats, ChunkRows, ChunkScores, LatsOf, Represents, BlockCount, BlockReadable,
         NewMax, NewSum, NewAcc, ChunkWeights, FExp, FSub, Laws, Lift, AllNegInf, ZeroRows;
    var mid, hi := Clip(base + c0, l.s.len), Clip(base + c0 + l.width, l.s.len);
    var pad := l.width - (hi - mid);
    StandsLength(l, q, eMax, eSum, acc, lo, mid);
    ChunkGrows(l, q, j, base, c0, lo);
    TokensConcat(l, q, lo, mid, hi);
    ChunkStep(l.e, eMax, eSum, acc, Scores(l, q, lo, mid), Lats(l, lo, mid),
              Scores(l, q, mid, hi), Lats(l, mid, hi), pad, l.kv.g.r);
  }

  lemma StandsLength(l: Launch, q: Row, eMax: Float, eSum: Float, acc: seq<Float>, lo: nat, hi: nat)
    requires Readable(l.kv, l.s) && RowFits(q, l.kv.g) && Stands(l, q, eMax, eSum, acc, lo, hi)
    ensures |acc| == l.kv.g.r
  {
  }

  lemma StandsEmpty(l: Launch, q: Row, lo: nat)
    requires Readable(l.kv, l.s) && RowFits(q, l.kv.g) && lo <= l.s.len
    ensures Stands(l, q, NegInf, Fin(0.0), Lift(Zeros(l.kv.g.r)), lo, lo)
  {
  }

  /** The per-channel numbers of a block: loaded from its record, or zeros when it is pooled. */
  ghost predicate BlockScales(kv: Kv, block: int, sc: Vec, zp: Vec) {
    && |sc| == |zp| == kv.g.r
    && (BlockReadable(kv, block) && SlotOf(kv, block) < 0 ==>
        ScalesOf(kv.cache, block * RecordBytes(kv.g), kv.g, kv.half, sc, zp))
  }

  method LoadBlockScales(kv: Kv, block: int) returns (sc: Vec, zp: Vec)
    requires ValidGeometry(kv.g) && BlockReadable(kv, block)
    ensures BlockScales(kv, block, sc, zp)
  {
    hide RecordBytes, PoolHolds;
    if SlotOf(kv, block) < 0 {
      sc, zp := LoadScales(kv.cache, block * RecordBytes(kv.g), kv.g, kv.half);
    } else {
      sc, zp := Zeros(kv.g.r), Zeros(kv.g.r);
    }
  }

  /** The loads of one chunk, lane by lane: pool rows, or nibbles of the int4 record, under the mask. */
  method LoadChunk(kv: Kv, block: int, sc: Vec, zp: Vec, bound: int, c0: nat, width: nat) returns (rows: seq<Row>)
    requires ValidGeometry(kv.g) && BlockReadable(kv, block) && BlockScales(kv, block, sc, zp)
    requires c0 + width <= kv.g.group
    ensures rows == ChunkRows(kv, block, bound, c0, width)
  {
    hide RecordBytes, RecordRow, ScalesOf, Zeros;
    rows := [];
    var k := 0;
    while k < width
      invariant k <= width && |rows| == k
      invariant forall i | 0 <= i < k :: rows[i] == MaskedRow(kv, block, bound, c0 + i)
    {
      var t := c0 + k;
      var slot := SlotOf(kv, block);
      var row;
      if slot >= 0 {
        row := if t < bound then Row(kv.poolLat[slot][t], kv.poolRope[slot][t]) else BlankRow(kv.g);
      } else if t < bound {
        row := ReadRow(kv.cache, block * RecordBytes(kv.g), kv.g, kv.half, t, sc, zp);
      } else {
        row := ReadMaskedRow(kv.g, sc, zp);
      }
      rows := rows + [row];
      k := k + 1;
    }
  }

  /** The chunk loop over block `j`: the state then stands for the tokens up to the block's end. */
  method ScanBlock(l: Launch, q: Row, j: nat, base: nat,
                   eMax0: Float, eSum0: Float, acc0: seq<Float>, ghost lo: nat)
    returns (eMax: Float, eSum: Float, acc: seq<Float>)
    requires ValidLaunch(l) && RowFits(q, l.kv.g) && j < BlockCount(l.kv.g, l.s)
    requires base == FirstToken(l.kv.g, j) && lo <= base
    requires Stands(l, q, eMax0, eSum0, acc0, lo, Clip(base, l.s.len))
    ensures Stands(l, q, eMax, eSum, acc, lo, Clip(base + l.kv.g.group, l.s.len))
  {
    hide BlockReadable, BlockCount, Stands, ChunkRows, ChunkScores, LatsOf,
         NewMax, NewSum, NewAcc, ChunkWeights, FExp, FSub, Laws, FirstToken, BlockScales;
    var block := l.s.table[j];
    var sc, zp := LoadBlockScales(l.kv, block);
    eMax, eSum, acc := eMax0, eSum0, acc0;
    var c0 := 0;
    while c0 < l.kv.g.group
      invariant c0 <= l.kv.g.group && c0 % l.width == 0
      invariant Stands(l, q, eMax, eSum, acc, lo, Clip(base + c0, l.s.len))
    {
      NextMultiple(c0, l.kv.g.group, l.width);
      ScanStep(l, q, eMax, eSum, acc, j, base, c0, lo);
      var rows := LoadChunk(l.kv, block, sc, zp, l.s.len - base, c0, l.width);
      var scores := ChunkScores(rows, l.kv.g, l.s.len - base, c0, q, l.sm);
      var newMax := NewMax(eMax, scores);
      var p := ChunkWeights(l.e, scores, newMax);
      var alpha := FExp(l.e, FSub(eMax, newMax));
      eSum := NewSum(eSum, alpha, p);
      acc := NewAcc(acc, alpha, p, LatsOf(rows, l.kv.g));
      eMax := newMax;
      c0 := c0 + l.width;
    }
  }

  /**
   The kernels' block loop over blocks `blk0 .. blk1`: the final state stands for exactly the
   tokens of those blocks, each read once from the source that holds its block.
   */
  method ScanBlocks(l: Launch, q: Row, blk0: nat, blk1: nat)
    returns (eMax: Float, eSum: Float, acc: seq<Float>)
    requires ValidLaunch(l) && RowFits(q, l.kv.g) && blk1 <= BlockCount(l.kv.g, l.s)
    ensures var last := if blk0 <= blk1 then blk1 else blk0;
            Stands(l, q, eMax, eSum, acc, Clip(FirstToken(l.kv.g, blk0), l.s.len),
                   Clip(FirstToken(l.kv.g, last), l.s.len))
  {
    hide Readable, BlockCount, Stands, Laws, FirstToken;
    ghost var lo := Clip(FirstToken(l.kv.g, blk0), l.s.len);
    eMax, eSum, acc := NegInf, Fin(0.0), Lift(Zeros(l.kv.g.r));
    StandsEmpty(l, q, lo);
    var j, base := blk0, FirstToken(l.kv.g, blk0);
    while j < blk1
      invariant blk0 <= j && (j <= blk1 || j == blk0)
      invariant base == FirstToken(l.kv.g, j) && lo <= base
      invariant Stands(l, q, eMax, eSum, acc, lo, Clip(base, l.s.len))
    {
      eMax, eSum, acc := ScanBlock(l, q, j, base, eMax, eSum, acc, lo);
      FirstTokenStep(l.kv.g, j);
      j, base := j + 1, base + l.kv.g.group;
    }
  }

  function DivideAll(acc: seq<Float>, d: Float): (o: seq<Float>)
    ensures |o| == |acc|
  {
    seq(|acc|, c requires 0 <= c < |acc| => FDiv(acc[c], d))
  }

  /** Dividing the state of a non-empty range: softmax attention over it, and its log-sum-exp. */
  lemma FinishRange(l: Launch, q: Row, eMax: Float, eSum: Float, acc: seq<Float>, lo: nat, hi: nat)
    requires ValidLaunch(l) && RowFits(q, l.kv.g) && Stands(l, q, eMax, eSum, acc, lo, hi) && lo < hi
    ensures Mass(l.e, Scores(l, q, lo, hi)) > 0.0
    ensures eSum.Fin? && eSum.v > 0.0
    ensures DivideAll(acc, eSum) == Lift(Attend(l.e, Scores(l, q, lo, hi), Lats(l, lo, hi), l.kv.g.r))
    ensures FAdd(eMax, FLog(l.e, eSum)) == Fin(LogSumExp(l.e, Scores(l, q, lo, hi)))
  {
    hide Scores, Lats, Represents, Readable, Attend, Mass, LogSumExp, FDiv, FAdd, FLog, Laws;
    Finish(l.e, eMax, eSum, acc, Scores(l, q, lo, hi), Lats(l, lo, hi), l.kv.g.r);
  }

  /**
   What a decode stores for a non-empty sequence: finite numbers that are the attention of the whole
   query over the tokens in order, each with its latent and rope part as key and its latent part as value.
   */
  ghost predicate IsDecode(l: Launch, q: Row, o: seq<Float>, lse: Float)
    requires Readable(l.kv, l.s)
  {
    && (forall c | 0 <= c < |o| :: o[c].Fin?) && lse.Fin? && |o| == l.kv.g.r
    && Attends(l.e, seq(l.s.len, i requires 0 <= i < l.s.len =>
                      TokenRow(l.kv, l.s, i).lat + TokenRow(l.kv, l.s, i).rope),
               seq(l.s.len, i requires 0 <= i < l.s.len => TokenRow(l.kv, l.s, i).lat),
               q.lat + q.rope, l.sm, seq(|o|, c requires 0 <= c < |o| => o[c].v), lse.v)
  }

  lemma AttendIsDecode(l: Launch, q: Row, o: seq<Float>, lse: Float)
    requires ValidLaunch(l) && RowFits(q, l.kv.g) && l.s.len >= 1 && Mass(l.e, Scores(l, q, 0, l.s.len)) > 0.0
    requires o == Lift(Attend(l.e, Scores(l, q, 0, l.s.len), Lats(l, 0, l.s.len), l.kv.g.r))
    requires lse == Fin(LogSumExp(l.e, Scores(l, q, 0, l.s.len)))
    ensures IsDecode(l, q, o, lse)
  {
    hide Readable, TokenRow, Attend, Mass, LogSumExp, Laws, Attends, Score;
    var rows, g := TokenRows(l.kv, l.s, 0, l.s.len), l.kv.g;
    var keys := seq(l.s.len, i requires 0 <= i < l.s.len =>
      TokenRow(l.kv, l.s, i).lat + TokenRow(l.kv, l.s, i).rope);
    var values := seq(l.s.len, i requires 0 <= i < l.s.len => TokenRow(l.kv, l.s, i).lat);
    assert keys == KeysOf(rows, g) && values == LatsOf(rows, g);
    ScoresAreDots(rows, g, q, l.sm);
    AttendIsAttention(l.e, keys, values, q.lat + q.rope, l.sm, Scores(l, q, 0, l.s.len), g.r);
    assert seq(|o|, c requires 0 <= c < |o| => o[c].v)
        == Attend(l.e, Scores(l, q, 0, l.s.len), Lats(l, 0, l.s.len), g.r);
  }

  lemma LastBlock(l: Launch)
    requires Readable(l.kv, l.s)
    ensures Clip(FirstToken(l.kv.g, BlockCount(l.kv.g, l.s)), l.s.len) == l.s.len
  {
    hide BlockCount;
    BlockCountBounds(l.kv.g, l.s, BlockCount(l.kv.g, l.s));
  }

  /**
   The whole kernel for one sequence and head. On a non-empty sequence it stores exactly the
   softmax attention of the query over tokens `0 .. len` and their log-sum-exp, all finite; on an
   empty one every output lane is the invalid `0 / 0` and the log-sum-exp is minus infinity.
   */
  method DecodeSinglePass(l: Launch, q: Row) returns (o: seq<Float>, lse: Float)
    requires ValidLaunch(l) && RowFits(q, l.kv.g)
    ensures l.s.len >= 1 ==>
              && Mass(l.e, Scores(l, q, 0, l.s.len)) > 0.0
              && o == Lift(Attend(l.e, Scores(l, q, 0, l.s.len), Lats(l, 0, l.s.len), l.kv.g.r))
              && lse == Fin(LogSumExp(l.e, Scores(l, q, 0, l.s.len)))
    ensures l.s.len >= 1 ==> IsDecode(l, q, o, lse)
    ensures l.s.len == 0 ==> |o| == l.kv.g.r && (forall c | 0 <= c < |o| :: o[c] == NaN) && lse == NegInf
  {
    hide BlockCount, Attend, LogSumExp, Mass, Scores, Lats, Laws, IsDecode;
    var eMax, eSum, acc := ScanBlocks(l, q, 0, BlockCount(l.kv.g, l.s));
    LastBlock(l);
    if l.s.len >= 1 {
      FinishRange(l, q, eMax, eSum, acc, 0, l.s.len);
    }
    o := DivideAll(acc, eSum);
    lse := FAdd(eMax, FLog(l.e, eSum));
    if l.s.len >= 1 { AttendIsDecode(l, q, o, lse); }
  }
}
