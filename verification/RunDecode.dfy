/**
 The decode over a cache that operations built: after every run, the un-rotated kernel output is
 within a bound made of the flushes' own half steps of full-precision attention.
 */
module RunDecode {
  import opened Vectors
  import opened Floats
  import opened Softmax
  import opened Quantizer
  import opened TileRecord
  import opened TilePipeline
  import opened DecodeMemory
  import opened TileDecode
  import opened RotatedFrame
  import opened AttentionError
  import opened EndToEnd
  import opened DualCache
  import opened CacheRun
  import opened CacheHistory

  /** The global cache slot of token `i` of a sequence. */
  function TokenSlot(kv: Kv, s: Sequence, i: nat): (slot: nat)
    requires Readable(kv, s) && i < s.len
  {
    TokenBlock(kv.g, s, i);
    s.table[i / kv.g.group] * kv.g.group + i % kv.g.group
  }

  lemma TokenSlotParts(kv: Kv, s: Sequence, i: nat)
    requires Readable(kv, s) && i < s.len
    ensures i / kv.g.group < |s.table| && s.table[i / kv.g.group] >= 0
    ensures BlockOf(kv, TokenSlot(kv, s, i)) == s.table[i / kv.g.group]
            && PosOf(kv, TokenSlot(kv, s, i)) == i % kv.g.group
  {
    hide BlockCount;
    TokenBlock(kv.g, s, i);
    DivModUnique(s.table[i / kv.g.group], i % kv.g.group, kv.g.group);
  }

  /** The decode kernels and the gather kernel read the same row for a token. */
  lemma GatherIsToken(kv: Kv, s: Sequence, i: nat)
    requires ValidStore(kv) && Readable(kv, s) && i < s.len && InStore(kv, TokenSlot(kv, s, i))
    ensures GatherRow(kv, TokenSlot(kv, s, i)) == TokenRow(kv, s, i)
  {
    hide LoadRow, ValidStore, TokenSlot, BlockCount;
    StoreGroup(kv);
    TokenSlotParts(kv, s, i);
  }

  /** Every token's slot has an entry, which records the rotation of the token's row. */
  ghost predicate Recorded(st: State, s: Sequence, rows: seq<Row>, h: Matrix)
    requires Readable(st.kv, s) && |rows| == s.len && RowsFit(rows, st.kv.g) && IsMatrix(h, st.kv.g.r, st.kv.g.r)
  {
    forall i | 0 <= i < s.len ::
      TokenSlot(st.kv, s, i) in st.last && st.last[TokenSlot(st.kv, s, i)].row == RotateRow(rows[i], h)
  }

  /** The recorded error bounds of a sequence's tokens. */
  ghost function TokenBounds(st: State, s: Sequence, rows: seq<Row>, h: Matrix): (b: Bounds)
    requires Readable(st.kv, s) && |rows| == s.len && RowsFit(rows, st.kv.g) && IsMatrix(h, st.kv.g.r, st.kv.g.r)
    requires Recorded(st, s, rows, h)
    ensures |b.lat| == |b.rope| == s.len
    ensures forall i | 0 <= i < s.len ::
              b.lat[i] == st.last[TokenSlot(st.kv, s, i)].lat && b.rope[i] == st.last[TokenSlot(st.kv, s, i)].rope
  {
    hide TokenSlot, Readable, RowsFit, RotateRow;
    Bounds(seq(s.len, i requires 0 <= i < s.len => st.last[TokenSlot(st.kv, s, i)].lat),
           seq(s.len, i requires 0 <= i < s.len => st.last[TokenSlot(st.kv, s, i)].rope))
  }

  /** In a good state the stored rows are within the recorded bounds of the rotated originals. */
  lemma RecordedIsWithin(st: State, l: Launch, h: Matrix, rows: seq<Row>)
    requires Good(st) && l.kv == st.kv && Readable(l.kv, l.s) && |rows| == l.s.len && RowsFit(rows, l.kv.g)
    requires IsMatrix(h, l.kv.g.r, l.kv.g.r) && Recorded(st, l.s, rows, h)
    ensures StoredWithin(l, h, rows, TokenBounds(st, l.s, rows, h))
  {
    hide Readable, TokenRow, TokenSlot, RotateRow, GatherRow, RowWithin, ValidStore;
    StoreGroup(st.kv);
    var b := TokenBounds(st, l.s, rows, h);
    forall i | 0 <= i < l.s.len
      ensures RowWithin(TokenRows(l.kv, l.s, 0, l.s.len)[i], RotateRows(rows, l.kv.g, h)[i], b.lat[i], b.rope[i])
    {
      var slot := TokenSlot(l.kv, l.s, i);
      assert SlotGood(st.kv, slot, st.last[slot]);
      GatherIsToken(l.kv, l.s, i);
    }
  }

  /** Bounds that have one entry per latent and rope channel of every token. */
  predicate BoundsFit(b: Bounds, n: nat, g: Geometry) {
    n >= 1 && IsMatrix(b.lat, n, g.r) && IsMatrix(b.rope, n, g.rope)
  }

  /** The largest query-weighted bound of a token. */
  ghost function ScoreDelta(b: Bounds, g: Geometry, q: Row, sm: real, n: nat): (delta: real)
    requires BoundsFit(b, n, g) && RowFits(q, g)
    ensures forall t | 0 <= t < n :: ScoreBound(q, b.lat[t], b.rope[t], sm) <= delta
  {
    hide ScoreBound;
    var v := seq(n, t requires 0 <= t < n => ScoreBound(q, b.lat[t], b.rope[t], sm));
    assert forall t | 0 <= t < n :: v[t] == ScoreBound(q, b.lat[t], b.rope[t], sm);
    MaxOf(v)
  }

  /** Per channel, the largest bound of a token and the largest entry of a rotated row. */
  ghost function WorstChannels(b: Bounds, truth: Matrix, g: Geometry, n: nat): (ch: Channels)
    requires BoundsFit(b, n, g) && IsMatrix(truth, n, g.r)
    ensures |ch.beta| == |ch.big| == g.r
    ensures forall c, t | 0 <= c < g.r && 0 <= t < n :: b.lat[t][c] <= ch.beta[c] && Abs(truth[t][c]) <= ch.big[c]
  {
    var ch := Channels(seq(g.r, c requires 0 <= c < g.r => Largest(b.lat, n, g.r, c)),
                       seq(g.r, c requires 0 <= c < g.r => LargestSize(truth, n, g.r, c)));
    assert forall c, t | 0 <= c < g.r && 0 <= t < n :: b.lat[t][c] <= ch.beta[c] && Abs(truth[t][c]) <= ch.big[c];
    ch
  }

  ghost function Largest(m: Matrix, n: nat, w: nat, c: nat): (x: real)
    requires n >= 1 && IsMatrix(m, n, w) && c < w
    ensures forall t | 0 <= t < n :: m[t][c] <= x
  {
    var v := seq(n, t requires 0 <= t < n => m[t][c]);
    assert forall t | 0 <= t < n :: v[t] == m[t][c];
    MaxOf(v)
  }

  ghost function LargestSize(m: Matrix, n: nat, w: nat, c: nat): (x: real)
    requires n >= 1 && IsMatrix(m, n, w) && c < w
    ensures forall t | 0 <= t < n :: Abs(m[t][c]) <= x
  {
    hide Abs;
    var v := seq(n, t requires 0 <= t < n => Abs(m[t][c]));
    assert forall t | 0 <= t < n :: v[t] == Abs(m[t][c]);
    MaxOf(v)
  }

  lemma WithinFits(l: Launch, h: Matrix, rows: seq<Row>, b: Bounds)
    requires Readable(l.kv, l.s) && l.s.len >= 1 && StoredWithin(l, h, rows, b)
    ensures BoundsFit(b, l.s.len, l.kv.g)
  {
    hide Readable, RotateRows, TokenRows, Abs;
    var stored, truth := TokenRows(l.kv, l.s, 0, l.s.len), RotateRows(rows, l.kv.g, h);
    forall t | 0 <= t < l.s.len ensures |b.lat[t]| == l.kv.g.r && |b.rope[t]| == l.kv.g.rope {
      assert RowWithin(stored[t], truth[t], b.lat[t], b.rope[t]);
      assert RowFits(stored[t], l.kv.g);
    }
  }

  lemma WorstCovers(l: Launch, h: Matrix, rows: seq<Row>, b: Bounds)
    requires Readable(l.kv, l.s) && l.s.len >= 1 && StoredWithin(l, h, rows, b) && BoundsFit(b, l.s.len, l.kv.g)
    ensures ChannelsCover(l, h, rows, WorstChannels(b, LatsOf(RotateRows(rows, l.kv.g, h), l.kv.g), l.kv.g, l.s.len))
  {
    hide Readable, RotateRows, TokenRows, Abs, WorstChannels, LatsOf, ChannelWithin, RowsFit, Orthonormal;
    var g, n := l.kv.g, l.s.len;
    var stored, truth := TokenRows(l.kv, l.s, 0, n), RotateRows(rows, g, h);
    var ch := WorstChannels(b, LatsOf(truth, g), g, n);
    forall c | 0 <= c < g.r
      ensures ChannelWithin(LatsOf(stored, g), LatsOf(truth, g), g.r, c, ch.beta[c], ch.big[c])
    {
      forall t | 0 <= t < n
        ensures |stored[t].lat| == |truth[t].lat| == |b.lat[t]| == g.r
                && Abs(stored[t].lat[c] - truth[t].lat[c]) <= b.lat[t][c]
      {
        assert RowWithin(stored[t], truth[t], b.lat[t], b.rope[t]);
      }
      ColumnWithin(stored, truth, b.lat, g, n, c, ch.beta[c], ch.big[c]);
    }
  }

  lemma ColumnWithin(stored: seq<Row>, truth: seq<Row>, bl: Matrix, g: Geometry, n: nat, c: nat, beta: real, big: real)
    requires RowsFit(stored, g) && RowsFit(truth, g) && |stored| == |truth| == n && IsMatrix(bl, n, g.r) && c < g.r
    requires forall t | 0 <= t < n ::
               |stored[t].lat| == |truth[t].lat| == g.r && Abs(stored[t].lat[c] - truth[t].lat[c]) <= bl[t][c]
    requires forall t | 0 <= t < n :: bl[t][c] <= beta && Abs(LatsOf(truth, g)[t][c]) <= big
    ensures ChannelWithin(LatsOf(stored, g), LatsOf(truth, g), g.r, c, beta, big)
  {
    hide Abs;
  }

  /** How far the un-rotated output channel `k` may be from full precision, given the token bounds. */
  ghost function DecodeBound(l: Launch, h: Matrix, rows: seq<Row>, q: Row, b: Bounds, k: nat): real
    requires Readable(l.kv, l.s) && BoundsFit(b, l.s.len, l.kv.g) && RowFits(q, l.kv.g) && k < l.kv.g.r
    requires IsMatrix(h, l.kv.g.r, l.kv.g.r) && |rows| == l.s.len && RowsFit(rows, l.kv.g)
  {
    var ch := WorstChannels(b, LatsOf(RotateRows(rows, l.kv.g, h), l.kv.g), l.kv.g, l.s.len);
    Dot(AbsVec(h[k]), OutputBounds(l.e, ch, ScoreDelta(b, l.kv.g, RotateRow(q, h), l.sm, l.s.len)))
  }

  /** In every good state whose history records the rotated rows of a sequence. */
  lemma RecordedDecode(st: State, l: Launch, h: Matrix, rows: seq<Row>, q: Row, k: nat)
    requires Good(st) && l.kv == st.kv && ValidLaunch(l) && l.s.len >= 1 && RowFits(q, l.kv.g) && k < l.kv.g.r
    requires Orthonormal(h) && |h| == l.kv.g.r && |rows| == l.s.len && RowsFit(rows, l.kv.g)
    requires Recorded(st, l.s, rows, h)
    ensures var b := TokenBounds(st, l.s, rows, h);
            && BoundsFit(b, l.s.len, l.kv.g)
            && Mass(l.e, Scores(l, RotateRow(q, h), 0, l.s.len)) > 0.0
            && Mass(l.e, ScoresOf(rows, l.kv.g, q, l.sm)) > 0.0
            && Abs(MatVec(h, Attend(l.e, Scores(l, RotateRow(q, h), 0, l.s.len), Lats(l, 0, l.s.len), l.kv.g.r))[k]
                   - AttendRows(l.e, rows, l.kv.g, q, l.sm)[k])
               <= DecodeBound(l, h, rows, q, b, k)
            && Abs(LogSumExp(l.e, Scores(l, RotateRow(q, h), 0, l.s.len))
                   - LogSumExp(l.e, ScoresOf(rows, l.kv.g, q, l.sm)))
               <= ScoreDelta(b, l.kv.g, RotateRow(q, h), l.sm, l.s.len)
  {
    hide Readable, RotateRows, RotateRow, ScoresOf, LatsOf, Scores, Lats, Attend, AttendRows, Mass, Laws, Abs, Dot,
         StoredWithin, ChannelsCover, OutputBounds, LogSumExp, AbsVec, TokenBounds, Recorded, Good, ScoreDelta,
         WorstChannels, ScoreBound, MatVec;
    var b := TokenBounds(st, l.s, rows, h);
    RecordedIsWithin(st, l, h, rows);
    WithinFits(l, h, rows, b);
    WorstCovers(l, h, rows, b);
    var ch := WorstChannels(b, LatsOf(RotateRows(rows, l.kv.g, h), l.kv.g), l.kv.g, l.s.len);
    QuantisedDecodeError(l, q, h, rows, b, ScoreDelta(b, l.kv.g, RotateRow(q, h), l.sm, l.s.len), ch, k);
  }

  /** Every token of the sequence was scattered, rotated, to its slot and not disturbed afterwards. */
  ghost predicate SequenceWritten(st: State, ops: seq<Op>, x: Codec, s: Sequence, rows: seq<Row>, h: Matrix)
    requires Legal(st, ops, x) && st.kv.g.group >= 1 && Readable(Run(st, ops, x).kv, s)
    requires IsMatrix(h, |h|, |h|) && |rows| == s.len && forall i | 0 <= i < s.len :: |rows[i].lat| == |h|
  {
    forall i | 0 <= i < s.len :: RowWritten(st, ops, x, RotateRow(rows[i], h), TokenSlot(Run(st, ops, x).kv, s, i))
  }

  /** Some operation scattered the row to the slot, and nothing disturbed it afterwards. */
  ghost predicate RowWritten(st: State, ops: seq<Op>, x: Codec, row: Row, slot: nat)
    requires Legal(st, ops, x) && st.kv.g.group >= 1
  {
    exists j :: Wrote(st, ops, x, j, row, slot)
  }

  /** What the bounds of a token are made of: nothing, or the half steps and slack of its flush. */
  ghost predicate BoundsOfFlushes(st: State, ops: seq<Op>, x: Codec, j: nat, slot: nat, bl: Vec, br: Vec)
    requires Legal(st, ops, x) && st.kv.g.group >= 1
  {
    && (NeverFlushes(ops, j + 1, slot, st.kv.g.group) ==> bl == Zeros(st.kv.g.r) && br == Zeros(st.kv.g.rope))
    && (forall k | j < k < |ops| && Flushes(ops[k], slot, st.kv.g.group) :: BoundsOfFlush(st, ops, x, k, slot, bl, br))
  }

  ghost predicate BoundsOfFlush(st: State, ops: seq<Op>, x: Codec, k: nat, slot: nat, bl: Vec, br: Vec)
    requires Legal(st, ops, x) && k < |ops| && ops[k].Flush?
  {
    var kv := StateAt(st, ops, x, k).kv;
    && ValidStore(kv) && Enabled(kv, ops[k], x) && |bl| == kv.g.r && |br| == kv.g.rope
    && var f, t := FlushFrame(kv, ops[k].block, ops[k].sCol, ops[k].sRow), PosOf(kv, slot);
       && (forall c | 0 <= c < kv.g.r :: bl[c] == StoredBound(f, kv.g, x.u, t, c))
       && (forall c | 0 <= c < kv.g.rope :: br[c] == Times(x.u, Abs(f.rope[t][c])))
  }

  /** Some operation wrote the row, and the bounds come from the flushes after it. */
  ghost predicate Explained(st: State, ops: seq<Op>, x: Codec, row: Row, slot: nat, bl: Vec, br: Vec)
    requires Legal(st, ops, x) && st.kv.g.group >= 1
  {
    exists j :: Wrote(st, ops, x, j, row, slot) && BoundsOfFlushes(st, ops, x, j, slot, bl, br)
  }

  lemma WrittenBounds(st: State, ops: seq<Op>, x: Codec, j: nat, row: Row, slot: nat)
    requires Good(st) && Legal(st, ops, x) && st.kv.g.group >= 1 && Wrote(st, ops, x, j, row, slot)
    ensures var t := Run(st, ops, x);
            && slot in t.last && t.last[slot].row == row
            && BoundsOfFlushes(st, ops, x, j, slot, t.last[slot].lat, t.last[slot].rope)
  {
    hide ValidStore, Step, FlushedAt, Enabled, Zeros, Wrote, Run, Legal, NeverFlushes, BoundsOfFlush, SlotGood;
    WroteEntry(st, ops, x, j, row, slot);
    var e := Run(st, ops, x).last[slot];
    forall k | j < k < |ops| && Flushes(ops[k], slot, st.kv.g.group)
      ensures BoundsOfFlush(st, ops, x, k, slot, e.lat, e.rope)
    {
      FlushedBounds(st, ops, x, k, slot, Entry(row, Zeros(st.kv.g.r), Zeros(st.kv.g.rope)), e);
    }
  }

  lemma FlushedBounds(st: State, ops: seq<Op>, x: Codec, k: nat, slot: nat, was: Entry, e: Entry)
    requires Legal(st, ops, x) && k < |ops| && ops[k].Flush? && FlushedAt(st, ops, x, slot, k, was, e)
    ensures BoundsOfFlush(st, ops, x, k, slot, e.lat, e.rope)
  {
    hide ValidStore, FlushFrame, StoredBound, Step, StateAt, Abs, Times, FrameRounds, RoundsWithin;
  }

  lemma WrittenIsRecorded(st: State, ops: seq<Op>, x: Codec, s: Sequence, rows: seq<Row>, h: Matrix)
    requires Good(st) && Legal(st, ops, x) && st.kv.g.group >= 1 && Readable(Run(st, ops, x).kv, s)
    requires |rows| == s.len && RowsFit(rows, Run(st, ops, x).kv.g) && |h| == Run(st, ops, x).kv.g.r
             && IsMatrix(h, |h|, |h|)
    requires SequenceWritten(st, ops, x, s, rows, h)
    ensures Recorded(Run(st, ops, x), s, rows, h)
  {
    hide ValidStore, Step, Enabled, Wrote, Run, Legal, SlotGood, Readable, TokenSlot, RotateRow, BoundsOfFlushes;
    var t := Run(st, ops, x);
    forall i | 0 <= i < s.len
      ensures TokenSlot(t.kv, s, i) in t.last && t.last[TokenSlot(t.kv, s, i)].row == RotateRow(rows[i], h)
    {
      assert RowWritten(st, ops, x, RotateRow(rows[i], h), TokenSlot(t.kv, s, i));
      var j :| Wrote(st, ops, x, j, RotateRow(rows[i], h), TokenSlot(t.kv, s, i));
      WrittenBounds(st, ops, x, j, RotateRow(rows[i], h), TokenSlot(t.kv, s, i));
    }
  }

  /**
   After every legal run of scatters, assignments, flushes and discards that wrote the rotated rows
   of a sequence, the un-rotated decode is within `DecodeBound` of full-precision attention and its
   log-sum-exp within `ScoreDelta`. The bounds that enter are zero for tokens still in the pool and
   the half step and rounding slack of its flush for every other token.
   */
  lemma DecodeAfterRun(st: State, ops: seq<Op>, x: Codec, l: Launch, h: Matrix, rows: seq<Row>, q: Row, k: nat)
    requires Good(st) && Legal(st, ops, x) && st.kv.g.group >= 1 && l.kv == Run(st, ops, x).kv
    requires ValidLaunch(l) && l.s.len >= 1 && RowFits(q, l.kv.g) && k < l.kv.g.r
    requires Orthonormal(h) && |h| == l.kv.g.r && |rows| == l.s.len && RowsFit(rows, l.kv.g)
    requires SequenceWritten(st, ops, x, l.s, rows, h)
    ensures Recorded(Run(st, ops, x), l.s, rows, h)
    ensures var b := TokenBounds(Run(st, ops, x), l.s, rows, h);
            && BoundsFit(b, l.s.len, l.kv.g)
            && (forall i | 0 <= i < l.s.len ::
                Explained(st, ops, x, RotateRow(rows[i], h), TokenSlot(l.kv, l.s, i), b.lat[i], b.rope[i]))
            && Mass(l.e, Scores(l, RotateRow(q, h), 0, l.s.len)) > 0.0
            && Mass(l.e, ScoresOf(rows, l.kv.g, q, l.sm)) > 0.0
            && Abs(MatVec(h, Attend(l.e, Scores(l, RotateRow(q, h), 0, l.s.len), Lats(l, 0, l.s.len), l.kv.g.r))[k]
                   - AttendRows(l.e, rows, l.kv.g, q, l.sm)[k])
               <= DecodeBound(l, h, rows, q, b, k)
            && Abs(LogSumExp(l.e, Scores(l, RotateRow(q, h), 0, l.s.len))
                   - LogSumExp(l.e, ScoresOf(rows, l.kv.g, q, l.sm)))
               <= ScoreDelta(b, l.kv.g, RotateRow(q, h), l.sm, l.s.len)
  {
    hide Readable, RotateRows, RotateRow, ScoresOf, LatsOf, Scores, Lats, Attend, AttendRows, Mass, Laws, Abs, Dot,
         LogSumExp, Recorded, Good, ScoreDelta, DecodeBound, MatVec, Wrote, BoundsOfFlushes, Run, Legal, TokenSlot,
         BoundsFit;
    WrittenIsRecorded(st, ops, x, l.s, rows, h);
    RunKeepsGood(st, ops, x);
    RecordedDecode(Run(st, ops, x), l, h, rows, q, k);
    var b := TokenBounds(Run(st, ops, x), l.s, rows, h);
    forall i | 0 <= i < l.s.len
      ensures Explained(st, ops, x, RotateRow(rows[i], h), TokenSlot(l.kv, l.s, i), b.lat[i], b.rope[i])
    {
      assert RowWritten(st, ops, x, RotateRow(rows[i], h), TokenSlot(l.kv, l.s, i));
      var j :| Wrote(st, ops, x, j, RotateRow(rows[i], h), TokenSlot(l.kv, l.s, i));
      WrittenBounds(st, ops, x, j, RotateRow(rows[i], h), TokenSlot(l.kv, l.s, i));
    }
  }

  /** Each score moves by at most the query-weighted sum of its token's bounds. */
  lemma ScoreAfterRun(st: State, l: Launch, h: Matrix, rows: seq<Row>, q: Row, i: nat)
    requires Good(st) && l.kv == st.kv && Readable(l.kv, l.s) && RowFits(q, l.kv.g) && i < l.s.len
    requires Orthonormal(h) && |h| == l.kv.g.r && |rows| == l.s.len && RowsFit(rows, l.kv.g)
    requires Recorded(st, l.s, rows, h)
    ensures var b := TokenBounds(st, l.s, rows, h);
            && BoundsFit(b, l.s.len, l.kv.g) && RowFits(rows[i], l.kv.g)
            && Abs(Score(RotateRow(q, h), TokenRow(l.kv, l.s, i), l.sm) - Score(q, rows[i], l.sm))
               <= ScoreBound(RotateRow(q, h), b.lat[i], b.rope[i], l.sm)
  {
    hide Readable, RotateRow, Abs, TokenBounds, Recorded, Good, ScoreBound, Score, TokenRow;
    var b := TokenBounds(st, l.s, rows, h);
    RecordedIsWithin(st, l, h, rows);
    WithinFits(l, h, rows, b);
    assert RowWithin(TokenRows(l.kv, l.s, 0, l.s.len)[i], RotateRows(rows, l.kv.g, h)[i], b.lat[i], b.rope[i]);
    assert RowFits(rows[i], l.kv.g);
    ScoreError(RotateRow(q, h), TokenRow(l.kv, l.s, i), RotateRow(rows[i], h), b.lat[i], b.rope[i], l.sm);
    RotationKeepsScore(rows[i], q, h, l.sm);
  }

  /** Packing rotated latents is the flush of a pool slot that holds the rotated rows. */
  lemma PackIsFlush(kv: Kv, block: nat, f: Frame, lat: Matrix, h: Matrix)
    requires ValidStore(kv) && Mapped(kv, block) && ValidFrame(f, kv.g)
    requires IsMatrix(h, kv.g.r, kv.g.r) && IsMatrix(lat, kv.g.group, kv.g.r)
    requires forall c, t | 0 <= c < kv.g.r && 0 <= t < kv.g.group :: f.tile.m[c][t] == VecMat(lat[t], h, kv.g.r)[c]
    requires kv.poolLat[kv.blockToSlot[block]]
             == seq(kv.g.group, t requires 0 <= t < kv.g.group => VecMat(lat[t], h, kv.g.r))
    requires kv.poolRope[kv.blockToSlot[block]] == f.rope
    ensures FlushFrame(kv, block, f.sCol, f.sRow) == f
  {
    hide VecMat, RecordBytes, Injective;
    var g, p := kv.g, kv.blockToSlot[block];
    var m := Transpose(kv.poolLat[p], g.r);
    forall c | 0 <= c < g.r ensures m[c] == f.tile.m[c] {
      forall t | 0 <= t < g.group ensures m[c][t] == f.tile.m[c][t] {}
    }
    assert m == f.tile.m;
  }
}
