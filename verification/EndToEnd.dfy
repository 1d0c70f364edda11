/**
 The decode as a whole: how far the un-rotated kernel output over a quantised cache is from
 full-precision attention over the original latents.
 */
module EndToEnd {
  import opened Vectors
  import opened Floats
  import opened Softmax
  import opened TileRecord
  import opened DecodeMemory
  import opened TileDecode
  import opened RotatedFrame
  import opened AttentionError

  /** Entrywise bounds on how far each stored row is from the rotation of its original. */
  datatype Bounds = Bounds(lat: Matrix, rope: Matrix)

  ghost predicate StoredWithin(l: Launch, h: Matrix, rows: seq<Row>, b: Bounds)
    requires Readable(l.kv, l.s)
  {
    && IsMatrix(h, l.kv.g.r, l.kv.g.r) && |rows| == |b.lat| == |b.rope| == l.s.len && RowsFit(rows, l.kv.g)
    && forall t | 0 <= t < l.s.len ::
         RowWithin(TokenRows(l.kv, l.s, 0, l.s.len)[t], RotateRows(rows, l.kv.g, h)[t], b.lat[t], b.rope[t])
  }

  /** `delta` bounds the query-weighted error of every token. */
  ghost predicate DeltaCovers(l: Launch, q: Row, b: Bounds, delta: real) {
    forall t | 0 <= t < |b.lat| && t < |b.rope| ::
      && |q.lat| == |b.lat[t]| && |q.rope| == |b.rope[t]|
      && ScoreBound(q, b.lat[t], b.rope[t], l.sm) <= delta
  }

  /** Every stored score is within `delta` of the true one. */
  lemma StoredScoresWithin(l: Launch, q: Row, h: Matrix, rows: seq<Row>, b: Bounds, delta: real)
    requires Readable(l.kv, l.s) && RowFits(q, l.kv.g) && StoredWithin(l, h, rows, b) && DeltaCovers(l, q, b, delta)
    ensures ScoresWithin(ScoresOf(RotateRows(rows, l.kv.g, h), l.kv.g, q, l.sm), Scores(l, q, 0, l.s.len), delta)
  {
    hide Readable, TokenRows, RotateRows, Score, ScoreBound, Abs;
    var stored, truth := TokenRows(l.kv, l.s, 0, l.s.len), RotateRows(rows, l.kv.g, h);
    forall t | 0 <= t < l.s.len
      ensures Abs(Score(q, truth[t], l.sm) - Score(q, stored[t], l.sm)) <= delta
    {
      assert RowWithin(stored[t], truth[t], b.lat[t], b.rope[t]);
      ScoreError(q, stored[t], truth[t], b.lat[t], b.rope[t], l.sm);
      AbsFlip(Score(q, truth[t], l.sm), Score(q, stored[t], l.sm));
    }
  }

  lemma AbsFlip(x: real, y: real)
    ensures Abs(x - y) == Abs(y - x)
  {
  }

  /** Per output channel of the rotated frame: a bound on row error and on row size. */
  datatype Channels = Channels(beta: Vec, big: Vec)

  ghost predicate ChannelsCover(l: Launch, h: Matrix, rows: seq<Row>, ch: Channels)
    requires Readable(l.kv, l.s)
  {
    && IsMatrix(h, l.kv.g.r, l.kv.g.r) && |rows| == l.s.len && RowsFit(rows, l.kv.g)
    && |ch.beta| == |ch.big| == l.kv.g.r
    && forall c | 0 <= c < l.kv.g.r ::
         ChannelWithin(Lats(l, 0, l.s.len), LatsOf(RotateRows(rows, l.kv.g, h), l.kv.g), l.kv.g.r, c, ch.beta[c],
                       ch.big[c])
  }

  /** `beta + (exp(delta)^2 - 1) * big`, channel by channel. */
  function OutputBounds(e: ExpLog, ch: Channels, delta: real): (v: Vec)
    requires |ch.beta| == |ch.big|
    ensures |v| == |ch.beta|
    ensures forall c | 0 <= c < |v| :: v[c] == ch.beta[c] + Times(WeightFactor(e, delta) - 1.0, ch.big[c])
  {
    seq(|ch.beta|, c requires 0 <= c < |ch.beta| => ch.beta[c] + Times(WeightFactor(e, delta) - 1.0, ch.big[c]))
  }

  lemma RotatedOutputError(l: Launch, q: Row, h: Matrix, rows: seq<Row>, b: Bounds, delta: real, ch: Channels, c: nat)
    requires ValidLaunch(l) && RowFits(q, l.kv.g) && l.s.len >= 1 && c < l.kv.g.r
    requires StoredWithin(l, h, rows, b) && DeltaCovers(l, q, b, delta) && ChannelsCover(l, h, rows, ch)
    ensures var truth := RotateRows(rows, l.kv.g, h);
            && Mass(l.e, Scores(l, q, 0, l.s.len)) > 0.0 && Mass(l.e, ScoresOf(truth, l.kv.g, q, l.sm)) > 0.0
            && Abs(Attend(l.e, Scores(l, q, 0, l.s.len), Lats(l, 0, l.s.len), l.kv.g.r)[c]
                   - AttendRows(l.e, truth, l.kv.g, q, l.sm)[c]) <= OutputBounds(l.e, ch, delta)[c]
  {
    hide Readable, RotateRows, ScoresOf, LatsOf, Scores, Lats, Attend, Mass, Laws, Times, WeightFactor, Abs,
         StoredWithin, DeltaCovers, ScoresWithin, ChannelWithin;
    StoredScoresWithin(l, q, h, rows, b, delta);
    var truth := RotateRows(rows, l.kv.g, h);
    OutputError(l.e, ScoresOf(truth, l.kv.g, q, l.sm), Scores(l, q, 0, l.s.len), LatsOf(truth, l.kv.g),
                Lats(l, 0, l.s.len), l.kv.g.r, c, delta, ch.beta[c], ch.big[c]);
  }

  /**
   End to end: with the cache's rows within `b` of the rotated originals, the un-rotated decode is,
   in every output channel, within `|h[k]| . (beta + (exp(delta)^2 - 1) * big)` of full-precision
   attention, and its log-sum-exp within `delta`.
   */
  lemma QuantisedDecodeError(l: Launch, q: Row, h: Matrix, rows: seq<Row>, b: Bounds, delta: real, ch: Channels, k: nat)
    requires ValidLaunch(l) && RowFits(q, l.kv.g) && l.s.len >= 1 && k < l.kv.g.r
    requires Orthonormal(h) && |h| == l.kv.g.r
    requires StoredWithin(l, h, rows, b) && ChannelsCover(l, h, rows, ch)
    requires DeltaCovers(l, RotateRow(q, h), b, delta)
    ensures Mass(l.e, Scores(l, RotateRow(q, h), 0, l.s.len)) > 0.0
    ensures Mass(l.e, ScoresOf(rows, l.kv.g, q, l.sm)) > 0.0
    ensures Abs(MatVec(h, Attend(l.e, Scores(l, RotateRow(q, h), 0, l.s.len), Lats(l, 0, l.s.len), l.kv.g.r))[k]
                - AttendRows(l.e, rows, l.kv.g, q, l.sm)[k])
         <= Dot(AbsVec(h[k]), OutputBounds(l.e, ch, delta))
    ensures Abs(LogSumExp(l.e, Scores(l, RotateRow(q, h), 0, l.s.len))
                - LogSumExp(l.e, ScoresOf(rows, l.kv.g, q, l.sm)))
         <= delta
  {
    hide Readable, RotateRows, RotateRow, ScoresOf, LatsOf, Scores, Lats, Attend, AttendRows, Mass, Laws, Abs, Dot,
         StoredWithin, DeltaCovers, ScoresWithin, ChannelsCover, OutputBounds, LogSumExp, AbsVec;
    var g, qr := l.kv.g, RotateRow(q, h);
    ChannelsShape(l, h, rows, ch);
    MassPositive(l.e, Scores(l, qr, 0, l.s.len));
    RotatedAttention(l.e, rows, g, q, h, l.sm);
    var truth := RotateRows(rows, g, h);
    var o, o' := AttendRows(l.e, truth, g, qr, l.sm), Attend(l.e, Scores(l, qr, 0, l.s.len), Lats(l, 0, l.s.len), g.r);
    forall c | 0 <= c < g.r ensures Abs(o'[c] - o[c]) <= OutputBounds(l.e, ch, delta)[c] {
      RotatedOutputError(l, qr, h, rows, b, delta, ch, c);
    }
    StoredScoresWithin(l, qr, h, rows, b, delta);
    LseError(l.e, ScoresOf(truth, g, qr, l.sm), Scores(l, qr, 0, l.s.len), delta);
    DotDifference(o', o, h[k], OutputBounds(l.e, ch, delta));
    DotCommutes(o', h[k]);
    DotCommutes(o, h[k]);
  }

  lemma ChannelsShape(l: Launch, h: Matrix, rows: seq<Row>, ch: Channels)
    requires Readable(l.kv, l.s) && ChannelsCover(l, h, rows, ch)
    ensures |ch.beta| == |ch.big| == l.kv.g.r && |rows| == l.s.len && RowsFit(rows, l.kv.g)
  {
  }
}
