/**
 The grouped-head split-K decode: one program serves a whole group of heads, loading each block
 once, and stores only the lanes that are real heads.
 */
module GroupedDecode {
  import opened Vectors
  import opened Floats
  import opened Softmax
  import opened TileRecord
  import opened DecodeMemory
  import opened TileDecode
  import opened Recombine
  import opened SplitK

  // ----- which program serves which head

  function GroupCount(heads: nat, hgroup: nat): nat
    requires hgroup >= 1
  {
    (heads + hgroup - 1) / hgroup
  }

  /** Program `hg` holds lane `h` when the masked lane index says so. */
  predicate Serves(hg: nat, hgroup: nat, heads: nat, h: nat) {
    h < heads && hg * hgroup <= h < hg * hgroup + hgroup
  }

  /** Every real head is served by exactly one program of the grid, a padded lane by none, and no program is idle. */
  lemma HeadsPartition(heads: nat, hgroup: nat, h: nat, hg: nat)
    requires hgroup >= 1
    ensures h < heads ==> h / hgroup < GroupCount(heads, hgroup)
    ensures Serves(hg, hgroup, heads, h) <==> h < heads && hg == h / hgroup
    ensures hg < GroupCount(heads, hgroup) <==> hg * hgroup < heads
  {
    var k := h / hgroup;
    assert h == k * hgroup + h % hgroup;
    var x := heads + hgroup - 1;
    CeilingCounts(heads, hgroup, x / hgroup, x % hgroup, k);
    CeilingCounts(heads, hgroup, x / hgroup, x % hgroup, hg);
    if hg * hgroup <= h < hg * hgroup + hgroup {
      IndexInjective(hg, h - hg * hgroup, k, h % hgroup, hgroup);
    }
  }

  // ----- one program

  /** The masked query load: real heads, then zero queries for the padded lanes. */
  function GroupQueries(qs: seq<Row>, g: Geometry, hgroup: nat, first: nat): (r: seq<Row>)
    requires RowsFit(qs, g)
    ensures |r| == hgroup && RowsFit(r, g)
    ensures forall i | 0 <= i < hgroup :: r[i] == if first + i < |qs| then qs[first + i] else BlankRow(g)
  {
    var r := seq(hgroup, i requires 0 <= i < hgroup => if first + i < |qs| then qs[first + i] else BlankRow(g));
    assert forall i | 0 <= i < hgroup :: r[i] == if first + i < |qs| then qs[first + i] else BlankRow(g);
    r
  }

  /** Per-lane online-softmax state of a program. */
  datatype Lanes = Lanes(m: seq<Float>, sum: seq<Float>, acc: seq<seq<Float>>)

  ghost predicate LanesStand(l: Launch, qs: seq<Row>, st: Lanes, lo: nat, hi: nat)
    requires Readable(l.kv, l.s) && RowsFit(qs, l.kv.g)
  {
    && |st.m| == |st.sum| == |st.acc| == |qs|
    && forall i | 0 <= i < |qs| :: LaneStands(l, qs[i], st.m[i], st.sum[i], st.acc[i], lo, hi)
  }

  ghost predicate LaneStands(l: Launch, q: Row, m: Float, sum: Float, acc: seq<Float>, lo: nat, hi: nat)
    requires Readable(l.kv, l.s)
  {
    RowFits(q, l.kv.g) && Stands(l, q, m, sum, acc, lo, hi)
  }

  /** The chunk update of one lane, over rows that all lanes share. */
  function LaneStep(e: ExpLog, m: Float, sum: Float, acc: seq<Float>, scores: seq<Float>, lats: Matrix)
    : (r: (Float, Float, seq<Float>))
    requires IsMatrix(lats, |scores|, |acc|)
  {
    var newM := NewMax(m, scores);
    var p := ChunkWeights(e, scores, newM);
    var alpha := FExp(e, FSub(m, newM));
    (newM, NewSum(sum, alpha, p), NewAcc(acc, alpha, p, lats))
  }

  lemma LaneStepStands(l: Launch, q: Row, m: Float, sum: Float, acc: seq<Float>, j: nat, base: nat, c0: nat, lo: nat)
    requires ValidLaunch(l) && j < BlockCount(l.kv.g, l.s)
    requires base == FirstToken(l.kv.g, j) && c0 + l.width <= l.kv.g.group && lo <= base
    requires LaneStands(l, q, m, sum, acc, lo, Clip(base + c0, l.s.len))
    ensures |acc| == l.kv.g.r
    ensures var rows := ChunkRows(l.kv, l.s.table[j], l.s.len - base, c0, l.width);
            var r := LaneStep(l.e, m, sum, acc, ChunkScores(rows, l.kv.g, l.s.len - base, c0, q, l.sm),
                              LatsOf(rows, l.kv.g));
            LaneStands(l, q, r.0, r.1, r.2, lo, Clip(base + c0 + l.width, l.s.len))
  {
    hide Stands, ChunkRows, ChunkScores, LatsOf, NewMax, NewSum, NewAcc, ChunkWeights, FExp, FSub, BlockCount,
         FirstToken, Laws, BlockReadable;
    ScanStep(l, q, m, sum, acc, j, base, c0, lo);
  }

  /** One chunk for all lanes: scores and updates per lane, the rows loaded once. */
  method GroupChunk(l: Launch, qs: seq<Row>, st: Lanes, j: nat, base: nat, c0: nat, sc: Vec, zp: Vec, ghost lo: nat)
    returns (r: Lanes)
    requires ValidLaunch(l) && RowsFit(qs, l.kv.g) && j < BlockCount(l.kv.g, l.s)
    requires BlockScales(l.kv, l.s.table[j], sc, zp)
    requires base == FirstToken(l.kv.g, j) && c0 + l.width <= l.kv.g.group && lo <= base
    requires LanesStand(l, qs, st, lo, Clip(base + c0, l.s.len))
    ensures LanesStand(l, qs, r, lo, Clip(base + c0 + l.width, l.s.len))
  {
    hide LaneStands, ChunkRows, ChunkScores, LatsOf, LaneStep, BlockCount, FirstToken, Laws, BlockReadable, BlockScales;
    var rows := LoadChunk(l.kv, l.s.table[j], sc, zp, l.s.len - base, c0, l.width);
    var lats := LatsOf(rows, l.kv.g);
    var m: seq<Float>, sum: seq<Float>, acc: seq<seq<Float>> := [], [], [];
    var i := 0;
    while i < |qs|
      invariant i <= |qs| && |m| == |sum| == |acc| == i
      invariant forall k | 0 <= k < i ::
                  LaneStands(l, qs[k], m[k], sum[k], acc[k], lo, Clip(base + c0 + l.width, l.s.len))
    {
      LaneStepStands(l, qs[i], st.m[i], st.sum[i], st.acc[i], j, base, c0, lo);
      var scores := ChunkScores(rows, l.kv.g, l.s.len - base, c0, qs[i], l.sm);
      var u := LaneStep(l.e, st.m[i], st.sum[i], st.acc[i], scores, lats);
      m, sum, acc := m + [u.0], sum + [u.1], acc + [u.2];
      i := i + 1;
    }
    r := Lanes(m, sum, acc);
  }

  lemma LanesEmpty(l: Launch, qs: seq<Row>, lo: nat, st: Lanes)
    requires Readable(l.kv, l.s) && RowsFit(qs, l.kv.g) && lo <= l.s.len
    requires |st.m| == |st.sum| == |st.acc| == |qs|
    requires forall i | 0 <= i < |qs| ::
               st.m[i] == NegInf && st.sum[i] == Fin(0.0) && st.acc[i] == Lift(Zeros(l.kv.g.r))
    ensures LanesStand(l, qs, st, lo, lo)
  {
    hide Stands;
    forall i | 0 <= i < |qs| ensures LaneStands(l, qs[i], st.m[i], st.sum[i], st.acc[i], lo, lo) {
      StandsEmpty(l, qs[i], lo);
    }
  }

  /** The block and chunk loops for all lanes of a program. */
  method GroupScan(l: Launch, qs: seq<Row>, blk0: nat, blk1: nat) returns (st: Lanes)
    requires ValidLaunch(l) && RowsFit(qs, l.kv.g) && blk1 <= BlockCount(l.kv.g, l.s)
    ensures var last := if blk0 <= blk1 then blk1 else blk0;
            LanesStand(l, qs, st, Clip(FirstToken(l.kv.g, blk0), l.s.len), Clip(FirstToken(l.kv.g, last), l.s.len))
  {
    hide LanesStand, BlockReadable, BlockCount, FirstToken, Laws, BlockScales;
    var k := |qs|;
    st := Lanes(seq(k, _ => NegInf), seq(k, _ => Fin(0.0)), seq(k, _ => Lift(Zeros(l.kv.g.r))));
    ghost var lo := Clip(FirstToken(l.kv.g, blk0), l.s.len);
    LanesEmpty(l, qs, lo, st);
    var j, base := blk0, FirstToken(l.kv.g, blk0);
    while j < blk1
      invariant blk0 <= j && (j <= blk1 || j == blk0)
      invariant base == FirstToken(l.kv.g, j) && lo <= base
      invariant LanesStand(l, qs, st, lo, Clip(base, l.s.len))
    {
      var sc, zp := LoadBlockScales(l.kv, l.s.table[j]);
      var c0 := 0;
      while c0 < l.kv.g.group
        invariant c0 <= l.kv.g.group && c0 % l.width == 0
        invariant LanesStand(l, qs, st, lo, Clip(base + c0, l.s.len))
      {
        NextMultiple(c0, l.kv.g.group, l.width);
        st := GroupChunk(l, qs, st, j, base, c0, sc, zp, lo);
        c0 := c0 + l.width;
      }
      FirstTokenStep(l.kv.g, j);
      j, base := j + 1, base + l.kv.g.group;
    }
  }

  /** The stored pair of one lane. */
  method FinishLane(l: Launch, q: Row, splits: nat, s: nat, m: Float, sum: Float, acc: seq<Float>)
    returns (o: seq<Float>, lse: Float)
    requires ValidLaunch(l) && RowFits(q, l.kv.g) && splits >= 1
    requires Stands(l, q, m, sum, acc, Cut(l, splits, s), Cut(l, splits, s + 1))
    ensures PartialOf(l.e, o, lse, SplitSegment(l, q, splits, s).scores, SplitSegment(l, q, splits, s).rows, l.kv.g.r)
  {
    hide BlockCount, BlocksPerSplit, FirstToken, SliceStart, Attend, LogSumExp, Mass, Scores, Lats, Laws,
         FDiv, FAdd, FLog, Represents;
    CutStep(l, splits, s);
    ghost var lo, hi := Cut(l, splits, s), Cut(l, splits, s + 1);
    StandsLength(l, q, m, sum, acc, lo, hi);
    if lo < hi { FinishRange(l, q, m, sum, acc, lo, hi); }
    var n := BlockCount(l.kv.g, l.s);
    var empty := SliceStart(n, splits, s) >= n;
    var positive := Less(Fin(0.0), sum);
    o := if empty || !positive then Lift(Zeros(l.kv.g.r)) else DivideAll(acc, if positive then sum else Fin(1.0));
    lse := if empty || !positive then NegInf else FAdd(m, FLog(l.e, sum));
  }

  ghost predicate CellDone(l: Launch, qs: seq<Row>, splits: nat, h: nat, s: nat, o: seq<Float>, lse: Float)
    requires ValidLaunch(l) && RowsFit(qs, l.kv.g) && splits >= 1 && h < |qs|
  {
    PartialOf(l.e, o, lse, SplitSegment(l, qs[h], splits, s).scores, SplitSegment(l, qs[h], splits, s).rows, l.kv.g.r)
  }

  lemma ScannedSlice(l: Launch, qs: seq<Row>, st: Lanes, splits: nat, s: nat, i: nat)
    requires ValidLaunch(l) && RowsFit(qs, l.kv.g) && splits >= 1 && i < |qs|
    requires var n := BlockCount(l.kv.g, l.s);
             var blk0, blk1 := SliceStart(n, splits, s), SliceEnd(n, splits, s);
             LanesStand(l, qs, st, Clip(FirstToken(l.kv.g, blk0), l.s.len),
                        Clip(FirstToken(l.kv.g, if blk0 <= blk1 then blk1 else blk0), l.s.len))
    ensures |st.m| == |st.sum| == |st.acc| == |qs|
    ensures RowFits(qs[i], l.kv.g)
    ensures Stands(l, qs[i], st.m[i], st.sum[i], st.acc[i], Cut(l, splits, s), Cut(l, splits, s + 1))
  {
    hide BlockCount, SliceStart, SliceEnd, FirstToken, Stands, Laws, BlockReadable;
    CutStep(l, splits, s);
    assert LaneStands(l, qs[i], st.m[i], st.sum[i], st.acc[i], Cut(l, splits, s), Cut(l, splits, s + 1));
  }

  /**
   Stage 1, one program of the grouped grid: exactly the cells of its real heads for its split are
   written, each with the same pair that the per-head kernel stores; every other cell is untouched.
   */
  method GroupedStage1(l: Launch, qs: seq<Row>, hgroup: nat, hg: nat, splits: nat, s: nat,
                       partO: array2<seq<Float>>, partLse: array2<Float>)
    requires ValidLaunch(l) && RowsFit(qs, l.kv.g) && hgroup >= 1 && s < splits
    requires partO.Length0 == partLse.Length0 == |qs| && partO.Length1 == partLse.Length1 == splits
    modifies partO, partLse
    ensures forall h | 0 <= h < |qs| && Serves(hg, hgroup, |qs|, h) ::
              CellDone(l, qs, splits, h, s, partO[h, s], partLse[h, s])
    ensures forall h, k | 0 <= h < |qs| && 0 <= k < splits && !(Serves(hg, hgroup, |qs|, h) && k == s) ::
              partO[h, k] == old(partO[h, k]) && partLse[h, k] == old(partLse[h, k])
  {
    hide BlockCount, SliceStart, SliceEnd, LanesStand, SplitSegment, PartialOf, Stands, Cut, ValidLaunch,
         GroupQueries, BlankRow;
    var n := CountBlocks(l);
    var first := hg * hgroup;
    var lanes := GroupQueries(qs, l.kv.g, hgroup, first);
    SliceEndBound(n, splits, s);
    var st := GroupScan(l, lanes, SliceStart(n, splits, s), SliceEnd(n, splits, s));
    var i := 0;
    while i < hgroup && first + i < |qs|
      invariant i <= hgroup && (i == 0 || first + i <= |qs|)
      invariant forall h | 0 <= h < |qs| && first <= h < first + i ::
                  CellDone(l, qs, splits, h, s, partO[h, s], partLse[h, s])
      invariant forall h, k | 0 <= h < |qs| && 0 <= k < splits && !(first <= h < first + i && k == s) ::
                  partO[h, k] == old(partO[h, k]) && partLse[h, k] == old(partLse[h, k])
    {
      ScannedSlice(l, lanes, st, splits, s, i);
      var o, lse := FinishLane(l, lanes[i], splits, s, st.m[i], st.sum[i], st.acc[i]);
      partO[first + i, s], partLse[first + i, s] := o, lse;
      i := i + 1;
    }
  }

  function CountBlocks(l: Launch): nat
    requires ValidLaunch(l)
  {
    BlockCount(l.kv.g, l.s)
  }

  lemma SliceEndBound(n: nat, splits: nat, s: nat)
    requires splits >= 1
    ensures SliceEnd(n, splits, s) <= n
  {
  }

  // ----- the grid

  /** A launch order of the grid: every program occurs in it. */
  ghost predicate IsGridOrder(order: seq<(nat, nat)>, groups: nat, splits: nat) {
    && (forall p | p in order :: p.0 < groups && p.1 < splits)
    && forall hg: nat, s: nat | hg < groups && s < splits :: (hg, s) in order
  }

  /** The stage-1 grid, its programs run in any order: every cell ends up with its head's pair. */
  method RunStage1Grid(l: Launch, qs: seq<Row>, hgroup: nat, splits: nat, order: seq<(nat, nat)>,
                       partO: array2<seq<Float>>, partLse: array2<Float>)
    requires ValidLaunch(l) && RowsFit(qs, l.kv.g) && hgroup >= 1 && splits >= 1
    requires IsGridOrder(order, GroupCount(|qs|, hgroup), splits)
    requires partO.Length0 == partLse.Length0 == |qs| && partO.Length1 == partLse.Length1 == splits
    modifies partO, partLse
    ensures forall h, s | 0 <= h < |qs| && 0 <= s < splits ::
              CellDone(l, qs, splits, h, s, partO[h, s], partLse[h, s])
  {
    hide CellDone, ValidLaunch, GroupCount, Serves;
    var i := 0;
    while i < |order|
      invariant i <= |order|
      invariant forall h, s | 0 <= h < |qs| && 0 <= s < splits && (h / hgroup, s) in order[..i] ::
                  CellDone(l, qs, splits, h, s, partO[h, s], partLse[h, s])
    {
      var (hg, t) := order[i];
      assert order[i] in order;
      forall h | 0 <= h < |qs| ensures Serves(hg, hgroup, |qs|, h) <==> hg == h / hgroup {
        HeadsPartition(|qs|, hgroup, h, hg);
      }
      GroupedStage1(l, qs, hgroup, hg, splits, t, partO, partLse);
      assert order[..i + 1] == order[..i] + [order[i]];
      i := i + 1;
    }
    forall h, s | 0 <= h < |qs| && 0 <= s < splits ensures (h / hgroup, s) in order[..i] {
      HeadsPartition(|qs|, hgroup, h, 0);
      assert order[..i] == order;
    }
  }

  /** What a head must get: softmax attention over the whole sequence, or NaN when it is empty. */
  ghost predicate HeadDone(l: Launch, q: Row, o: seq<Float>, lse: Float)
    requires ValidLaunch(l)
  {
    && RowFits(q, l.kv.g)
    && (l.s.len >= 1 ==>
        && Mass(l.e, Scores(l, q, 0, l.s.len)) > 0.0
        && o == Lift(Attend(l.e, Scores(l, q, 0, l.s.len), Lats(l, 0, l.s.len), l.kv.g.r))
        && lse == Fin(LogSumExp(l.e, Scores(l, q, 0, l.s.len)))
        && IsDecode(l, q, o, lse))
    && (l.s.len == 0 ==> |o| == l.kv.g.r && AllNaN(o) && lse == NaN)
  }

  /** Stage 2 for head `h`, from the cells of its row. */
  method CombineHead(l: Launch, qs: seq<Row>, splits: nat, h: nat, partO: array2<seq<Float>>, partLse: array2<Float>)
    returns (o: seq<Float>, lse: Float)
    requires ValidLaunch(l) && RowsFit(qs, l.kv.g) && splits >= 1 && h < |qs|
    requires partO.Length0 == partLse.Length0 == |qs| && partO.Length1 == partLse.Length1 == splits
    requires forall s | 0 <= s < splits :: CellDone(l, qs, splits, h, s, partO[h, s], partLse[h, s])
    ensures HeadDone(l, qs[h], o, lse)
  {
    hide Scores, Lats, Readable, PartialOf, Laws, Attend, Mass, LogSumExp, SplitSegments, SplitSegment, Join, IsDecode;
    var os := seq(splits, s requires 0 <= s < splits reads partO => partO[h, s]);
    var ls := seq(splits, s requires 0 <= s < splits reads partLse => partLse[h, s]);
    ghost var segs := SplitSegments(l, qs[h], splits, splits);
    forall s | 0 <= s < splits ensures PartialOf(l.e, os[s], ls[s], segs[s].scores, segs[s].rows, l.kv.g.r) {
      assert CellDone(l, qs, splits, h, s, partO[h, s], partLse[h, s]);
    }
    SplitsCover(l, qs[h], splits);
    o, lse := Stage2(l.e, os, ls, l.kv.g.r, segs);
    if l.s.len >= 1 { AttendIsDecode(l, qs[h], o, lse); }
  }

  /**
   The grouped-head kernel equals the per-head kernels, head by head, for every head count, group
   size, split count and execution order of the grid.
   */
  method DecodeGrouped(l: Launch, qs: seq<Row>, hgroup: nat, splits: nat, order: seq<(nat, nat)>)
    returns (o: seq<seq<Float>>, lse: seq<Float>)
    requires ValidLaunch(l) && RowsFit(qs, l.kv.g) && hgroup >= 1 && splits >= 1
    requires IsGridOrder(order, GroupCount(|qs|, hgroup), splits)
    ensures |o| == |lse| == |qs|
    ensures forall h | 0 <= h < |qs| :: HeadDone(l, qs[h], o[h], lse[h])
  {
    hide CellDone, ValidLaunch, GroupCount, Scores, Lats, Attend, Mass, LogSumExp, IsGridOrder, IsDecode;
    var partO := new seq<Float>[|qs|, splits];
    var partLse := new Float[|qs|, splits];
    RunStage1Grid(l, qs, hgroup, splits, order, partO, partLse);
    o, lse := [], [];
    var h := 0;
    while h < |qs|
      modifies {}
      invariant h <= |qs| && |o| == |lse| == h
      invariant forall k | 0 <= k < h :: HeadDone(l, qs[k], o[k], lse[k])
    {
      var oh, lh := CombineHead(l, qs, splits, h, partO, partLse);
      o, lse := o + [oh], lse + [lh];
      h := h + 1;
    }
  }
}
