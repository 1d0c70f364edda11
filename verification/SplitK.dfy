/**
 The split-K decode: stage 1 gives every split a contiguous slice of the sequence's blocks and
 stores its normalised partial output and log-sum-exp; stage 2 recombines them.
 */
module SplitK {
  import opened Vectors
  import opened Floats
  import opened Softmax
  import opened TileRecord
  import opened DecodeMemory
  import opened TileDecode
  import opened Recombine

  // ----- block slices

  function BlocksPerSplit(n: nat, splits: nat): nat
    requires splits >= 1
  {
    (n + splits - 1) / splits
  }

  function SliceStart(n: nat, splits: nat, s: nat): nat
    requires splits >= 1
  {
    s * BlocksPerSplit(n, splits)
  }

  function SliceEnd(n: nat, splits: nat, s: nat): nat
    requires splits >= 1
  {
    var end := SliceStart(n, splits, s) + BlocksPerSplit(n, splits);
    if end < n then end else n
  }

  lemma SlicesCover(n: nat, splits: nat)
    requires splits >= 1
    ensures SliceStart(n, splits, splits) >= n
  {
    var x := n + splits - 1;
    var d := x / splits;
    CeilingCounts(n, splits, d, x % splits, d);
    assert d * splits == splits * d;
  }

  lemma SliceStartStep(n: nat, splits: nat, s: nat)
    requires splits >= 1
    ensures SliceStart(n, splits, s + 1) == SliceStart(n, splits, s) + BlocksPerSplit(n, splits)
  {
  }

  /**
   The slices partition the blocks: block `j` lies in the slice of split `j / bps`, which exists,
   and in no other.
   */
  lemma SlicesPartition(n: nat, splits: nat, j: nat, s: nat)
    requires splits >= 1 && j < n
    ensures BlocksPerSplit(n, splits) >= 1
    ensures j / BlocksPerSplit(n, splits) < splits
    ensures SliceStart(n, splits, s) <= j < SliceEnd(n, splits, s) <==> s == j / BlocksPerSplit(n, splits)
  {
    var b := BlocksPerSplit(n, splits);
    CeilingCounts(n, splits, b, (n + splits - 1) % splits, 0);
    var k := j / b;
    assert j == k * b + j % b;
    SlicesCover(n, splits);
    if k >= splits { MulMonotone(splits, k, b); }
    if SliceStart(n, splits, s) <= j < SliceEnd(n, splits, s) {
      IndexInjective(s, j - s * b, k, j % b, b);
    }
  }

  /** A split gets the least number of blocks with which the splits can cover them all. */
  lemma BlocksPerSplitIsLeast(n: nat, splits: nat, b: nat)
    requires splits >= 1
    ensures n <= splits * b <==> BlocksPerSplit(n, splits) <= b
  {
    CeilingCounts(n, splits, BlocksPerSplit(n, splits), (n + splits - 1) % splits, b);
    assert b * splits == splits * b;
  }

  // ----- partial results

  /** Where split `s` begins, as a token index. */
  ghost function Cut(l: Launch, splits: nat, s: nat): nat
    requires Readable(l.kv, l.s) && splits >= 1
  {
    Clip(FirstToken(l.kv.g, SliceStart(BlockCount(l.kv.g, l.s), splits, s)), l.s.len)
  }

  lemma ClipPastEnd(l: Launch, j: nat)
    requires Readable(l.kv, l.s) && BlockCount(l.kv.g, l.s) <= j
    ensures Clip(FirstToken(l.kv.g, j), l.s.len) == l.s.len
  {
    hide BlockCount;
    BlockCountBounds(l.kv.g, l.s, j);
  }

  lemma ClipInside(l: Launch, i: nat, j: nat)
    requires Readable(l.kv, l.s) && i < BlockCount(l.kv.g, l.s) && i < j
    ensures FirstToken(l.kv.g, i) < l.s.len
    ensures Clip(FirstToken(l.kv.g, i), l.s.len) < Clip(FirstToken(l.kv.g, j), l.s.len)
  {
    hide BlockCount;
    BlockCountBounds(l.kv.g, l.s, i);
    MulMonotone(i + 1, j, l.kv.g.group);
    FirstTokenStep(l.kv.g, i);
  }

  lemma CutEnds(l: Launch, splits: nat)
    requires Readable(l.kv, l.s) && splits >= 1
    ensures Cut(l, splits, 0) == 0 && Cut(l, splits, splits) == l.s.len
  {
    hide BlockCount, BlocksPerSplit;
    var n := BlockCount(l.kv.g, l.s);
    SlicesCover(n, splits);
    ClipPastEnd(l, SliceStart(n, splits, splits));
    assert SliceStart(n, splits, 0) == 0;
  }

  /** The scanned slice of split `s` is exactly tokens `Cut(s) .. Cut(s + 1)`. */
  lemma CutStep(l: Launch, splits: nat, s: nat)
    requires Readable(l.kv, l.s) && splits >= 1
    ensures var n := BlockCount(l.kv.g, l.s);
            var blk0, blk1 := SliceStart(n, splits, s), SliceEnd(n, splits, s);
            var last := if blk0 <= blk1 then blk1 else blk0;
            && Clip(FirstToken(l.kv.g, last), l.s.len) == Cut(l, splits, s + 1)
            && Cut(l, splits, s) <= Cut(l, splits, s + 1)
            && (blk0 >= n <==> Cut(l, splits, s) == Cut(l, splits, s + 1))
  {
    hide BlockCount, BlocksPerSplit, FirstToken, SliceStart;
    var n := BlockCount(l.kv.g, l.s);
    var blk0, b := SliceStart(n, splits, s), BlocksPerSplit(n, splits);
    SliceStartStep(n, splits, s);
    if blk0 >= n {
      ClipPastEnd(l, blk0);
      ClipPastEnd(l, blk0 + b);
    } else {
      SlicesPartition(n, splits, blk0, s);
      ClipInside(l, blk0, blk0 + b);
      if blk0 + b >= n {
        ClipPastEnd(l, n);
        ClipPastEnd(l, blk0 + b);
      }
    }
  }

  /** Stage 1, one program: the normalised partial output and log-sum-exp of split `s`. */
  method Stage1(l: Launch, q: Row, splits: nat, s: nat) returns (o: seq<Float>, lse: Float)
    requires ValidLaunch(l) && RowFits(q, l.kv.g) && splits >= 1 && s < splits
    ensures PartialOf(l.e, o, lse, SplitSegment(l, q, splits, s).scores, SplitSegment(l, q, splits, s).rows, l.kv.g.r)
  {
    hide BlockCount, BlocksPerSplit, FirstToken, SliceStart, Attend, LogSumExp, Mass, Scores, Lats, Laws,
         FDiv, FAdd, FLog, Represents;
    var n := BlockCount(l.kv.g, l.s);
    var blk0, blk1 := SliceStart(n, splits, s), SliceEnd(n, splits, s);
    var eMax, eSum, acc := ScanBlocks(l, q, blk0, blk1);
    CutStep(l, splits, s);
    ghost var lo, hi := Cut(l, splits, s), Cut(l, splits, s + 1);
    StandsLength(l, q, eMax, eSum, acc, lo, hi);
    if lo < hi { FinishRange(l, q, eMax, eSum, acc, lo, hi); }
    var empty := blk0 >= n;
    var positive := Less(Fin(0.0), eSum);
    o := if empty then Lift(Zeros(l.kv.g.r)) else DivideAll(acc, if positive then eSum else Fin(1.0));
    lse := if empty || !positive then NegInf else FAdd(eMax, FLog(l.e, eSum));
  }

  // ----- the two stages together

  ghost function SplitSegment(l: Launch, q: Row, splits: nat, s: nat): Segment
    requires ValidLaunch(l) && RowFits(q, l.kv.g) && splits >= 1
  {
    CutStep(l, splits, s);
    Segment(Scores(l, q, Cut(l, splits, s), Cut(l, splits, s + 1)), Lats(l, Cut(l, splits, s), Cut(l, splits, s + 1)))
  }

  ghost function SplitSegments(l: Launch, q: Row, splits: nat, k: nat): (segs: seq<Segment>)
    requires ValidLaunch(l) && RowFits(q, l.kv.g) && splits >= 1
    ensures |segs| == k && forall s | 0 <= s < k :: segs[s] == SplitSegment(l, q, splits, s)
  {
    hide SplitSegment, ValidLaunch;
    seq(k, s requires 0 <= s < k => SplitSegment(l, q, splits, s))
  }

  lemma CutBounded(l: Launch, splits: nat, s: nat)
    requires Readable(l.kv, l.s) && splits >= 1
    ensures Cut(l, splits, s) <= l.s.len
  {
  }

  /** The first `k` splits together cover exactly tokens `0 .. Cut(k)`. */
  lemma {:induction false} SplitsJoin(l: Launch, q: Row, splits: nat, k: nat)
    requires ValidLaunch(l) && RowFits(q, l.kv.g) && splits >= 1
    ensures Cut(l, splits, k) <= l.s.len
    ensures Join(SplitSegments(l, q, splits, k))
            == Segment(Scores(l, q, 0, Cut(l, splits, k)), Lats(l, 0, Cut(l, splits, k)))
  {
    hide Cut, Scores, Lats, Readable, Laws, SplitSegments;
    CutBounded(l, splits, k);
    if k == 0 {
      CutEnds(l, splits);
      assert Scores(l, q, 0, 0) == [] && Lats(l, 0, 0) == [];
    } else {
      SplitsJoin(l, q, splits, k - 1);
      CutStep(l, splits, k - 1);
      var segs := SplitSegments(l, q, splits, k);
      assert segs[..k - 1] == SplitSegments(l, q, splits, k - 1);
      TokensConcat(l, q, 0, Cut(l, splits, k - 1), Cut(l, splits, k));
    }
  }

  /** All splits together cover exactly the sequence. */
  lemma SplitsCover(l: Launch, q: Row, splits: nat)
    requires ValidLaunch(l) && RowFits(q, l.kv.g) && splits >= 1
    ensures Join(SplitSegments(l, q, splits, splits)) == Segment(Scores(l, q, 0, l.s.len), Lats(l, 0, l.s.len))
  {
    hide Cut, Scores, Lats, Readable, Laws, SplitSegments;
    SplitsJoin(l, q, splits, splits);
    CutEnds(l, splits);
  }

  /**
   Split-K is exact: for every split count, including more splits than blocks, the stored output
   and log-sum-exp are those of the single-pass kernel, softmax attention over all tokens. The
   stored values are finite exactly when the sequence is not empty.
   */
  method DecodeSplitK(l: Launch, q: Row, splits: nat) returns (o: seq<Float>, lse: Float)
    requires ValidLaunch(l) && RowFits(q, l.kv.g) && splits >= 1
    ensures l.s.len >= 1 ==>
              && Mass(l.e, Scores(l, q, 0, l.s.len)) > 0.0
              && o == Lift(Attend(l.e, Scores(l, q, 0, l.s.len), Lats(l, 0, l.s.len), l.kv.g.r))
              && lse == Fin(LogSumExp(l.e, Scores(l, q, 0, l.s.len)))
    ensures l.s.len >= 1 ==> IsDecode(l, q, o, lse)
    ensures l.s.len == 0 ==> |o| == l.kv.g.r && AllNaN(o) && lse == NaN
  {
    hide Scores, Lats, Readable, PartialOf, Cut, Laws, Attend, Mass, LogSumExp, SplitSegments, SplitSegment, IsDecode;
    var partO: seq<seq<Float>>, partLse: seq<Float> := [], [];
    ghost var segs := SplitSegments(l, q, splits, splits);
    SplitsCover(l, q, splits);
    var s := 0;
    while s < splits
      invariant s <= splits && |partO| == |partLse| == s
      invariant forall k | 0 <= k < s ::
                  PartialOf(l.e, partO[k], partLse[k], segs[k].scores, segs[k].rows, l.kv.g.r)
    {
      var ps, ls := Stage1(l, q, splits, s);
      partO, partLse := partO + [ps], partLse + [ls];
      s := s + 1;
    }
    o, lse := Stage2(l.e, partO, partLse, l.kv.g.r, segs);
    if l.s.len >= 1 { AttendIsDecode(l, q, o, lse); }
  }
}
