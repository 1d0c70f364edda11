/**
 What a run of cache operations leaves at a slot, read off the operations themselves: the last row
 scattered to it, exactly, or within the bound of the one flush that followed.
 */
module CacheHistory {
  import opened Vectors
  import opened TileRecord
  import opened TilePipeline
  import opened AttentionError
  import opened DualCache
  import opened CacheRun

  /** The state before operation `j` of a run. */
  ghost function StateAt(st: State, ops: seq<Op>, x: Codec, j: nat): State
    requires Legal(st, ops, x) && j <= |ops|
    decreases j
  {
    if j == 0 then st else StateAt(Step(st, ops[0], x), ops[1..], x, j - 1)
  }

  /** The operation may change what slot `s` reads other than by flushing its block. */
  predicate Disturbs(op: Op, s: nat, group: nat)
    requires group >= 1
  {
    match op
    case Scatter(_, slot) => slot == s
    case Assign(block, _) => block == s / group
    case Flush(_, _, _) => false
    case Discard(block) => block == s / group
  }

  predicate Flushes(op: Op, s: nat, group: nat)
    requires group >= 1
  {
    op.Flush? && op.block == s / group
  }

  predicate Quiet(ops: seq<Op>, from: nat, s: nat, group: nat)
    requires group >= 1
  {
    forall k | from <= k < |ops| :: !Disturbs(ops[k], s, group)
  }

  predicate NeverFlushes(ops: seq<Op>, from: nat, s: nat, group: nat)
    requires group >= 1
  {
    forall k | from <= k < |ops| :: !Flushes(ops[k], s, group)
  }

  lemma StepGeometry(st: State, op: Op, x: Codec)
    requires Good(st) && Enabled(st.kv, op, x)
    ensures Step(st, op, x).kv.g == st.kv.g && Step(st, op, x).kv.half == st.kv.half
  {
    hide ValidStore, ReplaceRecord, SetCell, FlushRecord, ZeroRows, FlushFrame, Track;
    StoreGroup(st.kv);
    if op.Scatter? { ScatterKeepsShape(st.kv, op.row, op.slot); }
  }

  /** One operation that does not disturb a slot keeps its entry, or flushes it. */
  lemma StepEntry(st: State, op: Op, x: Codec, s: nat)
    requires Good(st) && Enabled(st.kv, op, x) && s in st.last && st.kv.g.group >= 1
    requires !Disturbs(op, s, st.kv.g.group)
    ensures var t := Step(st, op, x);
            && s in t.last && t.kv.g == st.kv.g
            && (if Flushes(op, s, st.kv.g.group) then
                  && !Pooled(t.kv, s)
                  && t.last[s] == FlushedEntry(st.kv, FlushFrame(st.kv, op.block, op.sCol, op.sRow), x, st.last[s],
                                               PosOf(st.kv, s))
                else t.last[s] == st.last[s] && Pooled(t.kv, s) == Pooled(st.kv, s))
  {
    hide ValidStore, ReplaceRecord, SetCell, FlushRecord, ZeroRows, FlushFrame, FlushedEntry, RowWithin, GatherRow,
         ValidFrame, FrameRounds, RoundsWithin;
    StepGeometry(st, op, x);
    assert SlotGood(st.kv, s, st.last[s]);
    if op.Scatter? { ScatterKeepsShape(st.kv, op.row, op.slot); }
  }

  /** A block without a slot is not flushed before it is assigned one. */
  lemma {:induction false} UnpooledStays(st: State, ops: seq<Op>, x: Codec, s: nat)
    requires Good(st) && Legal(st, ops, x) && s in st.last && st.kv.g.group >= 1 && !Pooled(st.kv, s)
    requires Quiet(ops, 0, s, st.kv.g.group)
    ensures NeverFlushes(ops, 0, s, st.kv.g.group)
    decreases |ops|
  {
    hide ValidStore, Step, SlotGood, FlushedEntry, FlushFrame;
    if ops != [] {
      var next := Step(st, ops[0], x);
      NotFlushed(st, ops[0], x, s);
      StepEntry(st, ops[0], x, s);
      StepKeepsGood(st, ops[0], x);
      assert Quiet(ops[1..], 0, s, st.kv.g.group);
      UnpooledStays(next, ops[1..], x, s);
      forall k | 0 <= k < |ops| ensures !Flushes(ops[k], s, st.kv.g.group) {
        if k > 0 { assert ops[1..][k - 1] == ops[k]; }
      }
    }
  }

  lemma NotFlushed(st: State, op: Op, x: Codec, s: nat)
    requires Good(st) && Enabled(st.kv, op, x) && s in st.last && st.kv.g.group >= 1 && !Pooled(st.kv, s)
    ensures !Flushes(op, s, st.kv.g.group)
  {
    hide ValidStore, RowWithin, GatherRow, ValidFrame, FrameRounds, RoundsWithin, FlushFrame;
    assert SlotGood(st.kv, s, st.last[s]);
  }

  /** Entry `e` is what the flush at operation `k` makes of entry `was`. */
  ghost predicate FlushedAt(st: State, ops: seq<Op>, x: Codec, s: nat, k: nat, was: Entry, e: Entry)
    requires Legal(st, ops, x) && k < |ops| && ops[k].Flush?
  {
    var kv := StateAt(st, ops, x, k).kv;
    && ValidStore(kv) && Enabled(kv, ops[k], x)
    && e == FlushedEntry(kv, FlushFrame(kv, ops[k].block, ops[k].sCol, ops[k].sRow), x, was, PosOf(kv, s))
  }

  /** Over a run that does not disturb a slot, its entry stays, or is what its one flush makes of it. */
  lemma {:induction false} RunEntry(st: State, ops: seq<Op>, x: Codec, s: nat)
    requires Good(st) && Legal(st, ops, x) && s in st.last && st.kv.g.group >= 1
    requires Quiet(ops, 0, s, st.kv.g.group)
    ensures var t := Run(st, ops, x);
            && t.kv.g == st.kv.g && s in t.last && t.last[s].row == st.last[s].row
            && (NeverFlushes(ops, 0, s, st.kv.g.group) ==>
                t.last[s] == st.last[s] && Pooled(t.kv, s) == Pooled(st.kv, s))
            && (forall k | 0 <= k < |ops| && Flushes(ops[k], s, st.kv.g.group) ::
                !Pooled(t.kv, s) && FlushedAt(st, ops, x, s, k, st.last[s], t.last[s]))
    decreases |ops|
  {
    hide ValidStore, Step, SlotGood, FlushedEntry, FlushFrame, FlushedAt, Enabled;
    if ops != [] {
      var next, rest, g := Step(st, ops[0], x), ops[1..], st.kv.g.group;
      StepEntry(st, ops[0], x, s);
      StepKeepsGood(st, ops[0], x);
      assert Quiet(rest, 0, s, g) by {
        forall k | 0 <= k < |rest| ensures !Disturbs(rest[k], s, g) { assert rest[k] == ops[k + 1]; }
      }
      RunEntry(next, rest, x, s);
      var t := Run(next, rest, x);
      if Flushes(ops[0], s, g) {
        UnpooledStays(next, rest, x, s);
        FlushedFirst(st, ops, x, s);
        FlushedRow(st, ops[0], x, s);
      }
      forall k | 0 <= k < |ops| && Flushes(ops[k], s, g)
        ensures !Pooled(t.kv, s) && FlushedAt(st, ops, x, s, k, st.last[s], t.last[s])
      {
        if k > 0 {
          assert rest[k - 1] == ops[k];
          assert FlushedAt(next, rest, x, s, k - 1, next.last[s], t.last[s]);
          FlushedLater(st, ops, x, s, k, next.last[s], t.last[s]);
        }
      }
      assert NeverFlushes(ops, 0, s, g) ==> NeverFlushes(rest, 0, s, g);
    }
  }

  lemma FlushedFirst(st: State, ops: seq<Op>, x: Codec, s: nat)
    requires Good(st) && Legal(st, ops, x) && ops != [] && s in st.last && st.kv.g.group >= 1
    requires Flushes(ops[0], s, st.kv.g.group)
    ensures Enabled(st.kv, ops[0], x)
    ensures FlushedAt(st, ops, x, s, 0, st.last[s], Step(st, ops[0], x).last[s])
  {
    hide ValidStore, RowWithin, GatherRow, FlushedEntry, FlushFrame, ValidFrame, FrameRounds, RoundsWithin;
    StepEntry(st, ops[0], x, s);
  }

  lemma FlushedRow(st: State, op: Op, x: Codec, s: nat)
    requires Good(st) && Enabled(st.kv, op, x) && s in st.last && st.kv.g.group >= 1 && Flushes(op, s, st.kv.g.group)
    ensures s in Step(st, op, x).last && Step(st, op, x).last[s].row == st.last[s].row
  {
    hide ValidStore, RowWithin, GatherRow, ValidFrame, FrameRounds, RoundsWithin, FlushFrame;
    StepEntry(st, op, x, s);
  }

  lemma FlushedLater(st: State, ops: seq<Op>, x: Codec, s: nat, k: nat, was: Entry, e: Entry)
    requires Legal(st, ops, x) && 0 < k < |ops| && ops[k].Flush?
    requires FlushedAt(Step(st, ops[0], x), ops[1..], x, s, k - 1, was, e)
    ensures FlushedAt(st, ops, x, s, k, was, e)
  {
    hide ValidStore, Step, Enabled, FlushedEntry, FlushFrame;
  }

  /** Operation `j` scattered `row` to the pooled slot `s`, and nothing disturbed the slot afterwards. */
  ghost predicate Wrote(st: State, ops: seq<Op>, x: Codec, j: nat, row: Row, s: nat)
    requires Legal(st, ops, x) && st.kv.g.group >= 1
  {
    && j < |ops| && ops[j] == Scatter(row, s)
    && StateAt(st, ops, x, j).kv.g.group >= 1 && Pooled(StateAt(st, ops, x, j).kv, s)
    && Quiet(ops, j + 1, s, st.kv.g.group)
  }

  /** The bounds that the flush at operation `k` gives the rows of its block. */
  ghost predicate WithinFlush(st: State, ops: seq<Op>, x: Codec, k: nat, stored: Row, row: Row, t: nat)
    requires Legal(st, ops, x) && k < |ops| && ops[k].Flush?
  {
    var kv := StateAt(st, ops, x, k).kv;
    && ValidStore(kv) && Enabled(kv, ops[k], x) && t < kv.g.group
    && |stored.lat| == |row.lat| == kv.g.r && |stored.rope| == |row.rope| == kv.g.rope
    && var f := FlushFrame(kv, ops[k].block, ops[k].sCol, ops[k].sRow);
       && (forall c | 0 <= c < kv.g.r :: Abs(stored.lat[c] - row.lat[c]) <= StoredBound(f, kv.g, x.u, t, c))
       && (forall c | 0 <= c < kv.g.rope :: Abs(stored.rope[c] - row.rope[c]) <= Times(x.u, Abs(f.rope[t][c])))
  }

  /** The history at the end of a run records the last undisturbed scatter, and what flushed it. */
  lemma {:induction false} WroteEntry(st: State, ops: seq<Op>, x: Codec, j: nat, row: Row, s: nat)
    requires Good(st) && Legal(st, ops, x) && st.kv.g.group >= 1 && Wrote(st, ops, x, j, row, s)
    ensures var t, was := Run(st, ops, x), Entry(row, Zeros(st.kv.g.r), Zeros(st.kv.g.rope));
            && t.kv.g == st.kv.g && s in t.last && t.last[s].row == row
            && (NeverFlushes(ops, j + 1, s, st.kv.g.group) ==> t.last[s] == was && Pooled(t.kv, s))
            && (forall k | j < k < |ops| && Flushes(ops[k], s, st.kv.g.group) ::
                !Pooled(t.kv, s) && FlushedAt(st, ops, x, s, k, was, t.last[s]))
    decreases |ops|
  {
    hide ValidStore, Step, SlotGood, FlushedEntry, FlushFrame, FlushedAt, Enabled, Zeros;
    var next, rest, g := Step(st, ops[0], x), ops[1..], st.kv.g.group;
    var t, was := Run(next, rest, x), Entry(row, Zeros(st.kv.g.r), Zeros(st.kv.g.rope));
    StepGeometry(st, ops[0], x);
    StepKeepsGood(st, ops[0], x);
    if j == 0 {
      ScatterRecords(st, row, s, x);
      assert Quiet(rest, 0, s, g) by {
        forall k | 0 <= k < |rest| ensures !Disturbs(rest[k], s, g) { assert rest[k] == ops[k + 1]; }
      }
      RunEntry(next, rest, x, s);
      if NeverFlushes(ops, 1, s, g) {
        forall k | 0 <= k < |rest| ensures !Flushes(rest[k], s, g) { assert rest[k] == ops[k + 1]; }
      }
    } else {
      WroteLater(st, ops, x, j, row, s);
      WroteEntry(next, rest, x, j - 1, row, s);
      if NeverFlushes(ops, j + 1, s, g) {
        forall k | j <= k < |rest| ensures !Flushes(rest[k], s, g) { assert rest[k] == ops[k + 1]; }
      }
    }
    forall k | j < k < |ops| && Flushes(ops[k], s, g)
      ensures !Pooled(t.kv, s) && FlushedAt(st, ops, x, s, k, was, t.last[s])
    {
      assert rest[k - 1] == ops[k];
      FlushedLater(st, ops, x, s, k, was, t.last[s]);
    }
  }

  lemma ScatterRecords(st: State, row: Row, s: nat, x: Codec)
    requires Good(st) && st.kv.g.group >= 1 && Pooled(st.kv, s) && Enabled(st.kv, Scatter(row, s), x)
    ensures var t := Step(st, Scatter(row, s), x);
            && t.kv.g == st.kv.g && s in t.last && t.last[s] == Entry(row, Zeros(st.kv.g.r), Zeros(st.kv.g.rope))
            && Pooled(t.kv, s)
  {
    hide ValidStore, SlotGood, SetCell;
    StepGeometry(st, Scatter(row, s), x);
    ScatterKeepsShape(st.kv, row, s);
  }

  lemma WroteLater(st: State, ops: seq<Op>, x: Codec, j: nat, row: Row, s: nat)
    requires Good(st) && Legal(st, ops, x) && st.kv.g.group >= 1 && j > 0 && Wrote(st, ops, x, j, row, s)
    requires Step(st, ops[0], x).kv.g == st.kv.g
    ensures Wrote(Step(st, ops[0], x), ops[1..], x, j - 1, row, s)
  {
    hide ValidStore, Step, SlotGood, Enabled, Pooled;
    var rest := ops[1..];
    forall k | j <= k < |rest| ensures !Disturbs(rest[k], s, st.kv.g.group) { assert rest[k] == ops[k + 1]; }
  }

  /**
   Over every run: a slot gathers exactly the last row scattered to it, as long as its block is not
   flushed; after a flush every latent entry is within the flush's half step and rounding slack.
   */
  lemma LastWriteReads(st: State, ops: seq<Op>, x: Codec, j: nat, row: Row, s: nat)
    requires Good(st) && Legal(st, ops, x) && st.kv.g.group >= 1 && Wrote(st, ops, x, j, row, s)
    ensures var t := Run(st, ops, x);
            && ValidStore(t.kv) && InStore(t.kv, s)
            && (NeverFlushes(ops, j + 1, s, st.kv.g.group) ==> GatherRow(t.kv, s) == row)
            && (forall k | j < k < |ops| && Flushes(ops[k], s, st.kv.g.group) ::
                WithinFlush(st, ops, x, k, GatherRow(t.kv, s), row, s % st.kv.g.group))
  {
    hide Step, FlushedAt, Enabled, Zeros, WithinFlush, Wrote, Run, Legal, GatherRow, NeverFlushes, ValidStore;
    WroteEntry(st, ops, x, j, row, s);
    RunKeepsGood(st, ops, x);
    var t, was := Run(st, ops, x), Entry(row, Zeros(st.kv.g.r), Zeros(st.kv.g.rope));
    assert SlotGood(t.kv, s, t.last[s]);
    forall k | j < k < |ops| && Flushes(ops[k], s, st.kv.g.group)
      ensures WithinFlush(st, ops, x, k, GatherRow(t.kv, s), row, s % st.kv.g.group)
    {
      StateGeometry(st, ops, x, k);
      FlushedWithin(st, ops, x, k, s, was, t.last[s], GatherRow(t.kv, s));
    }
  }

  lemma {:induction false} StateGeometry(st: State, ops: seq<Op>, x: Codec, k: nat)
    requires Good(st) && Legal(st, ops, x) && k <= |ops|
    ensures StateAt(st, ops, x, k).kv.g == st.kv.g
    decreases k
  {
    hide ValidStore, Step, SlotGood, Enabled;
    if k > 0 {
      StepGeometry(st, ops[0], x);
      StepKeepsGood(st, ops[0], x);
      StateGeometry(Step(st, ops[0], x), ops[1..], x, k - 1);
    }
  }

  lemma FlushedWithin(st: State, ops: seq<Op>, x: Codec, k: nat, s: nat, was: Entry, e: Entry, stored: Row)
    requires Legal(st, ops, x) && k < |ops| && ops[k].Flush? && FlushedAt(st, ops, x, s, k, was, e)
    requires StateAt(st, ops, x, k).kv.g == st.kv.g && st.kv.g.group >= 1
    requires RowWithin(stored, e.row, e.lat, e.rope)
    ensures WithinFlush(st, ops, x, k, stored, e.row, s % st.kv.g.group)
  {
    hide ValidStore, FlushFrame, StoredBound, Step, StateAt, Abs, Times, FrameRounds, RoundsWithin;
  }

  // ----- runs one after another

  /** The states along a run of two lists of operations. */
  lemma {:induction false} StateConcat(st: State, a: seq<Op>, b: seq<Op>, x: Codec, j: nat)
    requires Legal(st, a, x) && Legal(Run(st, a, x), b, x) && j <= |a| + |b|
    ensures Legal(st, a + b, x)
    ensures StateAt(st, a + b, x, j) ==
              if j <= |a| then StateAt(st, a, x, j) else StateAt(Run(st, a, x), b, x, j - |a|)
    ensures j == |a| ==> StateAt(st, a, x, j) == Run(st, a, x)
    decreases |a|
  {
    hide Step, Enabled, ValidStore;
    RunConcat(st, a, b, x);
    if a == [] {
      assert a + b == b;
    } else if j > 0 {
      assert (a + b)[1..] == a[1..] + b;
      StateConcat(Step(st, a[0], x), a[1..], b, x, j - 1);
    }
  }

  /** Later operations that leave a slot alone do not undo what was written there. */
  lemma WroteExtends(st: State, a: seq<Op>, b: seq<Op>, x: Codec, j: nat, row: Row, s: nat)
    requires Legal(st, a, x) && Legal(Run(st, a, x), b, x) && st.kv.g.group >= 1
    requires Wrote(st, a, x, j, row, s) && Quiet(b, 0, s, st.kv.g.group)
    ensures Legal(st, a + b, x) && Wrote(st, a + b, x, j, row, s)
  {
    hide Legal, Run, StateAt, Pooled, Disturbs;
    StateConcat(st, a, b, x, j);
    forall k | j + 1 <= k < |a + b| ensures !Disturbs((a + b)[k], s, st.kv.g.group) {
      if k < |a| { assert (a + b)[k] == a[k]; } else { assert (a + b)[k] == b[k - |a|]; }
    }
  }

  /** What a later run wrote, the whole run wrote. */
  lemma WroteAfter(st: State, a: seq<Op>, b: seq<Op>, x: Codec, j: nat, row: Row, s: nat)
    requires Legal(st, a, x) && Legal(Run(st, a, x), b, x) && st.kv.g.group >= 1 && Run(st, a, x).kv.g == st.kv.g
    requires Wrote(Run(st, a, x), b, x, j, row, s)
    ensures Legal(st, a + b, x) && Wrote(st, a + b, x, |a| + j, row, s)
  {
    hide Legal, Run, StateAt, Pooled, Disturbs;
    StateConcat(st, a, b, x, |a| + j);
    StateStart(Run(st, a, x), b, x);
    assert (a + b)[|a| + j] == b[j];
    forall k | |a| + j + 1 <= k < |a + b| ensures !Disturbs((a + b)[k], s, st.kv.g.group) {
      assert (a + b)[k] == b[k - |a|];
    }
  }

  lemma StateStart(st: State, ops: seq<Op>, x: Codec)
    requires Legal(st, ops, x)
    ensures StateAt(st, ops, x, 0) == st
  {
  }
}
