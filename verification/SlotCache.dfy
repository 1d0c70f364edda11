/**
 The builder's bookkeeping and the cache operations agree: the device lookup table that mirrors the
 slot table is one a cache run may have, taking or releasing a slot is an enabled operation, and a
 whole step of the builder is a legal run of flushes, discards and assignments.
 */
module SlotCache {
  import opened Vectors
  import opened MapSums
  import opened TilePipeline
  import opened DecodeMemory
  import opened DualCache
  import opened CacheRun
  import opened SlotLifecycle
  import opened SlotStep
  import opened SlotManager

  /** The lookup table sends no two blocks to one slot, and no block to a free slot. */
  lemma MirrorIsInjective(slotOf: map<int, int>, free: seq<int>, pool: nat, table: seq<int>)
    requires SlotsOk(slotOf, free, pool) && Mirrors(slotOf, table)
    ensures Injective(table)
    ensures forall x | x in free :: 0 <= x < pool && x !in table
    ensures forall b | 0 <= b < |table| :: table[b] < pool
  {
    forall x | x in free ensures 0 <= x < pool && x !in table {
      var i :| 0 <= i < |free| && free[i] == x;
      forall b | 0 <= b < |table| ensures table[b] != x { assert b in slotOf ==> slotOf[b] !in free; }
    }
    forall b | 0 <= b < |table| ensures table[b] < pool {}
  }

  /** Taking the last free slot for a block is an assignment that the cache allows. */
  lemma TakeIsAssign(kv: Kv, slotOf: map<int, int>, free: seq<int>, b: nat, x: Codec)
    requires ValidStore(kv) && SlotsOk(slotOf, free, |kv.poolLat|) && Mirrors(slotOf, kv.blockToSlot)
    requires b < |kv.blockToSlot| && b !in slotOf && free != []
    ensures var slot := free[|free| - 1];
            && slot >= 0 && Enabled(kv, Assign(b, slot), x)
            && Apply(kv, Assign(b, slot), x).blockToSlot == kv.blockToSlot[b := slot]
  {
    hide ValidStore, SlotsOk;
    MirrorIsInjective(slotOf, free, |kv.poolLat|, kv.blockToSlot);
    assert free[|free| - 1] in free;
  }

  /** Releasing a block is a discard that the cache allows; after a flush the lookup is the same. */
  lemma ReleaseIsDiscard(kv: Kv, slotOf: map<int, int>, free: seq<int>, b: nat, x: Codec)
    requires ValidStore(kv) && SlotsOk(slotOf, free, |kv.poolLat|) && Mirrors(slotOf, kv.blockToSlot)
    requires b < |kv.blockToSlot| && b in slotOf
    ensures Enabled(kv, Discard(b), x) && Apply(kv, Discard(b), x).blockToSlot == kv.blockToSlot[b := -1]
    ensures forall sCol, sRow | Enabled(kv, Flush(b, sCol, sRow), x) ::
              Apply(kv, Flush(b, sCol, sRow), x).blockToSlot == kv.blockToSlot[b := -1]
  {
    hide ValidStore, FlushRecord, ReplaceRecord, FlushFrame;
  }

  // ----- a whole step of the builder

  /** Distinct blocks of the table hold distinct slots of the pool. */
  ghost predicate Placed(slots: map<int, int>, kv: Kv) {
    && (forall b | b in slots :: 0 <= b < |kv.blockToSlot| && 0 <= slots[b] < |kv.poolLat|)
    && (forall b, c | b in slots && c in slots && slots[b] == slots[c] :: b == c)
  }

  /** The cache's lookup table shows the builder's slots. */
  ghost predicate Linked(slots: map<int, int>, kv: Kv) { Placed(slots, kv) && Mirrors(slots, kv.blockToSlot) }

  predicate IsRelease(op: Op) { op.Flush? || op.Discard? }

  /** Flushes and discards of distinct blocks, each of which the cache allows. */
  ghost predicate Releases(kv: Kv, rel: seq<Op>, x: Codec)
    requires ValidStore(kv)
  {
    && (forall i | 0 <= i < |rel| :: IsRelease(rel[i]) && Enabled(kv, rel[i], x))
    && (forall i, j | 0 <= i < j < |rel| :: rel[i].block != rel[j].block)
  }

  predicate FlushesBlock(ops: seq<Op>, b: int) { exists i :: 0 <= i < |ops| && ops[i].Flush? && ops[i].block == b }

  predicate DiscardsBlock(ops: seq<Op>, b: int) { exists i :: 0 <= i < |ops| && ops[i].Discard? && ops[i].block == b }

  predicate AssignsBlock(ops: seq<Op>, b: int) { exists i :: 0 <= i < |ops| && ops[i].Assign? && ops[i].block == b }

  predicate AssignsSlot(ops: seq<Op>, slot: int) { exists i :: 0 <= i < |ops| && ops[i].Assign? && ops[i].p == slot }

  predicate ReleasesBlock(ops: seq<Op>, b: int) { FlushesBlock(ops, b) || DiscardsBlock(ops, b) }

  /** What no builder operation changes. */
  ghost predicate SameShape(a: Kv, b: Kv) {
    a.g == b.g && a.half == b.half && |a.blockToSlot| == |b.blockToSlot| && |a.poolLat| == |b.poolLat|
  }

  /** One release clears its table entry and leaves the pool alone, so other releases stay enabled. */
  lemma ReleaseStep(st: State, op: Op, x: Codec)
    requires Good(st) && IsRelease(op) && Enabled(st.kv, op, x)
    ensures var kv := Step(st, op, x).kv;
            && SameShape(st.kv, kv) && kv.poolLat == st.kv.poolLat && kv.poolRope == st.kv.poolRope
            && op.block < |st.kv.blockToSlot| && kv.blockToSlot == st.kv.blockToSlot[op.block := -1]
  {
    hide ValidStore, FlushRecord, ReplaceRecord, FlushFrame, Track, ValidFrame, FrameRounds, RoundsWithin;
  }

  lemma ReleaseStaysEnabled(a: Kv, b: Kv, op: Op, x: Codec)
    requires ValidStore(a) && ValidStore(b) && IsRelease(op) && Enabled(a, op, x)
    requires SameShape(a, b) && a.poolLat == b.poolLat && a.poolRope == b.poolRope
    requires op.block < |b.blockToSlot| && a.blockToSlot[op.block] == b.blockToSlot[op.block]
    ensures Enabled(b, op, x)
  {
    hide ValidStore, ValidFrame, FrameRounds, RoundsWithin;
  }

  /** Releases of distinct blocks can run one after another, and clear exactly their table entries. */
  lemma {:induction false} ReleasesRun(st: State, rel: seq<Op>, x: Codec)
    requires Good(st) && Releases(st.kv, rel, x)
    ensures Legal(st, rel, x) && SameShape(st.kv, Run(st, rel, x).kv)
    ensures forall b | 0 <= b < |st.kv.blockToSlot| ::
              Run(st, rel, x).kv.blockToSlot[b] == if ReleasesBlock(rel, b) then -1 else st.kv.blockToSlot[b]
    decreases |rel|
  {
    hide Enabled, SlotGood, Step, ValidStore;
    if rel != [] {
      var next, rest := Step(st, rel[0], x), rel[1..];
      ReleaseStep(st, rel[0], x);
      StepKeepsGood(st, rel[0], x);
      forall i | 0 <= i < |rest| ensures IsRelease(rest[i]) && Enabled(next.kv, rest[i], x) {
        assert rest[i] == rel[i + 1];
        BlockInTable(st.kv, rest[i], x);
        ReleaseStaysEnabled(st.kv, next.kv, rest[i], x);
      }
      ReleasesRun(next, rest, x);
      forall b | 0 <= b < |st.kv.blockToSlot|
        ensures ReleasesBlock(rel, b) <==> b == rel[0].block || ReleasesBlock(rest, b)
      {
        ReleasesFirst(rel, b);
      }
    }
  }

  lemma BlockInTable(kv: Kv, op: Op, x: Codec)
    requires ValidStore(kv) && IsRelease(op) && Enabled(kv, op, x)
    ensures op.block < |kv.blockToSlot|
  {
    hide ValidStore, FlushFrame, ValidFrame, FrameRounds, RoundsWithin;
  }

  lemma ReleasesFirst(rel: seq<Op>, b: int)
    requires rel != [] && IsRelease(rel[0])
    ensures ReleasesBlock(rel, b) <==> b == rel[0].block || ReleasesBlock(rel[1..], b)
  {
    var rest := rel[1..];
    if ReleasesBlock(rest, b) {
      var i :| 0 <= i < |rest| && IsRelease(rest[i]) && rest[i].block == b;
      assert rel[i + 1] == rest[i];
    }
    if ReleasesBlock(rel, b) {
      var i :| 0 <= i < |rel| && IsRelease(rel[i]) && rel[i].block == b;
      if i > 0 { assert rest[i - 1] == rel[i]; }
    }
  }

  /** Assignments of distinct free slots to distinct blocks that hold none. */
  ghost predicate Placements(kv: Kv, asg: seq<Op>, x: Codec)
    requires ValidStore(kv)
  {
    && (forall i | 0 <= i < |asg| :: asg[i].Assign? && Enabled(kv, asg[i], x))
    && (forall i, j | 0 <= i < j < |asg| :: asg[i].block != asg[j].block && asg[i].p != asg[j].p)
  }

  lemma AssignStep(st: State, op: Op, x: Codec)
    requires Good(st) && op.Assign? && Enabled(st.kv, op, x)
    ensures var kv := Step(st, op, x).kv;
            && SameShape(st.kv, kv) && op.block < |st.kv.blockToSlot|
            && kv.blockToSlot == st.kv.blockToSlot[op.block := op.p]
  {
    hide ValidStore, ZeroRows, Track;
  }

  lemma AssignStaysEnabled(a: Kv, b: Kv, first: Op, op: Op, x: Codec)
    requires ValidStore(a) && ValidStore(b) && first.Assign? && op.Assign? && Enabled(a, op, x) && SameShape(a, b)
    requires first.block < |a.blockToSlot| && b.blockToSlot == a.blockToSlot[first.block := first.p]
    requires first.block != op.block && first.p != op.p
    ensures Enabled(b, op, x)
  {
    hide ValidStore;
    forall c | 0 <= c < |b.blockToSlot| ensures b.blockToSlot[c] != op.p {
      if c != first.block { assert b.blockToSlot[c] == a.blockToSlot[c]; }
    }
  }

  lemma {:induction false} PlacementsRun(st: State, asg: seq<Op>, x: Codec)
    requires Good(st) && Placements(st.kv, asg, x)
    ensures Legal(st, asg, x) && SameShape(st.kv, Run(st, asg, x).kv)
    ensures forall i | 0 <= i < |asg| ::
              asg[i].block < |st.kv.blockToSlot| && Run(st, asg, x).kv.blockToSlot[asg[i].block] == asg[i].p
    ensures forall b | 0 <= b < |st.kv.blockToSlot| && !AssignsBlock(asg, b) ::
              Run(st, asg, x).kv.blockToSlot[b] == st.kv.blockToSlot[b]
    decreases |asg|
  {
    hide Enabled, SlotGood, Step, ValidStore;
    if asg != [] {
      var next, rest := Step(st, asg[0], x), asg[1..];
      AssignStep(st, asg[0], x);
      StepKeepsGood(st, asg[0], x);
      forall i | 0 <= i < |rest| ensures rest[i].Assign? && Enabled(next.kv, rest[i], x) {
        assert rest[i] == asg[i + 1];
        AssignStaysEnabled(st.kv, next.kv, asg[0], rest[i], x);
      }
      PlacementsRun(next, rest, x);
      AssignsFirst(asg);
      forall i | 0 <= i < |asg|
        ensures asg[i].block < |st.kv.blockToSlot| && Run(st, asg, x).kv.blockToSlot[asg[i].block] == asg[i].p
      {
        if i > 0 { assert rest[i - 1] == asg[i]; }
      }
    }
  }

  lemma AssignsFirst(asg: seq<Op>)
    requires asg != [] && forall i | 0 <= i < |asg| :: asg[i].Assign?
    requires forall i, j | 0 <= i < j < |asg| :: asg[i].block != asg[j].block
    ensures !AssignsBlock(asg[1..], asg[0].block) && AssignsBlock(asg, asg[0].block)
    ensures forall b | AssignsBlock(asg[1..], b) :: AssignsBlock(asg, b)
  {
    var rest := asg[1..];
    forall b | AssignsBlock(rest, b) ensures AssignsBlock(asg, b) && b != asg[0].block {
      var i :| 0 <= i < |rest| && rest[i].Assign? && rest[i].block == b;
      assert asg[i + 1] == rest[i];
    }
  }

  /**
   Cache operations that carry out a step of the builder, in any order: the flushes and discards of
   its outcome, then an assignment for every block that gets a slot. Assigning zeroes the slot, and
   the slots zeroed are those the builder says.
   */
  ghost predicate CarriesOut(kv: Kv, slots: map<int, int>, o: Outcome, slots': map<int, int>,
                             rel: seq<Op>, asg: seq<Op>, x: Codec)
    requires ValidStore(kv)
  {
    && Releases(kv, rel, x)
    && (forall b :: FlushesBlock(rel, b) <==> b in o.flushed)
    && (forall b :: DiscardsBlock(rel, b) <==> b in o.dropped)
    && (forall i | 0 <= i < |asg| ::
        asg[i].Assign? && GetsSlot(slots, o, slots', asg[i].block) && asg[i].p == slots'[asg[i].block])
    && (forall i, j | 0 <= i < j < |asg| :: asg[i].block != asg[j].block)
    && (forall b | GetsSlot(slots, o, slots', b) :: AssignsBlock(asg, b))
    && (forall slot :: AssignsSlot(asg, slot) <==> slot in o.zeroed)
  }

  /** The outcome of a step, as far as slots are concerned. */
  ghost predicate SlotsMove(slots: map<int, int>, o: Outcome, slots': map<int, int>) {
    && (forall b | b in slots && b !in o.flushed && b !in o.dropped :: b in slots' && slots'[b] == slots[b])
    && (forall b | b in slots' :: b !in o.dropped)
    && (forall b | b in o.flushed || b in o.dropped :: b in slots)
    && ZeroedExactly(slots, o, slots')
  }

  lemma BuiltMoves(reqs: seq<Request>, group: nat, pool: nat, slots: map<int, int>, fill: map<int, int>,
                   o: Outcome, slots': map<int, int>, fill': map<int, int>)
    requires group >= 1 && Built(reqs, group, pool, slots, fill, o, slots', fill')
    ensures SlotsMove(slots, o, slots')
  {
    hide Needed, AllQueued, SharedPrefixes, BoundaryQueued, Queued, LeavesFill;
    forall b | b in slots' ensures b !in o.dropped { assert b in slots'.Keys; }
  }

  /** The table after the releases shows exactly the slots that stay. */
  lemma AfterReleases(slots: map<int, int>, o: Outcome, slots': map<int, int>, rel: seq<Op>, table: seq<int>,
                      table': seq<int>, b: int)
    requires SlotsMove(slots, o, slots') && Mirrors(slots, table) && |table| == |table'| && 0 <= b < |table|
    requires FlushesBlock(rel, b) <==> b in o.flushed
    requires DiscardsBlock(rel, b) <==> b in o.dropped
    requires table'[b] == if ReleasesBlock(rel, b) then -1 else table[b]
    ensures table'[b] == if b in slots' && !GetsSlot(slots, o, slots', b) then slots'[b] else -1
  {
    hide FlushesBlock, DiscardsBlock;
  }

  lemma AssignmentsFree(st: State, slots: map<int, int>, o: Outcome, slots': map<int, int>, asg: seq<Op>, x: Codec)
    requires Good(st) && Placed(slots', st.kv)
    requires forall b | 0 <= b < |st.kv.blockToSlot| ::
               st.kv.blockToSlot[b] == if b in slots' && !GetsSlot(slots, o, slots', b) then slots'[b] else -1
    requires forall i | 0 <= i < |asg| ::
               asg[i].Assign? && GetsSlot(slots, o, slots', asg[i].block) && asg[i].p == slots'[asg[i].block]
    requires forall i, j | 0 <= i < j < |asg| :: asg[i].block != asg[j].block
    ensures Placements(st.kv, asg, x)
  {
    hide ValidStore, SlotGood;
    forall i | 0 <= i < |asg| ensures asg[i].Assign? && Enabled(st.kv, asg[i], x) {
      var b := asg[i].block;
      forall c | 0 <= c < |st.kv.blockToSlot| ensures st.kv.blockToSlot[c] != asg[i].p {}
    }
  }

  /**
   However its operations are ordered, a whole step of the builder is a legal run of the cache, and
   leaves a lookup table that shows the builder's new slots.
   */
  lemma BuildIsLegal(st: State, slots: map<int, int>, o: Outcome, slots': map<int, int>,
                     rel: seq<Op>, asg: seq<Op>, x: Codec)
    requires Good(st) && Linked(slots, st.kv) && SlotsMove(slots, o, slots') && Placed(slots', st.kv)
    requires CarriesOut(st.kv, slots, o, slots', rel, asg, x)
    ensures Legal(st, rel + asg, x) && Linked(slots', Run(st, rel + asg, x).kv)
    ensures Good(Run(st, rel + asg, x)) && SameShape(st.kv, Run(st, rel + asg, x).kv)
  {
    hide ValidStore, SlotGood, Legal, Run, Enabled, SlotsMove, GetsSlot, FlushesBlock, DiscardsBlock, AssignsBlock;
    ReleasesRun(st, rel, x);
    RunKeepsGood(st, rel, x);
    var mid := Run(st, rel, x);
    forall b | 0 <= b < |mid.kv.blockToSlot|
      ensures mid.kv.blockToSlot[b] == if b in slots' && !GetsSlot(slots, o, slots', b) then slots'[b] else -1
    {
      AfterReleases(slots, o, slots', rel, st.kv.blockToSlot, mid.kv.blockToSlot, b);
    }
    AssignmentsFree(mid, slots, o, slots', asg, x);
    PlacementsRun(mid, asg, x);
    RunKeepsGood(mid, asg, x);
    RunConcat(st, rel, asg, x);
    var end := Run(mid, asg, x).kv;
    forall b | 0 <= b < |end.blockToSlot| ensures end.blockToSlot[b] == if b in slots' then slots'[b] else -1 {
      AssignedShows(slots, o, slots', asg, mid.kv.blockToSlot, end.blockToSlot, b);
    }
  }

  lemma AssignedShows(slots: map<int, int>, o: Outcome, slots': map<int, int>, asg: seq<Op>,
                      table: seq<int>, table': seq<int>, b: int)
    requires |table| == |table'| && 0 <= b < |table|
    requires table[b] == if b in slots' && !GetsSlot(slots, o, slots', b) then slots'[b] else -1
    requires forall i | 0 <= i < |asg| :: asg[i].Assign? && asg[i].block < |table'| && table'[asg[i].block] == asg[i].p
    requires forall i | 0 <= i < |asg| :: GetsSlot(slots, o, slots', asg[i].block) && asg[i].p == slots'[asg[i].block]
    requires GetsSlot(slots, o, slots', b) ==> AssignsBlock(asg, b)
    requires !AssignsBlock(asg, b) ==> table'[b] == table[b]
    ensures table'[b] == if b in slots' then slots'[b] else -1
  {
  }

  // ----- every step has such operations

  /** The elements of a set, each once. */
  lemma {:induction false} ListOf<T>(elems: set<T>) returns (list: seq<T>)
    ensures forall e :: e in list <==> e in elems
    ensures forall i, j | 0 <= i < j < |list| :: list[i] != list[j]
    decreases |elems|
  {
    list := [];
    if elems != {} {
      var e := Pick(elems);
      var rest := ListOf(elems - {e});
      list := rest + [e];
    }
  }

  /** The flush of each block in `flush` is one that the cache allows. */
  ghost predicate Flushable(kv: Kv, blocks: set<int>, flush: map<int, Op>, x: Codec)
    requires ValidStore(kv)
  {
    forall b | b in blocks :: b in flush && flush[b].Flush? && flush[b].block == b && Enabled(kv, flush[b], x)
  }

  /** Whatever the builder decides, operations that carry it out exist, if full blocks can be flushed. */
  lemma BuildHasOperations(kv: Kv, slots: map<int, int>, o: Outcome, slots': map<int, int>, flush: map<int, Op>,
                           x: Codec)
    returns (rel: seq<Op>, asg: seq<Op>)
    requires ValidStore(kv) && Linked(slots, kv) && SlotsMove(slots, o, slots') && Placed(slots', kv)
    requires Flushable(kv, o.flushed, flush, x) && o.flushed !! o.dropped
    ensures CarriesOut(kv, slots, o, slots', rel, asg, x)
  {
    hide ValidStore, Enabled;
    rel := ReleaseList(kv, slots, o, flush, x);
    asg := AssignList(kv, slots, o, slots');
  }

  lemma FlushList(kv: Kv, blocks: set<int>, flush: map<int, Op>, x: Codec) returns (ops: seq<Op>)
    requires ValidStore(kv) && Flushable(kv, blocks, flush, x)
    ensures forall i | 0 <= i < |ops| :: ops[i].Flush? && ops[i].block in blocks && Enabled(kv, ops[i], x)
    ensures forall i, j | 0 <= i < j < |ops| :: ops[i].block != ops[j].block
    ensures forall b | b in blocks :: FlushesBlock(ops, b)
  {
    hide ValidStore, Enabled;
    var list := ListOf(blocks);
    forall i | 0 <= i < |list|
      ensures list[i] in blocks && list[i] in flush && flush[list[i]].Flush? && flush[list[i]].block == list[i]
      ensures Enabled(kv, flush[list[i]], x)
    {
      var b := list[i];
      assert b in list;
      assert b in blocks;
    }
    ops := seq(|list|, i requires 0 <= i < |list| => flush[list[i]]);
    forall b | b in blocks ensures FlushesBlock(ops, b) {
      var i :| 0 <= i < |list| && list[i] == b;
      assert ops[i].Flush? && ops[i].block == b;
    }
  }

  lemma DiscardList(kv: Kv, slots: map<int, int>, blocks: set<int>, x: Codec) returns (ops: seq<Op>)
    requires ValidStore(kv) && Linked(slots, kv) && forall b | b in blocks :: b in slots
    ensures forall i | 0 <= i < |ops| :: ops[i].Discard? && ops[i].block in blocks && Enabled(kv, ops[i], x)
    ensures forall i, j | 0 <= i < j < |ops| :: ops[i].block != ops[j].block
    ensures forall b | b in blocks :: DiscardsBlock(ops, b)
  {
    hide ValidStore;
    var list := ListOf(blocks);
    forall i | 0 <= i < |list| ensures list[i] in blocks && list[i] >= 0 && Mapped(kv, list[i]) {
      var b := list[i];
      assert b in list;
      assert b in slots;
    }
    ops := seq(|list|, i requires 0 <= i < |list| => Discard(list[i]));
    forall b | b in blocks ensures DiscardsBlock(ops, b) {
      var i :| 0 <= i < |list| && list[i] == b;
      assert ops[i].Discard? && ops[i].block == b;
    }
  }

  lemma ReleaseList(kv: Kv, slots: map<int, int>, o: Outcome, flush: map<int, Op>, x: Codec) returns (rel: seq<Op>)
    requires ValidStore(kv) && Linked(slots, kv) && forall b | b in o.dropped :: b in slots
    requires Flushable(kv, o.flushed, flush, x) && o.flushed !! o.dropped
    ensures Releases(kv, rel, x)
    ensures forall b :: FlushesBlock(rel, b) <==> b in o.flushed
    ensures forall b :: DiscardsBlock(rel, b) <==> b in o.dropped
  {
    hide ValidStore, Enabled;
    var f := FlushList(kv, o.flushed, flush, x);
    var d := DiscardList(kv, slots, o.dropped, x);
    rel := f + d;
    forall b | b in o.flushed ensures FlushesBlock(rel, b) {
      var i :| 0 <= i < |f| && f[i].Flush? && f[i].block == b;
      assert rel[i] == f[i];
    }
    forall b | b in o.dropped ensures DiscardsBlock(rel, b) {
      var i :| 0 <= i < |d| && d[i].Discard? && d[i].block == b;
      assert rel[|f| + i] == d[i];
    }
  }

  lemma AssignList(kv: Kv, slots: map<int, int>, o: Outcome, slots': map<int, int>) returns (asg: seq<Op>)
    requires Placed(slots', kv)
    ensures forall i | 0 <= i < |asg| ::
              asg[i].Assign? && GetsSlot(slots, o, slots', asg[i].block) && asg[i].p == slots'[asg[i].block]
    ensures forall i, j | 0 <= i < j < |asg| :: asg[i].block != asg[j].block
    ensures forall b | GetsSlot(slots, o, slots', b) :: AssignsBlock(asg, b)
    ensures ZeroedExactly(slots, o, slots') ==> forall slot :: AssignsSlot(asg, slot) <==> slot in o.zeroed
  {
    var blocks := set b | b in slots'.Keys && GetsSlot(slots, o, slots', b);
    var a := ListOf(blocks);
    forall i | 0 <= i < |a| ensures a[i] in blocks { assert a[i] in a; }
    asg := seq(|a|, i requires 0 <= i < |a| => Assign(a[i], slots'[a[i]]));
    forall b | GetsSlot(slots, o, slots', b) ensures AssignsBlock(asg, b) {
      assert b in blocks;
      var i :| 0 <= i < |a| && a[i] == b;
      assert asg[i].Assign?;
    }
    if ZeroedExactly(slots, o, slots') {
      forall slot ensures AssignsSlot(asg, slot) <==> slot in o.zeroed {
        ZeroedAreAssigned(slots, o, slots', asg, slot);
      }
    }
  }

  lemma ZeroedAreAssigned(slots: map<int, int>, o: Outcome, slots': map<int, int>, asg: seq<Op>, slot: int)
    requires ZeroedExactly(slots, o, slots')
    requires forall i | 0 <= i < |asg| ::
               asg[i].Assign? && GetsSlot(slots, o, slots', asg[i].block) && asg[i].p == slots'[asg[i].block]
    requires forall b | GetsSlot(slots, o, slots', b) :: AssignsBlock(asg, b)
    ensures AssignsSlot(asg, slot) <==> slot in o.zeroed
  {
    hide GetsSlot;
    if slot in o.zeroed {
      var k :| 0 <= k < |o.zeroed| && o.zeroed[k] == slot;
      assert GivesSlot(slots, o, slots', o.zeroed[k]);
      var b :| GetsSlotAt(slots, o, slots', b, o.zeroed[k]);
      assert AssignsBlock(asg, b);
    }
  }

  /** The pool's own tables are linked to a cache whose lookup table is the device table. */
  lemma PoolIsLinked(kv: Kv, slotOf: map<int, int>, free: seq<int>, table: seq<int>)
    requires SlotsOk(slotOf, free, |kv.poolLat|) && Mirrors(slotOf, table) && kv.blockToSlot == table
    requires forall b | b in slotOf :: 0 <= b < |table|
    ensures Linked(slotOf, kv)
  {
  }
}
