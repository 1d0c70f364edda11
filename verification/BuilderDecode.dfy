/**
 The decode over a cache that the slot builder drives. A turn of the engine runs the builder, or
 skips it, and then scatters the new tokens of every scheduled request. For a request that is
 scheduled in every turn, all its tokens stay readable, so that its decode is within the bound of
 full-precision attention however turns, flushes and other requests interleave.
 */
module BuilderDecode {
  import opened Vectors
  import opened Floats
  import opened Softmax
  import opened TileRecord
  import opened DecodeMemory
  import opened TileDecode
  import opened RotatedFrame
  import opened DualCache
  import opened CacheRun
  import opened CacheKernels
  import opened CacheHistory
  import opened RunDecode
  import opened SlotLifecycle
  import opened SlotStep
  import opened SlotRun
  import opened SlotCache

  /** One turn: its requests, what the builder did, the operations that did it, and the scatter launch. */
  datatype Turn = Turn(reqs: seq<Request>, out: Outcome, rel: seq<Op>, asg: seq<Op>, batch: Batch)

  /** The operations of a scatter launch. */
  ghost function Scatters(b: Batch): (ops: seq<Op>)
    requires |b.rows| == |b.slots|
    ensures |ops| == |b.rows| && forall i | 0 <= i < |ops| :: ops[i] == Scatter(b.rows[i], b.slots[i])
  {
    BatchOps(b, InOrder(|b.rows|))
  }

  ghost function TurnOps(t: Turn): seq<Op>
    requires |t.batch.rows| == |t.batch.slots|
  {
    t.rel + t.asg + Scatters(t.batch)
  }

  /** The block of the last of `len` tokens, and the block where the next one goes. */
  function Tail(len: nat, group: nat): nat
    requires group >= 1 && len >= 1
  {
    (len - 1) / group
  }

  function Boundary(done: nat, group: nat): nat
    requires group >= 1
  {
    done / group
  }

  /** The global slot of token `p` of a request with the given block table. */
  function SlotIn(table: seq<int>, group: nat, p: nat): int
    requires group >= 1 && Boundary(p, group) < |table|
  {
    table[Boundary(p, group)] * group + p % group
  }

  /** Token `p` is new in this turn and goes to a valid block of request `r`. */
  predicate NewToken(reqs: seq<Request>, group: nat, r: nat, p: nat)
    requires group >= 1
  {
    r < |reqs| && Committed(reqs[r]) <= p < reqs[r].len && WritesAt(reqs, group, r, Boundary(p, group))
  }

  predicate GoesTo(reqs: seq<Request>, group: nat, r: nat, p: nat, slot: int)
    requires group >= 1
  {
    NewToken(reqs, group, r, p) && slot == SlotIn(reqs[r].row, group, p)
  }

  /** Every slot of the launch is padding or belongs to a new token of some request. */
  ghost predicate NamesNewTokens(b: Batch, reqs: seq<Request>, group: nat)
    requires group >= 1
  {
    forall i | 0 <= i < |b.slots| && b.slots[i] >= 0 :: exists r: nat, p: nat :: GoesTo(reqs, group, r, p, b.slots[i])
  }

  /** The turn from cache state `st` and builder state `s`, apart from the cache state it leads to. */
  ghost predicate TurnFrom(group: nat, pool: nat, x: Codec, s: Snap, st: State, t: Turn, s': Snap)
    requires group >= 1 && ValidStore(st.kv)
  {
    && Orderly(group, t.reqs) && Advanced(group, pool, s, t.reqs, t.out, s') && !t.out.exhausted
    && Placed(s'.slots, st.kv) && CarriesOut(st.kv, s.slots, t.out, s'.slots, t.rel, t.asg, x)
    && DualCache.ValidBatch(t.batch, st.kv.g) && DistinctSlots(t.batch) && NamesNewTokens(t.batch, t.reqs, group)
    && (SkipGuard(s.prev, t.reqs, group) ==> |s.built| == |t.reqs| && TailsKept(s.built, t.reqs, group))
  }

  /** What holds between turns. */
  ghost predicate Settled(group: nat, pool: nat, s: Snap, st: State)
    requires group >= 1
  {
    && Good(st) && st.kv.g.group == group && Linked(s.slots, st.kv)
    && Sound(group, s) && Current(group, pool, s) && Scheduled(s.built)
  }

  lemma AdvancedMoves(group: nat, pool: nat, s: Snap, reqs: seq<Request>, o: Outcome, s': Snap)
    requires group >= 1 && Advanced(group, pool, s, reqs, o, s')
    ensures SlotsMove(s.slots, o, s'.slots)
  {
    hide Built, SkipGuard, Written;
    if !SkipGuard(s.prev, reqs, group) {
      BuiltMoves(reqs, group, pool, s.slots, s.fill, o, s'.slots, s'.fill);
    }
  }

  /** A turn is always a legal run of cache operations, and leaves the tables linked. */
  lemma TurnIsLegal(group: nat, pool: nat, x: Codec, s: Snap, st: State, t: Turn, s': Snap)
    requires group >= 1 && Good(st) && Linked(s.slots, st.kv) && TurnFrom(group, pool, x, s, st, t, s')
    ensures Legal(st, t.rel + t.asg, x)
    ensures var mid := Run(st, t.rel + t.asg, x);
            && Good(mid) && SameShape(st.kv, mid.kv) && Linked(s'.slots, mid.kv) && Legal(mid, Scatters(t.batch), x)
    ensures Legal(st, TurnOps(t), x)
    ensures var end := Run(st, TurnOps(t), x);
            Good(end) && SameShape(st.kv, end.kv) && Linked(s'.slots, end.kv)
  {
    hide ValidStore, SlotGood, Legal, Run, CarriesOut, Linked, Advanced, Orderly, NamesNewTokens, TailsKept,
         ScatterRun, InOrder, SlotsMove;
    AdvancedMoves(group, pool, s, t.reqs, t.out, s');
    BuildIsLegal(st, s.slots, t.out, s'.slots, t.rel, t.asg, x);
    var mid := Run(st, t.rel + t.asg, x);
    ProgramsInOrder(|t.batch.rows|);
    BatchIsRun(mid, t.batch, InOrder(|t.batch.rows|), x);
    RunKeepsGood(mid, Scatters(t.batch), x);
    RunConcat(st, t.rel + t.asg, Scatters(t.batch), x);
    LinkedStays(s'.slots, mid.kv, ScatterRun(mid.kv, t.batch, InOrder(|t.batch.rows|)));
  }

  lemma ProgramsInOrder(n: nat)
    ensures IsProgramList(InOrder(n), n)
  {
  }

  lemma LinkedStays(slots: map<int, int>, a: Kv, b: Kv)
    requires Linked(slots, a) && a.blockToSlot == b.blockToSlot && |a.poolLat| == |b.poolLat|
    ensures Linked(slots, b)
  {
  }

  /** After a turn, every block it writes holds a slot. */
  lemma TurnCovers(group: nat, pool: nat, x: Codec, s: Snap, st: State, t: Turn, s': Snap)
    requires group >= 1 && Settled(group, pool, s, st) && TurnFrom(group, pool, x, s, st, t, s')
    ensures Covered(s'.slots, t.reqs, group) && Current(group, pool, s') && Scheduled(s'.built)
    ensures Sound(group, s')
  {
    hide Needed, Linked, CarriesOut, Placed, NamesNewTokens, SkipGuard, Written, AllQueued, SharedPrefixes,
         Queued, LeavesFill, BoundaryQueued, Since, PrivateWrites, Good, SteadyLengths;
    StepDropsNoCompleteBlock(group, pool, s, t.reqs, t.out, s');
    if SkipGuard(s.prev, t.reqs, group) {
      GuardKeepsSince(s.built, s.prev, t.reqs, group);
      SkipCovers(s.built, t.reqs, group, s.slots);
    } else {
      SinceItself(t.reqs, group);
    }
  }

  /** A turn leaves things settled. */
  lemma TurnSettles(group: nat, pool: nat, x: Codec, s: Snap, st: State, t: Turn, s': Snap)
    requires group >= 1 && Settled(group, pool, s, st) && TurnFrom(group, pool, x, s, st, t, s')
    ensures |t.batch.rows| == |t.batch.slots|
    ensures Legal(st, TurnOps(t), x) && Settled(group, pool, s', Run(st, TurnOps(t), x))
  {
    hide ValidStore, SlotGood, Legal, Run, Linked, Advanced, CarriesOut, Placed, NamesNewTokens, Sound, Current,
         Scheduled, Covered, TurnOps, Orderly;
    TurnIsLegal(group, pool, x, s, st, t, s');
    TurnCovers(group, pool, x, s, st, t, s');
  }

  // ----- one request

  lemma TailFacts(done: nat, len: nat, group: nat)
    requires group >= 1 && done < len
    ensures Boundary(done, group) <= Tail(len, group)
    ensures done >= 1 ==> Tail(done, group) <= Tail(len, group) && Tail(done, group) <= Boundary(done, group)
  {
    DivMonotone(done, len - 1, group);
    if done >= 1 {
      DivMonotone(done - 1, len - 1, group);
      DivMonotone(done - 1, done, group);
    }
  }

  /** Request `w` of the step takes up where `done` tokens left off, in the blocks of `table`. */
  predicate Carries(reqs: seq<Request>, group: nat, w: nat, table: seq<int>, done: nat)
    requires group >= 1
  {
    && w < |reqs|
    && var r := reqs[w];
       && 1 <= r.query <= r.len && Committed(r) == done
       && Tail(r.len, group) < |r.row| && Tail(r.len, group) < |table|
       && forall k | 0 <= k <= Tail(r.len, group) :: r.row[k] == table[k] && table[k] >= 0
  }

  lemma CarriesParts(reqs: seq<Request>, group: nat, w: nat, table: seq<int>, done: nat, k: nat)
    requires group >= 1 && Carries(reqs, group, w, table, done) && k <= Tail(reqs[w].len, group)
    ensures k < |table| && k < |reqs[w].row| && reqs[w].row[k] == table[k] && table[k] >= 0
    ensures UsedAt(reqs, group, w, k) && FirstWritten(reqs[w], group) == Boundary(done, group)
    ensures k >= Boundary(done, group) ==> WritesAt(reqs, group, w, k)
  {
  }

  /** A block below the boundary of `done` tokens is full, then and later. */
  lemma FullBelow(done: nat, later: nat, group: nat, k: nat)
    requires group >= 1 && k < Boundary(done, group) && done <= later
    ensures done >= 1 && k <= Tail(done, group)
    ensures FillAt(done, group, k) == group == FillAt(later, group, k)
  {
    assert done / group * group <= done;
    if (k + 1) * group > done { QuotientBelow(done, k + 1, group); }
    assert (k + 1) * group == k * group + group;
    QuotientAtLeast(done - 1, k, group);
  }

  /** The request's blocks have all its tokens, and its tail block a slot. */
  ghost predicate Held(group: nat, table: seq<int>, done: nat, s: Snap)
    requires group >= 1
  {
    done >= 1 ==>
      && Tail(done, group) < |table| && table[Tail(done, group)] in s.slots
      && forall k | 0 <= k <= Tail(done, group) ::
           table[k] in s.present && s.present[table[k]] == FillAt(done, group, k)
  }

  lemma TurnHolds(group: nat, pool: nat, x: Codec, s: Snap, st: State, t: Turn, s': Snap,
                  w: nat, table: seq<int>, done: nat)
    requires group >= 1 && Settled(group, pool, s, st) && TurnFrom(group, pool, x, s, st, t, s')
    requires Carries(t.reqs, group, w, table, done) && Held(group, table, done, s)
    ensures Held(group, table, t.reqs[w].len, s')
  {
    hide Sound, Current, Linked, SlotGood, ValidStore, Scheduled, TurnFrom, FirstWritten, EndWritten, Tail,
         Boundary, FillAt, Needed;
    var len := t.reqs[w].len;
    TailFacts(done, len, group);
    CarriesParts(t.reqs, group, w, table, done, Tail(len, group));
    TurnCovers(group, pool, x, s, st, t, s');
    TurnWrites(group, pool, x, s, st, t, s');
    forall k | 0 <= k <= Tail(len, group)
      ensures table[k] in s'.present && s'.present[table[k]] == FillAt(len, group, k)
    {
      BlockHolds(group, s, t.reqs, s', w, table, done, k);
    }
    NeededHas(t.reqs, group, w, Tail(len, group));
  }

  lemma TurnWrites(group: nat, pool: nat, x: Codec, s: Snap, st: State, t: Turn, s': Snap)
    requires group >= 1 && ValidStore(st.kv) && TurnFrom(group, pool, x, s, st, t, s')
    ensures PrivateWrites(t.reqs, group) && Written(group, s.present, t.reqs, s'.present)
  {
  }

  lemma BlockHolds(group: nat, s: Snap, reqs: seq<Request>, s': Snap, w: nat, table: seq<int>, done: nat, k: nat)
    requires group >= 1 && PrivateWrites(reqs, group) && Written(group, s.present, reqs, s'.present)
    requires Carries(reqs, group, w, table, done) && Held(group, table, done, s) && k <= Tail(reqs[w].len, group)
    ensures k < |table| && table[k] in s'.present && s'.present[table[k]] == FillAt(reqs[w].len, group, k)
  {
    hide Needed, PrivateWrites, LeavesFill, FillAt, FirstWritten, EndWritten, Tail, Boundary;
    CarriesParts(reqs, group, w, table, done, k);
    if k >= Boundary(done, group) {
      NeededHas(reqs, group, w, k);
      assert NeededBy(reqs, group, table[k], w, k);
      FillIsOne(reqs, group, table[k], s'.present[table[k]], w, k);
    } else {
      FullBelow(done, reqs[w].len, group, k);
      BelowIsNotNeeded(reqs, group, w, k);
    }
  }

  /** The builder neither discards nor assigns a block that the step goes on writing. */
  lemma SparesWritten(group: nat, pool: nat, s: Snap, reqs: seq<Request>, o: Outcome, s': Snap, b: int)
    requires group >= 1 && PrivateWrites(reqs, group) && Advanced(group, pool, s, reqs, o, s')
    requires b in Needed(reqs, group) && b in s.slots
    ensures b !in o.dropped && !GetsSlot(s.slots, o, s'.slots, b)
  {
    hide Needed, PrivateWrites, LeavesFill, Written, AllQueued, SharedPrefixes, Queued, BoundaryQueued,
         SkipGuard;
    if !SkipGuard(s.prev, reqs, group) {
      NeededNotFlushed(group, pool, reqs, s.slots, s.fill, o, s'.slots, s'.fill, b);
    }
  }

  /** Nor does it discard or assign a complete block that nobody writes. */
  lemma SparesComplete(group: nat, pool: nat, s: Snap, reqs: seq<Request>, o: Outcome, s': Snap, b: int)
    requires group >= 1 && Sound(group, s) && Orderly(group, reqs) && Advanced(group, pool, s, reqs, o, s')
    requires b !in Needed(reqs, group) && b in s.present && s.present[b] >= group
    ensures b !in o.dropped && !GetsSlot(s.slots, o, s'.slots, b)
  {
    hide Needed, PrivateWrites, LeavesFill, Written, AllQueued, SharedPrefixes, Queued, BoundaryQueued,
         SkipGuard;
    StepDropsNoCompleteBlock(group, pool, s, reqs, o, s');
    if b in s'.slots { assert b in s'.slots.Keys; }
  }

  lemma BuilderSpares(group: nat, pool: nat, s: Snap, reqs: seq<Request>, o: Outcome, s': Snap,
                      w: nat, table: seq<int>, done: nat, k: nat)
    requires group >= 1 && Sound(group, s) && Orderly(group, reqs) && Advanced(group, pool, s, reqs, o, s')
    requires Carries(reqs, group, w, table, done) && Held(group, table, done, s)
    requires done >= 1 && k <= Tail(done, group)
    ensures k < |table| && table[k] !in o.dropped && !GetsSlot(s.slots, o, s'.slots, table[k])
  {
    hide Needed, PrivateWrites, FillAt, Advanced, FirstWritten, EndWritten, Sound, GetsSlot, Tail, Boundary;
    TailFacts(done, reqs[w].len, group);
    CarriesParts(reqs, group, w, table, done, k);
    if k >= Boundary(done, group) {
      NeededHas(reqs, group, w, k);
      SparesWritten(group, pool, s, reqs, o, s', table[k]);
    } else {
      FullBelow(done, reqs[w].len, group, k);
      BelowIsNotNeeded(reqs, group, w, k);
      SparesComplete(group, pool, s, reqs, o, s', table[k]);
    }
  }

  // ----- what a turn does to the slots of the request's tokens

  /** Where token `p` is, in terms of blocks. */
  lemma PlaceOf(p: nat, done: nat, len: nat, group: nat)
    requires group >= 1 && p < len
    ensures Boundary(p, group) <= Tail(len, group)
    ensures done <= p ==> Boundary(done, group) <= Boundary(p, group)
  {
    DivMonotone(p, len - 1, group);
    if done <= p { DivMonotone(done, p, group); }
  }

  lemma SlotParts(table: seq<int>, group: nat, p: nat)
    requires group >= 1 && Boundary(p, group) < |table| && table[Boundary(p, group)] >= 0
    ensures SlotIn(table, group, p) >= 0 && SlotIn(table, group, p) / group == table[Boundary(p, group)]
    ensures SlotIn(table, group, p) % group == p % group
  {
    DivModUnique(table[Boundary(p, group)], p % group, group);
  }

  lemma SameToken(p: nat, q: nat, group: nat)
    requires group >= 1 && Boundary(p, group) == Boundary(q, group) && p % group == q % group
    ensures p == q
  {
    assert p == p / group * group + p % group;
    assert q == q / group * group + q % group;
  }

  /** New tokens go elsewhere. */
  lemma ScattersQuiet(b: Batch, reqs: seq<Request>, group: nat, w: nat, table: seq<int>, done: nat, p: nat)
    requires group >= 1 && |b.rows| == |b.slots| && NamesNewTokens(b, reqs, group) && PrivateWrites(reqs, group)
    requires Carries(reqs, group, w, table, done) && p < done
    ensures Boundary(p, group) < |table| && SlotIn(table, group, p) >= 0
    ensures Quiet(Scatters(b), 0, SlotIn(table, group, p), group)
  {
    hide FirstWritten, EndWritten, Tail, Boundary, NamesNewTokens, PrivateWrites, Scatters;
    var slot := TokenPlace(reqs, group, w, table, done, p);
    forall i | 0 <= i < |b.slots| ensures b.slots[i] != slot {
      NotNew(b, reqs, group, w, table, done, p, i);
    }
  }

  lemma TokenPlace(reqs: seq<Request>, group: nat, w: nat, table: seq<int>, done: nat, p: nat) returns (slot: nat)
    requires group >= 1 && Carries(reqs, group, w, table, done) && p < reqs[w].len
    ensures Boundary(p, group) < |table| && slot == SlotIn(table, group, p) && table[Boundary(p, group)] >= 0
    ensures UsedAt(reqs, group, w, Boundary(p, group)) && Boundary(p, group) < |reqs[w].row|
    ensures reqs[w].row[Boundary(p, group)] == table[Boundary(p, group)]
    ensures slot / group == table[Boundary(p, group)] && slot % group == p % group
    ensures done <= p ==> WritesAt(reqs, group, w, Boundary(p, group))
  {
    hide FirstWritten, EndWritten, Tail, Boundary;
    PlaceOf(p, done, reqs[w].len, group);
    CarriesParts(reqs, group, w, table, done, Boundary(p, group));
    SlotParts(table, group, p);
    slot := SlotIn(table, group, p);
  }

  lemma NotNew(b: Batch, reqs: seq<Request>, group: nat, w: nat, table: seq<int>, done: nat, p: nat, i: nat)
    requires group >= 1 && |b.rows| == |b.slots| && NamesNewTokens(b, reqs, group) && PrivateWrites(reqs, group)
    requires Carries(reqs, group, w, table, done) && p < done && i < |b.slots|
    requires Boundary(p, group) < |table| && SlotIn(table, group, p) >= 0
    ensures b.slots[i] != SlotIn(table, group, p)
  {
    hide FirstWritten, EndWritten, Tail, Boundary;
    if b.slots[i] == SlotIn(table, group, p) {
      var slot := TokenPlace(reqs, group, w, table, done, p);
      var r: nat, q: nat :| GoesTo(reqs, group, r, q, b.slots[i]);
      assert WritesAt(reqs, group, r, Boundary(q, group));
      SlotParts(reqs[r].row, group, q);
      assert r == w && Boundary(q, group) == Boundary(p, group);
      SameToken(p, q, group);
    }
  }

  lemma BuilderQuiet(kv: Kv, slots: map<int, int>, t: Turn, slots': map<int, int>, x: Codec, group: nat, slot: nat)
    requires group >= 1 && ValidStore(kv) && CarriesOut(kv, slots, t.out, slots', t.rel, t.asg, x)
    requires slot / group !in t.out.dropped && !GetsSlot(slots, t.out, slots', slot / group)
    ensures Quiet(t.rel + t.asg, 0, slot, group)
  {
    hide ValidStore, Enabled, GetsSlot;
    var ops := t.rel + t.asg;
    forall k | 0 <= k < |ops| ensures !Disturbs(ops[k], slot, group) {
      if k < |t.rel| {
        assert ops[k] == t.rel[k] && IsRelease(t.rel[k]);
        if t.rel[k].Discard? { assert DiscardsBlock(t.rel, t.rel[k].block); }
      } else {
        assert ops[k] == t.asg[k - |t.rel|];
      }
    }
  }

  /** A turn leaves the tokens written before it alone, other than by flushing them. */
  lemma TurnIsQuiet(group: nat, pool: nat, x: Codec, s: Snap, st: State, t: Turn, s': Snap,
                    w: nat, table: seq<int>, done: nat, p: nat)
    requires group >= 1 && Settled(group, pool, s, st) && TurnFrom(group, pool, x, s, st, t, s')
    requires Carries(t.reqs, group, w, table, done) && Held(group, table, done, s) && p < done
    ensures Boundary(p, group) < |table| && SlotIn(table, group, p) >= 0
    ensures Quiet(TurnOps(t), 0, SlotIn(table, group, p), group)
  {
    hide ValidStore, SlotGood, Linked, CarriesOut, Placed, Advanced, PrivateWrites, NamesNewTokens, Tail,
         Boundary, Held, Current, Sound, GetsSlot, Disturbs, Scatters, FirstWritten, EndWritten, TailsKept,
         SkipGuard;
    var slot := TokenPlace(t.reqs, group, w, table, done, p);
    PlaceOf(p, 0, done, group);
    BuilderSpares(group, pool, s, t.reqs, t.out, s', w, table, done, Boundary(p, group));
    BuilderQuiet(st.kv, s.slots, t, s'.slots, x, group, slot);
    ScattersQuiet(t.batch, t.reqs, group, w, table, done, p);
    QuietConcat(t.rel + t.asg, Scatters(t.batch), slot, group);
  }

  lemma QuietConcat(a: seq<Op>, b: seq<Op>, s: nat, group: nat)
    requires group >= 1 && Quiet(a, 0, s, group) && Quiet(b, 0, s, group)
    ensures Quiet(a + b, 0, s, group)
  {
    hide Disturbs;
  }

  // ----- what a turn writes

  /** Scatters leave the lookup table alone. */
  lemma {:induction false} ScattersKeepTable(st: State, ops: seq<Op>, x: Codec, j: nat)
    requires Good(st) && Legal(st, ops, x) && j <= |ops| && forall i | 0 <= i < |ops| :: ops[i].Scatter?
    ensures StateAt(st, ops, x, j).kv.blockToSlot == st.kv.blockToSlot && StateAt(st, ops, x, j).kv.g == st.kv.g
    decreases j
  {
    hide ValidStore, SlotGood, Step, Enabled;
    if j > 0 {
      ScatterTable(st, ops[0], x);
      StepKeepsGood(st, ops[0], x);
      ScattersKeepTable(Step(st, ops[0], x), ops[1..], x, j - 1);
    }
  }

  lemma ScatterTable(st: State, op: Op, x: Codec)
    requires ValidStore(st.kv) && op.Scatter? && Enabled(st.kv, op, x)
    ensures Step(st, op, x).kv.blockToSlot == st.kv.blockToSlot && Step(st, op, x).kv.g == st.kv.g
  {
    hide ValidStore, ScatterOne, Track;
    ScatterKeepsShape(st.kv, op.row, op.slot);
  }

  /** The launch scatters `row` to `slot`. */
  predicate ScatteredAt(b: Batch, row: Row, slot: int, i: nat)
    requires |b.rows| == |b.slots|
  {
    i < |b.rows| && b.slots[i] == slot && b.rows[i] == row
  }

  lemma LaunchWrites(st: State, b: Batch, x: Codec, row: Row, slot: nat, i: nat)
    requires Good(st) && st.kv.g.group >= 1 && |b.rows| == |b.slots| && DistinctSlots(b) && Legal(st, Scatters(b), x)
    requires ScatteredAt(b, row, slot, i) && Pooled(st.kv, slot)
    ensures Wrote(st, Scatters(b), x, i, row, slot)
  {
    hide ValidStore, SlotGood, Legal, StateAt, Scatters;
    ScattersKeepTable(st, Scatters(b), x, i);
  }

  lemma LinkedPools(slots: map<int, int>, kv: Kv, slot: nat)
    requires kv.g.group >= 1 && Linked(slots, kv) && slot / kv.g.group in slots
    ensures Pooled(kv, slot)
  {
  }

  /** A turn writes every new token of the request to a pool slot. */
  lemma TurnWritesToken(group: nat, pool: nat, x: Codec, s: Snap, st: State, t: Turn, s': Snap,
                        w: nat, table: seq<int>, done: nat, p: nat, row: Row, i: nat) returns (j: nat)
    requires group >= 1 && Settled(group, pool, s, st) && TurnFrom(group, pool, x, s, st, t, s')
    requires Carries(t.reqs, group, w, table, done) && done <= p < t.reqs[w].len
    requires Boundary(p, group) < |table| && ScatteredAt(t.batch, row, SlotIn(table, group, p), i)
    ensures SlotIn(table, group, p) >= 0
    ensures Legal(st, TurnOps(t), x) && Wrote(st, TurnOps(t), x, j, row, SlotIn(table, group, p))
  {
    hide ValidStore, SlotGood, CarriesOut, Advanced, NamesNewTokens, Tail, Boundary, Linked, Run, Legal, Placed,
         Current, Sound, FirstWritten, EndWritten, Needed, PrivateWrites, Scatters, Wrote, DistinctSlots;
    var slot := TokenPlace(t.reqs, group, w, table, done, p);
    TurnCovers(group, pool, x, s, st, t, s');
    NeededHas(t.reqs, group, w, Boundary(p, group));
    TurnIsLegal(group, pool, x, s, st, t, s');
    var ops := t.rel + t.asg;
    var mid := Run(st, ops, x);
    LinkedPools(s'.slots, mid.kv, slot);
    LaunchWrites(mid, t.batch, x, row, slot, i);
    WroteAfter(st, ops, Scatters(t.batch), x, i, row, slot);
    j := |ops| + i;
  }

  // ----- whole runs of turns

  /** Every launch has a slot for each row. */
  predicate Shaped(turns: seq<Turn>) { forall i | 0 <= i < |turns| :: |turns[i].batch.rows| == |turns[i].batch.slots| }

  /** The cache operations of the first `n` turns. */
  ghost function OpsUpTo(turns: seq<Turn>, n: nat): seq<Op>
    requires Shaped(turns) && n <= |turns|
  {
    if n == 0 then [] else OpsUpTo(turns, n - 1) + TurnOps(turns[n - 1])
  }

  /** Turn `i` of a run. (Its operations are always legal: `TurnIsLegal`.) */
  ghost predicate TurnAt(group: nat, pool: nat, x: Codec, snaps: seq<Snap>, states: seq<State>, turns: seq<Turn>,
                         i: nat)
    requires group >= 1 && |snaps| == |states| == |turns| + 1 && Shaped(turns) && i < |turns|
  {
    && ValidStore(states[i].kv) && TurnFrom(group, pool, x, snaps[i], states[i], turns[i], snaps[i + 1])
    && Legal(states[i], TurnOps(turns[i]), x) && states[i + 1] == Run(states[i], TurnOps(turns[i]), x)
  }

  ghost predicate Driven(group: nat, pool: nat, x: Codec, snaps: seq<Snap>, states: seq<State>, turns: seq<Turn>)
    requires group >= 1
  {
    && |snaps| == |states| == |turns| + 1 && Shaped(turns) && Settled(group, pool, snaps[0], states[0])
    && forall i | 0 <= i < |turns| :: TurnAt(group, pool, x, snaps, states, turns, i)
  }

  /** The tokens of the request after `n` turns. */
  function DoneAfter(turns: seq<Turn>, who: seq<nat>, n: nat): nat
    requires |who| == |turns| && n <= |turns|
  {
    if n > 0 && who[n - 1] < |turns[n - 1].reqs| then turns[n - 1].reqs[who[n - 1]].len else 0
  }

  /** The launch scatters row `p` of the request to its slot, for every token from `lo` to `hi - 1`. */
  ghost predicate ScattersTokens(b: Batch, group: nat, table: seq<int>, rows: seq<Row>, lo: nat, hi: nat)
    requires group >= 1 && |b.rows| == |b.slots|
  {
    hi <= |rows| && forall p | lo <= p < hi ::
      Boundary(p, group) < |table| && exists i :: ScatteredAt(b, rows[p], SlotIn(table, group, p), i)
  }

  /** A request is in every turn, goes on where it left off, and has each of its new rows scattered. */
  ghost predicate ServesAt(group: nat, turns: seq<Turn>, who: seq<nat>, table: seq<int>, rows: seq<Row>, i: nat)
    requires group >= 1 && Shaped(turns) && |who| == |turns| && i < |turns|
  {
    && Carries(turns[i].reqs, group, who[i], table, DoneAfter(turns, who, i))
    && ScattersTokens(turns[i].batch, group, table, rows, DoneAfter(turns, who, i), DoneAfter(turns, who, i + 1))
  }

  ghost predicate Serves(group: nat, turns: seq<Turn>, who: seq<nat>, table: seq<int>, rows: seq<Row>)
    requires group >= 1 && Shaped(turns)
  {
    |who| == |turns| && forall i | 0 <= i < |turns| :: ServesAt(group, turns, who, table, rows, i)
  }

  /** The row of token `p` was written to its slot, and nothing disturbed it since. */
  ghost predicate TokenWritten(st: State, ops: seq<Op>, x: Codec, group: nat, table: seq<int>, p: nat, row: Row)
    requires Legal(st, ops, x) && group >= 1 && st.kv.g.group == group
  {
    && Boundary(p, group) < |table| && SlotIn(table, group, p) >= 0
    && RowWritten(st, ops, x, row, SlotIn(table, group, p))
  }

  lemma TokenStays(group: nat, pool: nat, x: Codec, st0: State, before: seq<Op>, s: Snap, t: Turn, s': Snap,
                   w: nat, table: seq<int>, done: nat, p: nat, row: Row)
    requires group >= 1 && st0.kv.g.group == group && Legal(st0, before, x)
    requires Settled(group, pool, s, Run(st0, before, x)) && TurnFrom(group, pool, x, s, Run(st0, before, x), t, s')
    requires Carries(t.reqs, group, w, table, done) && Held(group, table, done, s) && p < done
    requires TokenWritten(st0, before, x, group, table, p, row)
    ensures Legal(st0, before + TurnOps(t), x) && TokenWritten(st0, before + TurnOps(t), x, group, table, p, row)
  {
    hide Settled, TurnFrom, Carries, Held, Boundary, SlotIn, Run, Legal, Wrote, TurnOps, Quiet;
    var st := Run(st0, before, x);
    StateIsSettled(group, pool, s, st);
    TurnSettles(group, pool, x, s, st, t, s');
    TurnIsQuiet(group, pool, x, s, st, t, s', w, table, done, p);
    var j: nat :| Wrote(st0, before, x, j, row, SlotIn(table, group, p));
    WroteExtends(st0, before, TurnOps(t), x, j, row, SlotIn(table, group, p));
  }

  lemma StateIsSettled(group: nat, pool: nat, s: Snap, st: State)
    requires group >= 1 && Settled(group, pool, s, st)
    ensures Good(st) && ValidStore(st.kv) && st.kv.g.group == group
  {
    hide SlotGood, ValidStore;
  }

  lemma TokenArrives(group: nat, pool: nat, x: Codec, st0: State, before: seq<Op>, s: Snap, t: Turn, s': Snap,
                     w: nat, table: seq<int>, done: nat, p: nat, row: Row)
    requires group >= 1 && Good(st0) && st0.kv.g.group == group && Legal(st0, before, x)
    requires Settled(group, pool, s, Run(st0, before, x)) && TurnFrom(group, pool, x, s, Run(st0, before, x), t, s')
    requires Run(st0, before, x).kv.g == st0.kv.g
    requires Carries(t.reqs, group, w, table, done) && done <= p < t.reqs[w].len && Boundary(p, group) < |table|
    requires exists i: nat :: ScatteredAt(t.batch, row, SlotIn(table, group, p), i)
    ensures Legal(st0, before + TurnOps(t), x) && TokenWritten(st0, before + TurnOps(t), x, group, table, p, row)
  {
    hide Settled, TurnFrom, Boundary, SlotIn, Run, Legal, Wrote, TurnOps, FirstWritten, EndWritten, Tail, Good;
    var st := Run(st0, before, x);
    StateIsSettled(group, pool, s, st);
    TurnSettles(group, pool, x, s, st, t, s');
    var i: nat :| ScatteredAt(t.batch, row, SlotIn(table, group, p), i);
    var j := TurnWritesToken(group, pool, x, s, st, t, s', w, table, done, p, row, i);
    WroteAfter(st0, before, TurnOps(t), x, j, row, SlotIn(table, group, p));
  }

  /** After any number of turns, all tokens of the request are written and undisturbed. */
  lemma {:induction false} RunWrites(group: nat, pool: nat, x: Codec, snaps: seq<Snap>, states: seq<State>,
                                     turns: seq<Turn>, who: seq<nat>, table: seq<int>, rows: seq<Row>, n: nat)
    requires group >= 1 && Driven(group, pool, x, snaps, states, turns) && Serves(group, turns, who, table, rows)
    requires n <= |turns|
    ensures Legal(states[0], OpsUpTo(turns, n), x) && states[n] == Run(states[0], OpsUpTo(turns, n), x)
    ensures Settled(group, pool, snaps[n], states[n]) && Held(group, table, DoneAfter(turns, who, n), snaps[n])
    ensures states[0].kv.g.group == group && states[n].kv.g == states[0].kv.g
    ensures DoneAfter(turns, who, n) <= |rows| && forall p | 0 <= p < DoneAfter(turns, who, n) ::
              TokenWritten(states[0], OpsUpTo(turns, n), x, group, table, p, rows[p])
  {
    hide Settled, TurnFrom, Carries, Held, Run, Legal, TurnOps, TokenWritten, Good;
    StateIsSettled(group, pool, snaps[0], states[0]);
    if n == 0 {
      EmptyRun(states[0], x);
      assert Held(group, table, 0, snaps[0]) by { NothingHeld(group, table, snaps[0]); }
    } else {
      RunWrites(group, pool, x, snaps, states, turns, who, table, rows, n - 1);
      assert TurnAt(group, pool, x, snaps, states, turns, n - 1);
      assert ServesAt(group, turns, who, table, rows, n - 1);
      RunGoesOn(group, pool, x, snaps, states, turns, who, table, rows, n - 1);
    }
  }

  lemma EmptyRun(st: State, x: Codec)
    ensures Legal(st, [], x) && Run(st, [], x) == st
  {
  }

  lemma NothingHeld(group: nat, table: seq<int>, s: Snap)
    requires group >= 1
    ensures Held(group, table, 0, s)
  {
  }

  lemma RunGoesOn(group: nat, pool: nat, x: Codec, snaps: seq<Snap>, states: seq<State>, turns: seq<Turn>,
                  who: seq<nat>, table: seq<int>, rows: seq<Row>, n: nat)
    requires group >= 1 && Shaped(turns) && |snaps| == |states| == |turns| + 1 && |who| == |turns| && n < |turns|
    requires TurnAt(group, pool, x, snaps, states, turns, n) && ServesAt(group, turns, who, table, rows, n)
    requires Good(states[0]) && states[0].kv.g.group == group && states[n].kv.g == states[0].kv.g
    requires Legal(states[0], OpsUpTo(turns, n), x) && states[n] == Run(states[0], OpsUpTo(turns, n), x)
    requires Settled(group, pool, snaps[n], states[n]) && Held(group, table, DoneAfter(turns, who, n), snaps[n])
    requires DoneAfter(turns, who, n) <= |rows| && forall p | 0 <= p < DoneAfter(turns, who, n) ::
               TokenWritten(states[0], OpsUpTo(turns, n), x, group, table, p, rows[p])
    ensures Legal(states[0], OpsUpTo(turns, n + 1), x) && states[n + 1] == Run(states[0], OpsUpTo(turns, n + 1), x)
    ensures Settled(group, pool, snaps[n + 1], states[n + 1])
    ensures Held(group, table, DoneAfter(turns, who, n + 1), snaps[n + 1]) && states[n + 1].kv.g == states[0].kv.g
    ensures DoneAfter(turns, who, n + 1) <= |rows| && forall p | 0 <= p < DoneAfter(turns, who, n + 1) ::
              TokenWritten(states[0], OpsUpTo(turns, n + 1), x, group, table, p, rows[p])
  {
    hide Settled, TurnFrom, Held, Run, Legal, TurnOps, TokenWritten, Good, Tail, Boundary, SlotIn, ScatteredAt;
    var done, t, before, w := DoneAfter(turns, who, n), turns[n], OpsUpTo(turns, n), who[n];
    StateIsSettled(group, pool, snaps[n], states[n]);
    TurnSettles(group, pool, x, snaps[n], states[n], t, snaps[n + 1]);
    TurnHolds(group, pool, x, snaps[n], states[n], t, snaps[n + 1], w, table, done);
    RunConcat(states[0], before, TurnOps(t), x);
    TurnGeometry(states[n], TurnOps(t), x);
    forall p | 0 <= p < DoneAfter(turns, who, n + 1)
      ensures TokenWritten(states[0], before + TurnOps(t), x, group, table, p, rows[p])
    {
      if p < done {
        TokenStays(group, pool, x, states[0], before, snaps[n], t, snaps[n + 1], w, table, done, p, rows[p]);
      } else {
        TokenArrives(group, pool, x, states[0], before, snaps[n], t, snaps[n + 1], w, table, done, p, rows[p]);
      }
    }
  }

  lemma TurnGeometry(st: State, ops: seq<Op>, x: Codec)
    requires Good(st) && Legal(st, ops, x)
    ensures Run(st, ops, x).kv.g == st.kv.g
  {
    hide Good, Legal, Run, StateAt;
    StateGeometry(st, ops, x, |ops|);
    EmptyRun(Run(st, ops, x), x);
    StateConcat(st, ops, [], x, |ops|);
  }

  // ----- the decode

  lemma SlotIsToken(kv: Kv, s: Sequence, p: nat)
    requires Readable(kv, s) && p < s.len && kv.g.group >= 1
    ensures Boundary(p, kv.g.group) < |s.table| && SlotIn(s.table, kv.g.group, p) == TokenSlot(kv, s, p)
  {
    hide BlockCount;
    TokenSlotParts(kv, s, p);
  }

  ghost function Rotated(rows: seq<Row>, g: Geometry, h: Matrix): (r: seq<Row>)
    requires RowsFit(rows, g) && IsMatrix(h, g.r, g.r)
    ensures |r| == |rows| && forall i | 0 <= i < |rows| :: r[i] == RotateRow(rows[i], h)
  {
    hide RotateRow;
    seq(|rows|, i requires 0 <= i < |rows| => RotateRow(rows[i], h))
  }

  /** The turns wrote the whole sequence of the request, rotated. */
  lemma TurnsWriteSequence(group: nat, pool: nat, x: Codec, snaps: seq<Snap>, states: seq<State>, turns: seq<Turn>,
                           who: seq<nat>, s: Sequence, rows: seq<Row>, h: Matrix)
    requires group >= 1 && Driven(group, pool, x, snaps, states, turns)
    requires var kv := states[|turns|].kv;
             && Readable(kv, s) && |rows| == s.len && RowsFit(rows, kv.g) && |h| == kv.g.r && IsMatrix(h, |h|, |h|)
             && Serves(group, turns, who, s.table, Rotated(rows, kv.g, h)) && s.len == DoneAfter(turns, who, |turns|)
    ensures var ops := OpsUpTo(turns, |turns|);
            && Good(states[0]) && Legal(states[0], ops, x) && states[0].kv.g.group >= 1
            && states[|turns|] == Run(states[0], ops, x) && SequenceWritten(states[0], ops, x, s, rows, h)
  {
    hide Settled, Run, Legal, TurnOps, Good, SlotIn, ServesAt, Held, Readable, TokenSlot, RotateRow, Wrote,
         OpsUpTo, TurnAt;
    var n, g, ops := |turns|, states[|turns|].kv.g, OpsUpTo(turns, |turns|);
    StateIsSettled(group, pool, snaps[0], states[0]);
    RunWrites(group, pool, x, snaps, states, turns, who, s.table, Rotated(rows, g, h), n);
    StateIsSettled(group, pool, snaps[n], states[n]);
    forall p | 0 <= p < s.len ensures TokenWritten(states[0], ops, x, group, s.table, p, RotateRow(rows[p], h)) {
      assert Rotated(rows, g, h)[p] == RotateRow(rows[p], h);
    }
    SequenceIsWritten(states[0], ops, x, s, rows, h, group);
  }

  lemma SequenceIsWritten(st: State, ops: seq<Op>, x: Codec, s: Sequence, rows: seq<Row>, h: Matrix, group: nat)
    requires Legal(st, ops, x) && group >= 1 && st.kv.g.group == group && Run(st, ops, x).kv.g.group == group
    requires Readable(Run(st, ops, x).kv, s) && |rows| == s.len && IsMatrix(h, |h|, |h|)
    requires forall p | 0 <= p < s.len :: |rows[p].lat| == |h|
    requires forall p | 0 <= p < s.len :: TokenWritten(st, ops, x, group, s.table, p, RotateRow(rows[p], h))
    ensures SequenceWritten(st, ops, x, s, rows, h)
  {
    hide Run, Legal, SlotIn, Readable, TokenSlot, RotateRow, RowWritten;
    var kv := Run(st, ops, x).kv;
    forall p | 0 <= p < s.len ensures RowWritten(st, ops, x, RotateRow(rows[p], h), TokenSlot(kv, s, p)) {
      SlotIsToken(kv, s, p);
      assert TokenWritten(st, ops, x, group, s.table, p, RotateRow(rows[p], h));
    }
  }

  /**
   A request that every turn serves, among any other requests and whatever the builder skips, flushes,
   drops or assigns: its un-rotated decode is within the bound of the flushes that happened of
   full-precision attention over its rows, and so is its log-sum-exp.
   */
  lemma DecodeUnderBuilder(group: nat, pool: nat, x: Codec, snaps: seq<Snap>, states: seq<State>, turns: seq<Turn>,
                           who: seq<nat>, l: Launch, h: Matrix, rows: seq<Row>, q: Row, k: nat)
    requires group >= 1 && Driven(group, pool, x, snaps, states, turns) && l.kv == states[|turns|].kv
    requires ValidLaunch(l) && l.s.len >= 1 && RowFits(q, l.kv.g) && k < l.kv.g.r
    requires Orthonormal(h) && |h| == l.kv.g.r && |rows| == l.s.len && RowsFit(rows, l.kv.g)
    requires Serves(group, turns, who, l.s.table, Rotated(rows, l.kv.g, h))
    requires l.s.len == DoneAfter(turns, who, |turns|)
    ensures Recorded(states[|turns|], l.s, rows, h)
    ensures var b := TokenBounds(states[|turns|], l.s, rows, h);
            && BoundsFit(b, l.s.len, l.kv.g)
            && Legal(states[0], OpsUpTo(turns, |turns|), x) && states[0].kv.g.group >= 1
            && (forall i | 0 <= i < l.s.len ::
                Explained(states[0], OpsUpTo(turns, |turns|), x, RotateRow(rows[i], h), TokenSlot(l.kv, l.s, i),
                          b.lat[i], b.rope[i]))
            && Mass(l.e, Scores(l, RotateRow(q, h), 0, l.s.len)) > 0.0
            && Mass(l.e, ScoresOf(rows, l.kv.g, q, l.sm)) > 0.0
            && Abs(MatVec(h, Attend(l.e, Scores(l, RotateRow(q, h), 0, l.s.len), Lats(l, 0, l.s.len), l.kv.g.r))[k]
                   - AttendRows(l.e, rows, l.kv.g, q, l.sm)[k])
               <= DecodeBound(l, h, rows, q, b, k)
            && Abs(LogSumExp(l.e, Scores(l, RotateRow(q, h), 0, l.s.len))
                   - LogSumExp(l.e, ScoresOf(rows, l.kv.g, q, l.sm)))
               <= ScoreDelta(b, l.kv.g, RotateRow(q, h), l.sm, l.s.len)
  {
    hide Settled, TurnAt, Serves, Run, Legal, Good, TurnOps, OpsUpTo, Readable, RotateRows, RotateRow, ScoresOf,
         Scores, Lats, Attend, AttendRows, Mass, Laws, Abs, LogSumExp, Recorded, ScoreDelta, DecodeBound,
         MatVec, TokenSlot, BoundsFit, SequenceWritten, Explained, Rotated, DoneAfter;
    TurnsWriteSequence(group, pool, x, snaps, states, turns, who, l.s, rows, h);
    DecodeAfterRun(states[0], OpsUpTo(turns, |turns|), x, l, h, rows, q, k);
  }
}
