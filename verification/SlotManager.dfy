/**
 The pool slot bookkeeping of one step: flush what is full, give back what nobody writes, and give a
 slot to every block about to be written.
 */
module SlotManager {
  import opened SlotLifecycle
  import opened SlotStep

  method PickOne<T(==)>(s: set<T>) returns (x: T)
    requires s != {}
    ensures x in s
  {
    x :| x in s;
  }

  /** Slots are handed out one to one: every slot is free or held by exactly one block. */
  ghost predicate SlotsOk(slotOf: map<int, int>, free: seq<int>, pool: nat) {
    && (forall i | 0 <= i < |free| :: 0 <= free[i] < pool)
    && (forall i, j | 0 <= i < j < |free| :: free[i] != free[j])
    && (forall b | b in slotOf :: 0 <= slotOf[b] < pool && slotOf[b] !in free)
    && (forall b, c | b in slotOf && c in slotOf && slotOf[b] == slotOf[c] :: b == c)
    && (forall x | 0 <= x < pool :: x in free || exists b :: b in slotOf && slotOf[b] == x)
    && |slotOf| + |free| == pool
  }

  /** The device table shows the slot of every block that holds one, and -1 elsewhere. */
  ghost predicate Mirrors(slotOf: map<int, int>, table: seq<int>) {
    forall b | 0 <= b < |table| :: table[b] == if b in slotOf then slotOf[b] else -1
  }

  /** A new pool has every slot free. */
  lemma AllFree(free: seq<int>, pool: nat)
    requires |free| == pool && forall i | 0 <= i < pool :: free[i] == pool - 1 - i
    ensures SlotsOk(map[], free, pool)
  {
    forall x | 0 <= x < pool ensures x in free { assert free[pool - 1 - x] == x; }
  }

  /** Block `b` newly holds `slot`. */
  predicate NewAt(was: map<int, int>, now: map<int, int>, b: int, slot: int) {
    b in now && b !in was && now[b] == slot
  }

  ghost predicate NewSlot(was: map<int, int>, now: map<int, int>, slot: int) { exists b :: NewAt(was, now, b, slot) }

  lemma StaysNew(was: map<int, int>, now: map<int, int>, b: int, slot: int, x: int)
    requires NewSlot(was, now, x) && b !in now
    ensures NewSlot(was, now[b := slot], x)
  {
    var c :| NewAt(was, now, c, x);
    assert NewAt(was, now[b := slot], c, x);
  }

  /** The slots zeroed after the releases are those of the blocks that get one. */
  lemma ZeroedAre(slots: map<int, int>, kept: map<int, int>, slots': map<int, int>, o: Outcome)
    requires forall b :: b in kept <==> b in slots && b !in o.flushed && b !in o.dropped
    requires forall b | b in kept :: kept[b] == slots[b] && b in slots' && slots'[b] == kept[b]
    requires forall b | b in slots' :: b !in o.dropped
    requires forall b | b in slots' && b !in kept :: slots'[b] in o.zeroed
    requires forall i | 0 <= i < |o.zeroed| :: NewSlot(kept, slots', o.zeroed[i])
    requires forall i, j | 0 <= i < j < |o.zeroed| :: o.zeroed[i] != o.zeroed[j]
    ensures ZeroedExactly(slots, o, slots')
  {
    forall i | 0 <= i < |o.zeroed| ensures GivesSlot(slots, o, slots', o.zeroed[i]) {
      var b :| NewAt(kept, slots', b, o.zeroed[i]);
      assert GetsSlotAt(slots, o, slots', b, o.zeroed[i]);
    }
  }

  /** The fill recorded by the walk over the requests, less that of the blocks released. */
  lemma FillsAre(reqs: seq<Request>, group: nat, fill: map<int, int>, noted: map<int, int>, fill': map<int, int>,
                 o: Outcome)
    requires group >= 1
    requires forall b | b in Needed(reqs, group) :: b in noted && LeavesFill(reqs, group, b, noted[b])
    requires forall b | b !in Needed(reqs, group) :: (b in noted <==> b in fill) && (b in noted ==> noted[b] == fill[b])
    requires forall b :: b in fill' <==> b in noted && b !in o.flushed && b !in o.dropped
    requires forall b | b in fill' :: fill'[b] == noted[b]
    ensures FillRecorded(reqs, group, fill, o, fill')
  {
    hide Needed, LeavesFill;
  }

  lemma FreeIsDistinct(slotOf: map<int, int>, free: seq<int>, pool: nat)
    requires SlotsOk(slotOf, free, pool)
    ensures forall i, j | 0 <= i < j < |free| :: free[i] != free[j]
  {
  }

  lemma SlotsAddUp(slotOf: map<int, int>, free: seq<int>, pool: nat)
    requires SlotsOk(slotOf, free, pool)
    ensures |slotOf| + |free| == pool
  {
  }

  /** Giving back the slot of one block. */
  lemma ReleaseKeeps(slotOf: map<int, int>, free: seq<int>, pool: nat, b: int)
    requires SlotsOk(slotOf, free, pool) && b in slotOf
    ensures SlotsOk(slotOf - {b}, free + [slotOf[b]], pool)
  {
    var slotOf', free' := slotOf - {b}, free + [slotOf[b]];
    forall x | 0 <= x < pool ensures x in free' || exists c :: c in slotOf' && slotOf'[c] == x {
      if x in free {
        var i :| 0 <= i < |free| && free[i] == x;
        assert free'[i] == x;
      } else if x == slotOf[b] {
        assert free'[|free|] == x;
      } else {
        var c :| c in slotOf && slotOf[c] == x;
        assert c in slotOf';
      }
    }
  }

  /** Handing the last free slot to a block that holds none. */
  lemma TakeKeeps(slotOf: map<int, int>, free: seq<int>, pool: nat, b: int)
    requires SlotsOk(slotOf, free, pool) && b !in slotOf && free != []
    ensures SlotsOk(slotOf[b := free[|free| - 1]], free[..|free| - 1], pool)
  {
    var slot := free[|free| - 1];
    var slotOf', free' := slotOf[b := slot], free[..|free| - 1];
    forall x | 0 <= x < pool ensures x in free' || exists c :: c in slotOf' && slotOf'[c] == x {
      if x == slot {
        assert b in slotOf' && slotOf'[b] == x;
      } else if x in free {
        var i :| 0 <= i < |free| && free[i] == x;
        assert free'[i] == x;
      } else {
        var c :| c in slotOf && slotOf[c] == x;
        assert c in slotOf' && slotOf'[c] == x;
      }
    }
  }

  class Pool {
    var slotOf: map<int, int>
    var free: seq<int>
    var fill: map<int, int>
    /** The lengths of the last step, and the requests of the last step that was not skipped. */
    var prev: seq<nat>
    ghost var built: seq<Request>
    const table: array<int>
    const pool: nat
    const group: nat

    ghost predicate Valid() reads this, table {
      group >= 1 && SlotsOk(slotOf, free, pool) && Mirrors(slotOf, table[..])
    }

    /** Exactly the blocks of the last full step hold slots, and skipped steps kept to its tail blocks. */
    ghost predicate Current()
      requires group >= 1
      reads this
    {
      Since(built, prev, group) && slotOf.Keys == Needed(built, group)
    }

    constructor (pool: nat, group: nat, blocks: nat)
      requires group >= 1
      ensures Valid() && Current() && fresh(table) && slotOf == map[] && this.pool == pool && this.group == group
    {
      this.pool, this.group := pool, group;
      slotOf, fill, prev, built := map[], map[], [], [];
      free := seq(pool, i => pool - 1 - i);
      table := new int[blocks](i => -1);
      new;
      AllFree(free, pool);
    }

    /** Drops one block: its slot becomes free and the device table forgets it. */
    method Release(b: int)
      requires Valid() && b in slotOf
      modifies this`slotOf, this`free, this`fill, table
      ensures Valid() && slotOf == old(slotOf) - {b} && fill == old(fill) - {b}
      ensures table[..] == if 0 <= b < table.Length then old(table[..])[b := -1] else old(table[..])
    {
      ReleaseKeeps(slotOf, free, pool, b);
      free := free + [slotOf[b]];
      slotOf := slotOf - {b};
      fill := fill - {b};
      if 0 <= b < table.Length { table[b] := -1; }
    }

    method ReleaseAll(blocks: set<int>)
      requires Valid() && blocks <= slotOf.Keys
      modifies this`slotOf, this`free, this`fill, table
      ensures Valid() && slotOf.Keys == old(slotOf).Keys - blocks
      ensures forall b | b in slotOf :: slotOf[b] == old(slotOf)[b]
      ensures forall b :: b in fill <==> b in old(fill) && b !in blocks
      ensures forall b | b in fill :: fill[b] == old(fill)[b]
    {
      hide SlotsOk, Mirrors;
      var left := blocks;
      while left != {}
        invariant Valid() && left <= blocks && slotOf.Keys == old(slotOf).Keys - (blocks - left)
        invariant forall b | b in slotOf :: slotOf[b] == old(slotOf)[b]
        invariant forall b :: b in fill <==> b in old(fill) && (b !in blocks || b in left)
        invariant forall b | b in fill :: fill[b] == old(fill)[b]
        decreases |left|
      {
        var b := PickOne(left);
        assert b in slotOf.Keys;
        Release(b);
        left := left - {b};
      }
    }

    /** Gives every needed block a slot, until the pool runs out. */
    method Allocate(needed: set<int>) returns (zeroed: seq<int>, exhausted: bool)
      requires Valid() && slotOf.Keys <= needed
      modifies this`slotOf, this`free, table
      ensures Valid() && slotOf.Keys <= needed
      ensures exhausted <==> |needed| > pool
      ensures !exhausted ==> slotOf.Keys == needed
      ensures forall b | b in old(slotOf) :: b in slotOf && slotOf[b] == old(slotOf)[b]
      ensures forall b | b in slotOf && b !in old(slotOf) :: slotOf[b] in zeroed
      ensures forall i | 0 <= i < |zeroed| :: NewSlot(old(slotOf), slotOf, zeroed[i])
      ensures forall i, j | 0 <= i < j < |zeroed| :: zeroed[i] != zeroed[j]
    {
      hide SlotsOk, Mirrors;
      zeroed, exhausted := [], false;
      var left := needed;
      while left != {}
        invariant Valid() && left <= needed && slotOf.Keys <= needed && needed - left <= slotOf.Keys
        invariant forall b | b in old(slotOf) :: b in slotOf && slotOf[b] == old(slotOf)[b]
        invariant forall b | b in slotOf && b !in old(slotOf) :: slotOf[b] in zeroed
        invariant forall i | 0 <= i < |zeroed| :: NewSlot(old(slotOf), slotOf, zeroed[i])
        invariant forall i, j | 0 <= i < j < |zeroed| :: zeroed[i] != zeroed[j]
        invariant forall i | 0 <= i < |zeroed| :: zeroed[i] !in free
        decreases |left|
      {
        var b := PickOne(left);
        left := left - {b};
        if b !in slotOf {
          if free == [] {
            SlotsAddUp(slotOf, free, pool);
            SubsetSize(slotOf.Keys + {b}, needed);
            return zeroed, true;
          }
          ghost var before := slotOf;
          FreeIsDistinct(slotOf, free, pool);
          var slot := Take(b);
          forall i | 0 <= i < |zeroed| ensures NewSlot(old(slotOf), slotOf, zeroed[i]) {
            StaysNew(old(slotOf), before, b, slot, zeroed[i]);
          }
          assert NewAt(old(slotOf), slotOf, b, slot);
          zeroed := zeroed + [slot];
        }
      }
      SlotsAddUp(slotOf, free, pool);
      SubsetSize(needed, slotOf.Keys);
    }

    /** Hands the last free slot to a block. */
    method Take(b: int) returns (slot: int)
      requires Valid() && b !in slotOf && free != []
      modifies this`slotOf, this`free, table
      ensures Valid() && slotOf == old(slotOf)[b := slot]
      ensures slot == old(free)[|old(free)| - 1] && free == old(free)[..|old(free)| - 1]
      ensures table[..] == if 0 <= b < table.Length then old(table[..])[b := slot] else old(table[..])
    {
      TakeKeeps(slotOf, free, pool, b);
      slot := free[|free| - 1];
      free := free[..|free| - 1];
      slotOf := slotOf[b := slot];
      if 0 <= b < table.Length { table[b] := slot; }
    }

    /**
     Reads off what the step writes and what is full. Needed are exactly the blocks written. Queued
     for flushing are slot-holding blocks in the run below some request's committed boundary, and all
     of them where rows share only common prefixes.
     */
    method Collect(reqs: seq<Request>) returns (needed: set<int>, flush: set<int>)
      requires group >= 1
      modifies this`fill
      ensures needed == Needed(reqs, group)
      ensures flush <= slotOf.Keys && forall b | b in flush :: Queued(reqs, group, slotOf, |reqs|, b)
      ensures forall i | 0 <= i < |reqs| :: BoundaryQueued(reqs[i], group, slotOf, flush)
      ensures SharedPrefixes(reqs, group) ==> AllQueued(reqs, group, slotOf, |reqs|, flush)
      ensures forall b | b in needed :: b in fill && LeavesFill(reqs, group, b, fill[b])
      ensures forall b | b !in needed :: (b in fill <==> b in old(fill)) && (b in fill ==> fill[b] == old(fill)[b])
    {
      hide Queued, AllQueued, SharedPrefixes, LeavesFill, Writes;
      needed, flush := {}, {};
      NoneQueued(reqs, group, slotOf);
      var n := 0;
      while n < |reqs|
        invariant n <= |reqs| && needed == Needed(reqs[..n], group)
        invariant flush <= slotOf.Keys && forall b | b in flush :: Queued(reqs, group, slotOf, n, b)
        invariant forall i | 0 <= i < n :: BoundaryQueued(reqs[i], group, slotOf, flush)
        invariant SharedPrefixes(reqs, group) ==> AllQueued(reqs, group, slotOf, n, flush)
        invariant forall b | b in needed :: b in fill && LeavesFill(reqs, group, b, fill[b])
        invariant forall b | b !in needed :: (b in fill <==> b in old(fill)) && (b in fill ==> fill[b] == old(fill)[b])
      {
        assert reqs[..n + 1][..n] == reqs[..n];
        needed := CollectOne(reqs, n, needed);
        flush := WalkBack(reqs, n, flush);
        n := n + 1;
      }
      assert reqs[..n] == reqs;
    }

    /** The blocks one request writes, and how full each will be. */
    method CollectOne(reqs: seq<Request>, n: nat, before: set<int>) returns (needed: set<int>)
      requires group >= 1 && n < |reqs|
      requires forall b | b in before :: b in fill && LeavesFill(reqs, group, b, fill[b])
      modifies this`fill
      ensures needed == before + Writes(reqs[n], group)
      ensures forall b | b in needed :: b in fill && LeavesFill(reqs, group, b, fill[b])
      ensures forall b | b !in needed :: (b in fill <==> b in old(fill)) && (b in fill ==> fill[b] == old(fill)[b])
    {
      hide LeavesFill, FillAt;
      needed := before;
      var r := reqs[n];
      var k, end := FirstWritten(r, group), EndWritten(r, group);
      ghost var first := k;
      while k < end
        invariant first <= k && (k <= end || k == first)
        invariant needed == before + Collected(r.row, first, if k <= end then k else end)
        invariant forall b | b in needed :: b in fill && LeavesFill(reqs, group, b, fill[b])
        invariant forall b | b !in needed :: (b in fill <==> b in old(fill)) && (b in fill ==> fill[b] == old(fill)[b])
      {
        var b := r.row[k];
        if b >= 0 {
          LeavesHere(reqs, group, n, k);
          needed := needed + {b};
          fill := fill[b := FillAt(r.len, group, k)];
        }
        k := k + 1;
      }
    }

    /**
     Walks down from the committed boundary while blocks hold slots and are not yet queued, and stops
     at the first block that holds none or is queued already.
     */
    method WalkBack(reqs: seq<Request>, n: nat, before: set<int>) returns (flush: set<int>)
      requires group >= 1 && n < |reqs|
      requires before <= slotOf.Keys && forall b | b in before :: Queued(reqs, group, slotOf, n, b)
      ensures before <= flush <= slotOf.Keys && forall b | b in flush :: Queued(reqs, group, slotOf, n + 1, b)
      ensures reqs[n].len > 0 ==> exists k :: Walked(reqs, group, slotOf, n, before, flush, k)
      ensures BoundaryQueued(reqs[n], group, slotOf, flush)
      ensures SharedPrefixes(reqs, group) && AllQueued(reqs, group, slotOf, n, before) ==>
                AllQueued(reqs, group, slotOf, n + 1, flush)
    {
      hide Queued, SharedPrefixes, AllQueued;
      flush := before;
      forall b | b in flush ensures Queued(reqs, group, slotOf, n + 1, b) { QueuedMore(reqs, group, slotOf, n, b); }
      var r := reqs[n];
      ghost var top := FirstWritten(r, group);
      if r.row == [] || r.len == 0 {
        ghost var stop := top - 1;
        assert r.len > 0 ==> Walked(reqs, group, slotOf, n, before, flush, stop);
        if SharedPrefixes(reqs, group) && AllQueued(reqs, group, slotOf, n, before) {
          WalkCompletes(reqs, group, slotOf, n, before, flush, stop);
        }
        return;
      }
      var k := FirstWritten(r, group) - 1;
      while 0 <= k < |r.row| && r.row[k] >= 0 && r.row[k] !in flush && r.row[k] in slotOf
        invariant -1 <= k < top && before <= flush <= slotOf.Keys
        invariant k < top - 1 ==> top <= |r.row|
        invariant forall m | k < m < top && m < |r.row| :: r.row[m] >= 0 && r.row[m] in slotOf
        invariant forall m | k < m < top && m < |r.row| :: r.row[m] in flush
        invariant forall b | b in flush :: Queued(reqs, group, slotOf, n + 1, b)
        invariant forall b | b in flush && b !in before :: exists m :: k < m < top && m < |r.row| && r.row[m] == b
        decreases k
      {
        QueuedHere(reqs, group, slotOf, n, k);
        flush := flush + {r.row[k]};
        k := k - 1;
      }
      assert Walked(reqs, group, slotOf, n, before, flush, k);
      if SharedPrefixes(reqs, group) && AllQueued(reqs, group, slotOf, n, before) {
        WalkCompletes(reqs, group, slotOf, n, before, flush, k);
      }
    }

    /** Slot-holding blocks nobody writes: complete ones are flushed, partial ones dropped. */
    method Reclaim(needed: set<int>, before: set<int>) returns (flush: set<int>, dropped: set<int>)
      requires before <= slotOf.Keys
      ensures before <= flush && flush + dropped <= slotOf.Keys && slotOf.Keys - needed <= flush + dropped
      ensures dropped !! needed && dropped !! flush && forall b | b in dropped :: FillOf(fill, b) < group
      ensures forall b | b in flush && b !in before :: b !in needed && FillOf(fill, b) >= group
    {
      flush, dropped := before, {};
      var left := slotOf.Keys - needed - before;
      while left != {}
        invariant left <= slotOf.Keys - needed - before && left !! flush + dropped
        invariant before <= flush && flush + dropped <= slotOf.Keys
        invariant slotOf.Keys - needed <= flush + dropped + left
        invariant dropped !! needed && dropped !! flush && forall b | b in dropped :: FillOf(fill, b) < group
        invariant forall b | b in flush && b !in before :: b !in needed && FillOf(fill, b) >= group
        decreases |left|
      {
        var b := PickOne(left);
        left := left - {b};
        if FillOf(fill, b) >= group { flush := flush + {b}; } else { dropped := dropped + {b}; }
      }
    }

    /** One full step of the builder. */
    method Build(reqs: seq<Request>) returns (o: Outcome)
      requires Valid()
      modifies this`slotOf, this`free, this`fill, table
      ensures Valid() && Built(reqs, group, pool, old(slotOf), old(fill), o, slotOf, fill)
    {
      hide Needed, SlotsOk, Mirrors, Queued, LeavesFill, AllQueued, SharedPrefixes, BoundaryQueued, NewSlot,
           ZeroedExactly, FillRecorded;
      var needed, queued := Collect(reqs);
      ghost var noted := fill;
      var flush, dropped := Reclaim(needed, queued);
      ReleaseAll(flush);
      ReleaseAll(dropped);
      ghost var kept := slotOf;
      var zeroed, exhausted := Allocate(needed);
      o := Outcome(flush, dropped, zeroed, exhausted);
      ZeroedAre(old(slotOf), kept, slotOf, o);
      FillsAre(reqs, group, old(fill), noted, fill, o);
      if SharedPrefixes(reqs, group) { AllQueuedMore(reqs, group, old(slotOf), queued, flush); }
      forall i | 0 <= i < |reqs| ensures BoundaryQueued(reqs[i], group, old(slotOf), flush) {
        BoundaryMore(reqs[i], group, old(slotOf), queued, flush);
      }
    }

    /**
     One step with the shortcut. A skipped step changes nothing but the recorded lengths. A step that is
     not skipped gives every block it writes a slot, unless the pool is too small. A skipped step finds
     slots for all the blocks it writes if no position's tail block changed since the last full step,
     and, for written blocks that stay with their requests, only then.
     */
    method Advance(reqs: seq<Request>) returns (skipped: bool, o: Outcome)
      requires Valid() && Current()
      modifies this, table
      ensures Valid() && prev == Lengths(reqs)
      ensures skipped <==> SkipGuard(old(prev), reqs, group)
      ensures !skipped ==> Built(reqs, group, pool, old(slotOf), old(fill), o, slotOf, fill) && built == reqs
      ensures skipped ==> slotOf == old(slotOf) && free == old(free) && fill == old(fill) && table[..] == old(table[..])
      ensures skipped ==> o == Outcome({}, {}, [], false) && built == old(built)
      ensures !o.exhausted ==> Current()
      ensures !skipped && |Needed(reqs, group)| <= pool ==> Covered(slotOf, reqs, group)
      ensures skipped && Scheduled(built) && Scheduled(reqs) && TailsKept(built, reqs, group) ==>
                Covered(slotOf, reqs, group)
      ensures skipped && Scheduled(built) && Scheduled(reqs) && RowsReach(reqs, group)
              && StayPut(built, reqs, group) ==>
                (Covered(slotOf, reqs, group) <==> TailsKept(built, reqs, group))
    {
      hide Needed, SlotsOk, Mirrors, Queued, LeavesFill, AllQueued, SharedPrefixes, LengthSince, SteadyLength, Tokens;
      if SkipGuard(prev, reqs, group) {
        GuardKeepsSince(built, prev, reqs, group);
        if SteadyLengths(built, reqs, group) && TailsKept(built, reqs, group) {
          SkipCovers(built, reqs, group, slotOf);
        }
        if SteadyLengths(built, reqs, group) && RowsReach(reqs, group) && StayPut(built, reqs, group) {
          SkipCoversExactly(built, reqs, group, slotOf);
        }
        prev := Lengths(reqs);
        return true, Outcome({}, {}, [], false);
      }
      prev := Lengths(reqs);
      built := reqs;
      SinceItself(reqs, group);
      o := Build(reqs);
      return false, o;
    }
  }

  lemma NoneQueued(reqs: seq<Request>, group: nat, slots: map<int, int>)
    requires group >= 1
    ensures AllQueued(reqs, group, slots, 0, {})
  {
  }

  lemma AllQueuedMore(reqs: seq<Request>, group: nat, slots: map<int, int>, flush: set<int>, more: set<int>)
    requires group >= 1 && AllQueued(reqs, group, slots, |reqs|, flush) && flush <= more
    ensures AllQueued(reqs, group, slots, |reqs|, more)
  {
  }

  lemma BoundaryMore(r: Request, group: nat, slots: map<int, int>, flush: set<int>, more: set<int>)
    requires group >= 1 && BoundaryQueued(r, group, slots, flush) && flush <= more
    ensures BoundaryQueued(r, group, slots, more)
  {
  }

  lemma QueuedMore(reqs: seq<Request>, group: nat, slots: map<int, int>, n: nat, b: int)
    requires group >= 1 && Queued(reqs, group, slots, n, b)
    ensures Queued(reqs, group, slots, n + 1, b)
  {
  }

  lemma QueuedHere(reqs: seq<Request>, group: nat, slots: map<int, int>, n: nat, k: nat)
    requires group >= 1 && n < |reqs| && reqs[n].len > 0 && k < FirstWritten(reqs[n], group) <= |reqs[n].row|
    requires forall m | k <= m < FirstWritten(reqs[n], group) :: reqs[n].row[m] >= 0 && reqs[n].row[m] in slots
    ensures Queued(reqs, group, slots, n + 1, reqs[n].row[k])
  {
    assert RunHeld(reqs[n], group, slots, k);
    assert QueuedBy(reqs, group, slots, reqs[n].row[k], n, k);
  }

  lemma LeavesHere(reqs: seq<Request>, group: nat, n: nat, k: nat)
    requires group >= 1 && WritesAt(reqs, group, n, k)
    ensures LeavesFill(reqs, group, reqs[n].row[k], FillAt(reqs[n].len, group, k))
  {
    assert NeededBy(reqs, group, reqs[n].row[k], n, k);
  }
}
