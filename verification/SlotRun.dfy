/**
 Runs of builder steps, skipped ones included. The recorded fill never takes a complete block for an
 incomplete one, so that no complete block is ever dropped; and what a skipped step leaves undone can
 be read off the last step that was not skipped.
 */
module SlotRun {
  import opened SlotLifecycle
  import opened SlotStep

  /**
   The builder's tables, the tokens written to each block so far, the lengths of the last step, and
   the requests of the last step that was not skipped.
   */
  datatype Snap = Snap(slots: map<int, int>, fill: map<int, int>, present: map<int, int>, prev: seq<nat>,
                       built: seq<Request>)

  /** A step writes its blocks whether or not the builder ran for it. */
  ghost predicate Written(group: nat, was: map<int, int>, reqs: seq<Request>, now: map<int, int>)
    requires group >= 1
  {
    && (forall b | b in Needed(reqs, group) :: b in now && LeavesFill(reqs, group, b, now[b]))
    && (forall b | b !in Needed(reqs, group) :: (b in now <==> b in was) && (b in was ==> now[b] == was[b]))
  }

  ghost predicate Advanced(group: nat, pool: nat, s: Snap, reqs: seq<Request>, o: Outcome, s': Snap)
    requires group >= 1
  {
    && s'.prev == Lengths(reqs) && Written(group, s.present, reqs, s'.present)
    && if SkipGuard(s.prev, reqs, group) then
         s'.slots == s.slots && s'.fill == s.fill && s'.built == s.built && o == Outcome({}, {}, [], false)
       else
         s'.built == reqs && Built(reqs, group, pool, s.slots, s.fill, o, s'.slots, s'.fill)
  }

  /** Every request has new tokens, and the blocks it writes are its own. */
  ghost predicate Orderly(group: nat, reqs: seq<Request>)
    requires group >= 1
  {
    Scheduled(reqs) && PrivateWrites(reqs, group)
  }

  /** A slot-holding block with all its tokens is recorded as complete. */
  ghost predicate Sound(group: nat, s: Snap) {
    forall b | b in s.slots :: b in s.present && (s.present[b] >= group ==> FillOf(s.fill, b) >= group)
  }

  lemma FillIsOne(reqs: seq<Request>, group: nat, b: int, f: int, i: nat, k: nat)
    requires group >= 1 && PrivateWrites(reqs, group) && LeavesFill(reqs, group, b, f) && NeededBy(reqs, group, b, i, k)
    ensures f == FillAt(reqs[i].len, group, k)
  {
    hide FillAt, FirstWritten, EndWritten;
    var j: nat, m: nat :| NeededBy(reqs, group, b, j, m) && f == FillAt(reqs[j].len, group, m);
    assert WritesAt(reqs, group, i, k) && UsedAt(reqs, group, j, m);
  }

  /** Whatever a skipped step writes, it leaves incomplete. */
  lemma SkippedIncomplete(prev: seq<nat>, reqs: seq<Request>, group: nat, b: int, f: int)
    requires group >= 1 && SkipGuard(prev, reqs, group) && Scheduled(reqs) && LeavesFill(reqs, group, b, f)
    ensures f < group
  {
    hide Tokens;
    var i: nat, k: nat :| NeededBy(reqs, group, b, i, k) && f == FillAt(reqs[i].len, group, k);
    TokensAtLeast(reqs, i);
    TailBlock(reqs[i].len, group);
    SkippedTailIncomplete(reqs[i].len, group);
  }

  lemma SkipKeepsSound(group: nat, pool: nat, s: Snap, reqs: seq<Request>, o: Outcome, s': Snap)
    requires group >= 1 && Sound(group, s) && Scheduled(reqs) && Advanced(group, pool, s, reqs, o, s')
    requires SkipGuard(s.prev, reqs, group)
    ensures Sound(group, s')
    ensures forall b | b in Needed(reqs, group) :: b in s'.present && s'.present[b] < group
  {
    hide Needed, LeavesFill, Built, SkipGuard;
    forall b | b in Needed(reqs, group) ensures b in s'.present && s'.present[b] < group {
      SkippedIncomplete(s.prev, reqs, group, b, s'.present[b]);
    }
  }

  lemma NeededNotFlushed(group: nat, pool: nat, reqs: seq<Request>, slots: map<int, int>, fill: map<int, int>,
                         o: Outcome, slots': map<int, int>, fill': map<int, int>, b: int)
    requires group >= 1 && PrivateWrites(reqs, group) && Built(reqs, group, pool, slots, fill, o, slots', fill')
    requires b in Needed(reqs, group)
    ensures b !in o.flushed
  {
    hide Needed, LeavesFill, PrivateWrites, AllQueued, SharedPrefixes, BoundaryQueued;
    if Queued(reqs, group, slots, |reqs|, b) {
      var i: nat, k: nat :| i < |reqs| && QueuedBy(reqs, group, slots, b, i, k);
      BelowIsNotNeeded(reqs, group, i, k);
    }
  }

  /** After a full step the recorded fill of every slot-holding block is what is written to it. */
  lemma BuildRecordsFill(group: nat, pool: nat, s: Snap, reqs: seq<Request>, o: Outcome, s': Snap, b: int)
    requires group >= 1 && PrivateWrites(reqs, group) && Advanced(group, pool, s, reqs, o, s')
    requires !SkipGuard(s.prev, reqs, group) && b in s'.slots
    ensures b in s'.fill && b in s'.present && s'.fill[b] == s'.present[b]
  {
    hide Needed, PrivateWrites, AllQueued, SharedPrefixes, BoundaryQueued, Queued, SkipGuard, LeavesFill;
    assert b in s'.slots.Keys;
    NeededNotFlushed(group, pool, reqs, s.slots, s.fill, o, s'.slots, s'.fill, b);
    var i, k := NeededFrom(reqs, group, b);
    FillIsOne(reqs, group, b, s'.fill[b], i, k);
    FillIsOne(reqs, group, b, s'.present[b], i, k);
  }

  /** A step drops only blocks that are incomplete, and flushes every complete block it does not write. */
  lemma StepDropsNoCompleteBlock(group: nat, pool: nat, s: Snap, reqs: seq<Request>, o: Outcome, s': Snap)
    requires group >= 1 && Sound(group, s) && Orderly(group, reqs) && Advanced(group, pool, s, reqs, o, s')
    ensures Sound(group, s')
    ensures forall b | b in o.dropped :: b in s.present && s.present[b] < group
    ensures !SkipGuard(s.prev, reqs, group) ==>
              forall b | b in s.slots && b !in Needed(reqs, group) && s.present[b] >= group :: b in o.flushed
  {
    hide Needed, PrivateWrites, AllQueued, SharedPrefixes, BoundaryQueued, Queued, SkipGuard, LeavesFill, Written;
    if SkipGuard(s.prev, reqs, group) {
      SkipKeepsSound(group, pool, s, reqs, o, s');
    } else {
      forall b | b in s'.slots ensures b in s'.fill && b in s'.present && s'.fill[b] == s'.present[b] {
        BuildRecordsFill(group, pool, s, reqs, o, s', b);
      }
    }
  }

  /**
   A full step drops a block that is in no request's committed run exactly when it holds a slot, is
   recorded as incomplete and is not written: so a request left out of a step loses its tail block.
   */
  lemma DroppedExactly(reqs: seq<Request>, group: nat, pool: nat, slots: map<int, int>, fill: map<int, int>,
                       o: Outcome, slots': map<int, int>, fill': map<int, int>, b: int)
    requires group >= 1 && Built(reqs, group, pool, slots, fill, o, slots', fill')
    requires !Queued(reqs, group, slots, |reqs|, b)
    ensures b in o.dropped <==> b in slots && b !in Needed(reqs, group) && (b in fill ==> fill[b] < group)
  {
    hide Needed, LeavesFill, AllQueued, SharedPrefixes, BoundaryQueued, Queued;
  }

  // ----- only complete blocks are flushed

  /** Slot-holding blocks are recorded as complete exactly when they are. */
  ghost predicate Exact(group: nat, s: Snap) {
    forall b | b in s.slots :: b in s.present && (s.present[b] >= group <==> FillOf(s.fill, b) >= group)
  }

  /** Committed blocks have been written in full, and a skipped step does not start a complete block anew. */
  ghost predicate Careful(group: nat, s: Snap, reqs: seq<Request>)
    requires group >= 1
  {
    && (forall i: nat, a: nat | CommittedAt(reqs, group, i, a) && reqs[i].row[a] in s.slots ::
        reqs[i].row[a] in s.present && s.present[reqs[i].row[a]] >= group)
    && (SkipGuard(s.prev, reqs, group) ==>
        forall b | b in Needed(reqs, group) && b in s.slots :: FillOf(s.fill, b) < group)
  }

  lemma StepFlushesOnlyComplete(group: nat, pool: nat, s: Snap, reqs: seq<Request>, o: Outcome, s': Snap)
    requires group >= 1 && Exact(group, s) && Orderly(group, reqs) && Careful(group, s, reqs)
    requires Advanced(group, pool, s, reqs, o, s')
    ensures Exact(group, s')
    ensures forall b | b in o.flushed :: b in s.present && s.present[b] >= group
  {
    hide Needed, PrivateWrites, AllQueued, SharedPrefixes, BoundaryQueued, SkipGuard, LeavesFill, Written, FirstWritten;
    if SkipGuard(s.prev, reqs, group) {
      SkipKeepsSound(group, pool, s, reqs, o, s');
      forall b | b in s'.slots && b !in Needed(reqs, group)
        ensures b in s'.present && s'.present[b] == s.present[b]
      {
        PresentStays(group, s.present, reqs, s'.present, b);
      }
    } else {
      forall b | b in s'.slots ensures b in s'.fill && b in s'.present && s'.fill[b] == s'.present[b] {
        BuildRecordsFill(group, pool, s, reqs, o, s', b);
      }
      forall b | b in o.flushed ensures b in s.present && s.present[b] >= group {
        if Queued(reqs, group, s.slots, |reqs|, b) {
          var i: nat, k: nat :| i < |reqs| && QueuedBy(reqs, group, s.slots, b, i, k);
          assert CommittedAt(reqs, group, i, k);
        }
      }
    }
  }

  lemma PresentStays(group: nat, was: map<int, int>, reqs: seq<Request>, now: map<int, int>, b: int)
    requires group >= 1 && Written(group, was, reqs, now) && b in was && b !in Needed(reqs, group)
    ensures b in now && now[b] == was[b]
  {
  }

  // ----- whole runs

  ghost predicate IsRun(group: nat, pool: nat, snaps: seq<Snap>, steps: seq<seq<Request>>, outs: seq<Outcome>)
    requires group >= 1
  {
    && |snaps| == |steps| + 1 && |outs| == |steps|
    && forall i | 0 <= i < |steps| :: StepAt(group, pool, snaps, steps, outs, i)
  }

  ghost predicate StepAt(group: nat, pool: nat, snaps: seq<Snap>, steps: seq<seq<Request>>, outs: seq<Outcome>, i: nat)
    requires group >= 1 && |snaps| == |steps| + 1 && |outs| == |steps| && i < |steps|
  {
    Orderly(group, steps[i]) && Advanced(group, pool, snaps[i], steps[i], outs[i], snaps[i + 1])
  }

  lemma {:induction false} RunIsSound(group: nat, pool: nat, snaps: seq<Snap>, steps: seq<seq<Request>>,
                                      outs: seq<Outcome>, i: nat)
    requires group >= 1 && IsRun(group, pool, snaps, steps, outs) && Sound(group, snaps[0]) && i < |snaps|
    ensures Sound(group, snaps[i])
  {
    hide Sound, Orderly, Advanced;
    if i > 0 {
      RunIsSound(group, pool, snaps, steps, outs, i - 1);
      assert StepAt(group, pool, snaps, steps, outs, i - 1);
      StepDropsNoCompleteBlock(group, pool, snaps[i - 1], steps[i - 1], outs[i - 1], snaps[i]);
    }
  }

  /** Over any sequence of steps, skipped ones included, no block with all its tokens written is dropped. */
  lemma CompleteBlocksSurvive(group: nat, pool: nat, snaps: seq<Snap>, steps: seq<seq<Request>>,
                              outs: seq<Outcome>, i: nat, b: int)
    requires group >= 1 && IsRun(group, pool, snaps, steps, outs) && Sound(group, snaps[0]) && i < |steps|
    requires b in outs[i].dropped
    ensures b in snaps[i].present && snaps[i].present[b] < group
  {
    hide Sound, Orderly, Advanced;
    RunIsSound(group, pool, snaps, steps, outs, i);
    assert StepAt(group, pool, snaps, steps, outs, i);
    StepDropsNoCompleteBlock(group, pool, snaps[i], steps[i], outs[i], snaps[i + 1]);
  }

  lemma {:induction false} RunIsExact(group: nat, pool: nat, snaps: seq<Snap>, steps: seq<seq<Request>>,
                                      outs: seq<Outcome>, i: nat)
    requires group >= 1 && IsRun(group, pool, snaps, steps, outs) && Exact(group, snaps[0]) && i < |snaps|
    requires forall j | 0 <= j < i :: Careful(group, snaps[j], steps[j])
    ensures Exact(group, snaps[i])
  {
    hide Exact, Orderly, Advanced, Careful;
    if i > 0 {
      RunIsExact(group, pool, snaps, steps, outs, i - 1);
      assert StepAt(group, pool, snaps, steps, outs, i - 1);
      StepFlushesOnlyComplete(group, pool, snaps[i - 1], steps[i - 1], outs[i - 1], snaps[i]);
    }
  }

  /** Over any sequence of careful steps, no block is flushed before all its tokens are written. */
  lemma OnlyCompleteBlocksFlushed(group: nat, pool: nat, snaps: seq<Snap>, steps: seq<seq<Request>>,
                                  outs: seq<Outcome>, i: nat, b: int)
    requires group >= 1 && IsRun(group, pool, snaps, steps, outs) && Exact(group, snaps[0]) && i < |steps|
    requires forall j | 0 <= j <= i :: Careful(group, snaps[j], steps[j])
    requires b in outs[i].flushed
    ensures b in snaps[i].present && snaps[i].present[b] >= group
  {
    hide Exact, Orderly, Advanced, Careful;
    RunIsExact(group, pool, snaps, steps, outs, i);
    assert StepAt(group, pool, snaps, steps, outs, i);
    StepFlushesOnlyComplete(group, pool, snaps[i], steps[i], outs[i], snaps[i + 1]);
  }

  // ----- skipped steps in a run

  /** Exactly the blocks of the last full step hold slots, and skipped steps kept to its tail blocks. */
  ghost predicate Current(group: nat, pool: nat, s: Snap)
    requires group >= 1
  {
    Since(s.built, s.prev, group) && s.slots.Keys == Needed(s.built, group) && |s.slots| <= pool
  }

  lemma {:induction false} RunIsCurrent(group: nat, pool: nat, snaps: seq<Snap>, steps: seq<seq<Request>>,
                                        outs: seq<Outcome>, i: nat)
    requires group >= 1 && IsRun(group, pool, snaps, steps, outs) && Current(group, pool, snaps[0]) && i < |snaps|
    requires forall j | 0 <= j < i :: !outs[j].exhausted
    ensures Current(group, pool, snaps[i])
  {
    hide Needed, Orderly, SkipGuard, Written, AllQueued, SharedPrefixes, Queued, LeavesFill, BoundaryQueued, Since;
    if i > 0 {
      RunIsCurrent(group, pool, snaps, steps, outs, i - 1);
      assert StepAt(group, pool, snaps, steps, outs, i - 1);
      if SkipGuard(snaps[i - 1].prev, steps[i - 1], group) {
        GuardKeepsSince(snaps[i - 1].built, snaps[i - 1].prev, steps[i - 1], group);
      } else {
        SinceItself(steps[i - 1], group);
      }
    }
  }

  predicate SameRows(built: seq<Request>, reqs: seq<Request>, group: nat)
    requires group >= 1
  {
    |built| == |reqs| && forall i | 0 <= i < |reqs| :: SameRow(built[i], reqs[i], group)
  }

  lemma SteadyIs(built: seq<Request>, reqs: seq<Request>, group: nat)
    requires group >= 1 && SteadyLengths(built, reqs, group) && SameRows(built, reqs, group)
    ensures SteadyDecode(built, reqs, group)
  {
    hide SteadyLength, SameRow;
    forall i | 0 <= i < |reqs| ensures Continues(built[i], reqs[i], group) {}
  }

  /**
   In any run, for any step that passes the length guard with the block tables of the last full step,
   running the builder would leave all slots alone if and only if every request still writes only the
   first block it wrote in that full step, however many steps were skipped since.
   */
  lemma SkippedStepIsNoOpExactly(group: nat, pool: nat, snaps: seq<Snap>, steps: seq<seq<Request>>, outs: seq<Outcome>,
                                 i: nat, o: Outcome, slots': map<int, int>, fill': map<int, int>)
    requires group >= 1 && IsRun(group, pool, snaps, steps, outs) && Current(group, pool, snaps[0]) && i < |steps|
    requires forall j | 0 <= j < i :: !outs[j].exhausted
    requires SkipGuard(snaps[i].prev, steps[i], group) && Orderly(group, snaps[i].built)
    requires SameRows(snaps[i].built, steps[i], group) && RowsReach(snaps[i].built, group)
    requires Built(steps[i], group, pool, snaps[i].slots, snaps[i].fill, o, slots', fill')
    ensures NoSlotChange(o, snaps[i].slots, slots') <==> SameFirsts(snaps[i].built, steps[i], group)
  {
    hide Needed, Advanced, SkipGuard, PrivateWrites, RowsReach, Built, Since, SameRows, NoSlotChange, SteadyLengths;
    RunIsCurrent(group, pool, snaps, steps, outs, i);
    assert StepAt(group, pool, snaps, steps, outs, i);
    var s := snaps[i];
    GuardKeepsSince(s.built, s.prev, steps[i], group);
    SteadyIs(s.built, steps[i], group);
    SkipIsNoOpExactly(s.built, steps[i], group, pool, s.slots, s.fill, o, slots', fill');
  }

  /**
   In any run, a step that passes the length guard finds slots for all the blocks it writes if and
   only if no position's tail block has changed since the last full step.
   */
  lemma SkippedStepCoversExactly(group: nat, pool: nat, snaps: seq<Snap>, steps: seq<seq<Request>>,
                                 outs: seq<Outcome>, i: nat)
    requires group >= 1 && IsRun(group, pool, snaps, steps, outs) && Current(group, pool, snaps[0]) && i < |steps|
    requires forall j | 0 <= j < i :: !outs[j].exhausted
    requires SkipGuard(snaps[i].prev, steps[i], group) && Scheduled(snaps[i].built)
    requires RowsReach(steps[i], group) && StayPut(snaps[i].built, steps[i], group)
    ensures |snaps[i].built| == |steps[i]|
    ensures Covered(snaps[i].slots, steps[i], group) <==> TailsKept(snaps[i].built, steps[i], group)
  {
    hide Needed, Advanced, SkipGuard, PrivateWrites, RowsReach, Since, StayPut, Covered, TailsKept, SteadyLength;
    RunIsCurrent(group, pool, snaps, steps, outs, i);
    assert StepAt(group, pool, snaps, steps, outs, i);
    var s := snaps[i];
    GuardKeepsSince(s.built, s.prev, steps[i], group);
    SkipCoversExactly(s.built, steps[i], group, s.slots);
  }
}
