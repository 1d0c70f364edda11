/**
 What one full step of the slot builder does, as a relation between the slot tables before and after
 it, and what follows for the shortcut that skips it.
 */
module SlotStep {
  import opened SlotLifecycle

  /** What a step did: blocks flushed to tiles, blocks dropped, slots zeroed for new blocks. */
  datatype Outcome = Outcome(flushed: set<int>, dropped: set<int>, zeroed: seq<int>, exhausted: bool)

  function Lengths(reqs: seq<Request>): seq<nat> { seq(|reqs|, i requires 0 <= i < |reqs| => reqs[i].len) }

  function FillOf(fill: map<int, int>, b: int): int { if b in fill then fill[b] else 0 }

  /** Blocks `k` up to the committed boundary of a request all hold slots. */
  predicate RunHeld(r: Request, group: nat, slots: map<int, int>, k: nat)
    requires group >= 1
  {
    && r.len > 0 && k < FirstWritten(r, group) <= |r.row|
    && forall j | k <= j < FirstWritten(r, group) :: r.row[j] >= 0 && r.row[j] in slots
  }

  predicate QueuedBy(reqs: seq<Request>, group: nat, slots: map<int, int>, b: int, i: nat, k: nat)
    requires group >= 1
  {
    i < |reqs| && RunHeld(reqs[i], group, slots, k) && reqs[i].row[k] == b
  }

  /** Block `b` is in the run of slot-holding blocks below the boundary of one of the first `n` requests. */
  ghost predicate Queued(reqs: seq<Request>, group: nat, slots: map<int, int>, n: nat, b: int)
    requires group >= 1
  {
    exists i: nat, k: nat :: i < n && QueuedBy(reqs, group, slots, b, i, k)
  }

  /** A block id below two committed boundaries stands at the same place, after the same blocks. */
  ghost predicate SharedPrefixes(reqs: seq<Request>, group: nat)
    requires group >= 1
  {
    forall i: nat, a: nat, j: nat, c: nat | CommittedAt(reqs, group, i, a) && CommittedAt(reqs, group, j, c) ::
      reqs[i].row[a] >= 0 && reqs[i].row[a] == reqs[j].row[c] ==>
        a == c && forall m | 0 <= m < a :: reqs[i].row[m] == reqs[j].row[m]
  }

  /** Entry `a` of the row of request `i` is a block below its committed boundary. */
  predicate CommittedAt(reqs: seq<Request>, group: nat, i: nat, a: nat)
    requires group >= 1
  {
    i < |reqs| && a < |reqs[i].row| && a < FirstWritten(reqs[i], group)
  }

  /** Every run below a boundary of the first `n` requests is queued. */
  ghost predicate AllQueued(reqs: seq<Request>, group: nat, slots: map<int, int>, n: nat, flush: set<int>)
    requires group >= 1 && n <= |reqs|
  {
    forall i: nat, k: nat | i < n && RunHeld(reqs[i], group, slots, k) :: reqs[i].row[k] in flush
  }

  /** Some request of the step leaves block `b` with `f` tokens. */
  ghost predicate LeavesFill(reqs: seq<Request>, group: nat, b: int, f: int)
    requires group >= 1
  {
    exists i: nat, k: nat :: NeededBy(reqs, group, b, i, k) && f == FillAt(reqs[i].len, group, k)
  }

  /** The block just below a request's committed boundary is queued if it holds a slot. */
  ghost predicate BoundaryQueued(r: Request, group: nat, slots: map<int, int>, flush: set<int>)
    requires group >= 1
  {
    var k := FirstWritten(r, group) - 1;
    r.len > 0 && 0 <= k < |r.row| && r.row[k] >= 0 && r.row[k] in slots ==> r.row[k] in flush
  }

  /** A block that holds a slot after the step and held none, or was flushed. */
  predicate GetsSlot(slots: map<int, int>, o: Outcome, slots': map<int, int>, b: int) {
    b in slots' && (b !in slots || b in o.flushed)
  }

  predicate GetsSlotAt(slots: map<int, int>, o: Outcome, slots': map<int, int>, b: int, slot: int) {
    GetsSlot(slots, o, slots', b) && slots'[b] == slot
  }

  ghost predicate GivesSlot(slots: map<int, int>, o: Outcome, slots': map<int, int>, slot: int) {
    exists b :: GetsSlotAt(slots, o, slots', b, slot)
  }

  /** The slots zeroed are exactly those of the blocks that get one, each once; all others keep theirs. */
  ghost predicate ZeroedExactly(slots: map<int, int>, o: Outcome, slots': map<int, int>) {
    && (forall b | b in slots' && !GetsSlot(slots, o, slots', b) :: slots'[b] == slots[b])
    && (forall b | GetsSlot(slots, o, slots', b) :: slots'[b] in o.zeroed)
    && (forall i | 0 <= i < |o.zeroed| :: GivesSlot(slots, o, slots', o.zeroed[i]))
    && (forall i, j | 0 <= i < j < |o.zeroed| :: o.zeroed[i] != o.zeroed[j])
  }

  /** The recorded fill: of the written blocks what the step leaves there, nothing of blocks that gave up their slot. */
  ghost predicate FillRecorded(reqs: seq<Request>, group: nat, fill: map<int, int>, o: Outcome, fill': map<int, int>)
    requires group >= 1
  {
    && (forall b :: b in fill' <==> (b in Needed(reqs, group) || b in fill) && b !in o.flushed && b !in o.dropped)
    && (forall b | b in fill' && b in Needed(reqs, group) :: LeavesFill(reqs, group, b, fill'[b]))
    && (forall b | b in fill' && b !in Needed(reqs, group) :: fill'[b] == fill[b])
  }

  /**
   One full step. It runs out of slots exactly when the step needs more blocks than the pool has.
   Otherwise exactly the needed blocks hold slots afterwards; a needed block that was not flushed
   keeps its slot, every other slot given out is zeroed, and no block loses its slot unless it was
   flushed or is an incomplete block that nobody writes.
   */
  ghost predicate Built(reqs: seq<Request>, group: nat, pool: nat, slots: map<int, int>, fill: map<int, int>,
                        o: Outcome, slots': map<int, int>, fill': map<int, int>)
    requires group >= 1
  {
    var needed := Needed(reqs, group);
    && (o.exhausted <==> |needed| > pool)
    && slots'.Keys <= needed && (!o.exhausted ==> slots'.Keys == needed)
    && (forall b | b in needed && b in slots && b !in o.flushed :: b in slots' && slots'[b] == slots[b])
    && ZeroedExactly(slots, o, slots')
    && (forall b | b in slots && b !in needed :: b in o.flushed || b in o.dropped)
    && (forall b | b in o.flushed ::
        b in slots && (Queued(reqs, group, slots, |reqs|, b) || (b !in needed && FillOf(fill, b) >= group)))
    && (forall b | b in o.dropped :: b in slots && b !in needed && b !in o.flushed && FillOf(fill, b) < group)
    && (forall i | 0 <= i < |reqs| :: BoundaryQueued(reqs[i], group, slots, o.flushed))
    && (SharedPrefixes(reqs, group) ==> AllQueued(reqs, group, slots, |reqs|, o.flushed))
    && FillRecorded(reqs, group, fill, o, fill')
  }

  // ----- when skipping the builder changes nothing

  /** No block written by the step occurs anywhere else in the used part of its block tables. */
  ghost predicate PrivateWrites(reqs: seq<Request>, group: nat)
    requires group >= 1
  {
    forall i: nat, k: nat, j: nat, m: nat | WritesAt(reqs, group, i, k) && UsedAt(reqs, group, j, m) ::
      reqs[j].row[m] == reqs[i].row[k] ==> i == j && k == m
  }

  /** Entry `m` of the row of request `j` is at or below its last written block; later ones are padding. */
  predicate UsedAt(reqs: seq<Request>, group: nat, j: nat, m: nat)
    requires group >= 1
  {
    j < |reqs| && m < EndWritten(reqs[j], group)
  }

  /** The step `reqs` continues the step `built` by decoded tokens, away from block boundaries. */
  predicate SteadyDecode(built: seq<Request>, reqs: seq<Request>, group: nat)
    requires group >= 1
  {
    |built| == |reqs| && forall i | 0 <= i < |reqs| :: Continues(built[i], reqs[i], group)
  }

  /** Block tables reach to the last token, with valid ids wherever the step writes. */
  predicate RowsReach(reqs: seq<Request>, group: nat)
    requires group >= 1
  {
    forall i | 0 <= i < |reqs| ::
      && reqs[i].len >= 1 && (reqs[i].len - 1) / group < |reqs[i].row|
      && forall k | FirstWritten(reqs[i], group) <= k < EndWritten(reqs[i], group) :: reqs[i].row[k] >= 0
  }

  /** The step flushed nothing, dropped nothing and left every slot where it was. */
  ghost predicate NoSlotChange(o: Outcome, slots: map<int, int>, slots': map<int, int>) {
    && (forall b :: b !in o.flushed && b !in o.dropped)
    && (forall b :: b in slots' <==> b in slots) && (forall b | b in slots :: slots'[b] == slots[b])
  }

  predicate SameFirsts(built: seq<Request>, reqs: seq<Request>, group: nat)
    requires group >= 1 && |built| == |reqs|
  {
    forall i | 0 <= i < |reqs| :: FirstWritten(built[i], group) == FirstWritten(reqs[i], group)
  }

  lemma CommittedIsUsed(r: Request, group: nat, m: nat)
    requires group >= 1 && r.len >= 1 && m < |r.row| && m < FirstWritten(r, group)
    ensures m < EndWritten(r, group)
  {
    DivMonotone(Committed(r), r.len, group);
    DivMonotone(r.len - 1, r.len, group);
    QuotientBelow(r.len, (r.len - 1) / group + 2, group) by {
      assert r.len - 1 < ((r.len - 1) / group + 1) * group;
      Spread((r.len - 1) / group + 1, 1, group);
    }
  }

  /** Blocks below a request's writes are written by nobody, if writes are private. */
  lemma BelowIsNotNeeded(reqs: seq<Request>, group: nat, i: nat, m: nat)
    requires group >= 1 && PrivateWrites(reqs, group)
    requires i < |reqs| && reqs[i].len >= 1 && m < |reqs[i].row| && m < FirstWritten(reqs[i], group)
    ensures reqs[i].row[m] !in Needed(reqs, group)
  {
    CommittedIsUsed(reqs[i], group, m);
    assert UsedAt(reqs, group, i, m);
    hide Needed, EndWritten, FirstWritten;
    if reqs[i].row[m] in Needed(reqs, group) {
      var j, n := NeededFrom(reqs, group, reqs[i].row[m]);
    }
  }

  /** If no request has moved on to another block since the last full step, nothing waits below a boundary. */
  lemma NothingQueued(built: seq<Request>, reqs: seq<Request>, group: nat, slots: map<int, int>, b: int)
    requires group >= 1 && SteadyDecode(built, reqs, group) && PrivateWrites(built, group)
    requires SameFirsts(built, reqs, group) && slots.Keys == Needed(built, group)
    ensures !Queued(reqs, group, slots, |reqs|, b)
  {
    hide Needed, PrivateWrites;
    forall i: nat, k: nat | i < |reqs| ensures !RunHeld(reqs[i], group, slots, k) {
      assert Continues(built[i], reqs[i], group);
      NothingBelow(built, reqs, group, slots, i, k);
    }
  }

  lemma NothingBelow(built: seq<Request>, reqs: seq<Request>, group: nat, slots: map<int, int>, i: nat, k: nat)
    requires group >= 1 && |built| == |reqs| && i < |reqs| && Continues(built[i], reqs[i], group)
    requires PrivateWrites(built, group) && FirstWritten(built[i], group) == FirstWritten(reqs[i], group)
    requires slots.Keys == Needed(built, group)
    ensures !RunHeld(reqs[i], group, slots, k)
  {
    hide Needed, EndWritten, FirstWritten, PrivateWrites;
    var m, end := FirstWritten(reqs[i], group) - 1, EndWritten(reqs[i], group);
    if RunHeld(reqs[i], group, slots, k) {
      CommittedIsUsed(reqs[i], group, m);
      assert built[i].row[..end][m] == reqs[i].row[..end][m];
      BelowIsNotNeeded(built, group, i, m);
    }
  }

  /** A request that has moved on to another block since the last full step has a block waiting for its flush. */
  lemma BoundaryWaits(built: seq<Request>, reqs: seq<Request>, group: nat, slots: map<int, int>, i: nat)
    requires group >= 1 && SteadyDecode(built, reqs, group) && RowsReach(built, group) && i < |reqs|
    requires slots.Keys == Needed(built, group) && FirstWritten(built[i], group) != FirstWritten(reqs[i], group)
    ensures var m := FirstWritten(reqs[i], group) - 1;
            0 <= m < |reqs[i].row| && reqs[i].row[m] >= 0 && reqs[i].row[m] in slots && reqs[i].len > 0
  {
    hide Needed;
    assert Continues(built[i], reqs[i], group);
    SteadyWrites(built[i], reqs[i], group);
    var m, end := FirstWritten(reqs[i], group) - 1, EndWritten(reqs[i], group);
    assert built[i].row[..end][m] == reqs[i].row[..end][m];
    assert WritesAt(built, group, i, m);
    NeededHas(built, group, i, m);
  }

  /** Requests that have not moved on need the same blocks. */
  lemma SameNeeds(built: seq<Request>, reqs: seq<Request>, group: nat)
    requires group >= 1 && SteadyDecode(built, reqs, group) && SameFirsts(built, reqs, group)
    ensures Needed(built, group) == Needed(reqs, group)
  {
    hide Needed;
    SkipNeedsNothingNew(built, reqs, group);
    forall b | b in Needed(built, group) ensures b in Needed(reqs, group) {
      var i, k := NeededFrom(built, group, b);
      assert Continues(built[i], reqs[i], group);
      var end := EndWritten(reqs[i], group);
      assert built[i].row[..end][k] == reqs[i].row[..end][k];
      assert WritesAt(reqs, group, i, k);
      NeededHas(reqs, group, i, k);
    }
  }

  /**
   Let `built` be the step the builder last ran for, with any number of skipped steps since. Running
   it for `reqs` instead of skipping once more leaves all slots alone if and only if every request
   still writes only the first block it wrote then; otherwise full blocks wait to be flushed. (The
   recorded fill of the tail blocks moves on in either case.)
   */
  lemma SkipIsNoOpExactly(built: seq<Request>, reqs: seq<Request>, group: nat, pool: nat, slots: map<int, int>,
                          fill: map<int, int>, o: Outcome, slots': map<int, int>, fill': map<int, int>)
    requires group >= 1 && SteadyDecode(built, reqs, group) && PrivateWrites(built, group) && RowsReach(built, group)
    requires slots.Keys == Needed(built, group) && |slots| <= pool
    requires Built(reqs, group, pool, slots, fill, o, slots', fill')
    ensures NoSlotChange(o, slots, slots') <==> SameFirsts(built, reqs, group)
  {
    hide Needed, EndWritten, FirstWritten, PrivateWrites, AllQueued, SharedPrefixes, LeavesFill, Queued, Continues;
    SkipNeedsNothingNew(built, reqs, group);
    SubsetSize(Needed(reqs, group), Needed(built, group));
    if SameFirsts(built, reqs, group) {
      SameNeeds(built, reqs, group);
      forall b ensures b !in o.flushed { NothingQueued(built, reqs, group, slots, b); }
    } else {
      var i :| 0 <= i < |reqs| && FirstWritten(built[i], group) != FirstWritten(reqs[i], group);
      BoundaryWaits(built, reqs, group, slots, i);
      assert BoundaryQueued(reqs[i], group, slots, o.flushed);
    }
  }

  /** After a prefill of 300 tokens with blocks of 128, one request decodes its next tokens. */
  function Decoding(len: nat): seq<Request> { [Request([1, 2, 3, 0], len, 1)] }

  /**
   In each of the 83 steps that follow, the length guard holds, yet the builder would flush two full
   blocks: skipping it leaves them in the pool.
   */
  lemma SkipCanDefer(len: nat, pool: nat, slots: map<int, int>, fill: map<int, int>,
                     o: Outcome, slots': map<int, int>, fill': map<int, int>)
    requires 300 < len < 384 && slots.Keys == {1, 2, 3}
    requires Built(Decoding(len), 128, pool, slots, fill, o, slots', fill')
    ensures SkipGuard([len - 1], Decoding(len), 128)
    ensures forall b :: b in o.flushed <==> b == 1 || b == 2
    ensures forall b :: b !in o.dropped
  {
    hide Needed, Tokens, RunHeld, SharedPrefixes, LeavesFill, BoundaryQueued, Queued;
    var reqs := Decoding(len);
    PrefillShape(len, slots);
    assert reqs[0].row[0] in o.flushed && reqs[0].row[1] in o.flushed;
    forall b | b in o.flushed ensures b == 1 || b == 2 {
      if Queued(reqs, 128, slots, 1, b) { PrefillQueue(len, slots, b); }
    }
  }

  lemma PrefillShape(len: nat, slots: map<int, int>)
    requires 300 < len < 384 && slots.Keys == {1, 2, 3}
    ensures var reqs := Decoding(len);
            && SkipGuard([len - 1], reqs, 128) && SharedPrefixes(reqs, 128) && 3 in Needed(reqs, 128)
            && RunHeld(reqs[0], 128, slots, 0) && RunHeld(reqs[0], 128, slots, 1)
  {
    hide Needed;
    var reqs := Decoding(len);
    assert Tokens(reqs) == 1 by { assert reqs[..0] == []; }
    assert WritesAt(reqs, 128, 0, 2);
    NeededHas(reqs, 128, 0, 2);
  }

  lemma PrefillQueue(len: nat, slots: map<int, int>, b: int)
    requires 300 < len < 384 && Queued(Decoding(len), 128, slots, 1, b)
    ensures b == 1 || b == 2
  {
    var reqs := Decoding(len);
    var i: nat, k: nat :| i < 1 && QueuedBy(reqs, 128, slots, b, i, k);
  }

  // ----- what the length guard keeps from one skipped step to the next

  /** `prev` are lengths that skipped steps after the full step `built` may have reached. */
  predicate Since(built: seq<Request>, prev: seq<nat>, group: nat)
    requires group >= 1
  {
    |built| == |prev| && forall i | 0 <= i < |prev| :: LengthSince(built[i].len, prev[i], group)
  }

  predicate LengthSince(len: nat, now: nat, group: nat)
    requires group >= 1
  {
    len == now || (1 <= len < now && (len - 1) / group == (now - 1) / group)
  }

  /** Every scheduled request has new tokens. */
  predicate Scheduled(reqs: seq<Request>) { forall i | 0 <= i < |reqs| :: reqs[i].query >= 1 }

  lemma {:induction false} TokensAtLeast(reqs: seq<Request>, i: nat)
    requires Scheduled(reqs) && i < |reqs|
    ensures Tokens(reqs) >= |reqs| - 1 + reqs[i].query
  {
    var k := |reqs| - 1;
    if i < k {
      TokensAtLeast(reqs[..k], i);
    } else if k > 0 {
      TokensAtLeast(reqs[..k], k - 1);
    }
  }

  lemma {:induction false} TokensAllOne(reqs: seq<Request>)
    requires forall i | 0 <= i < |reqs| :: reqs[i].query == 1
    ensures Tokens(reqs) == |reqs|
  {
    if reqs != [] { TokensAllOne(reqs[..|reqs| - 1]); }
  }

  /** Token `p` is neither the first nor the last of its block. */
  predicate InnerToken(p: nat, group: nat)
    requires group >= 1
  {
    p % group != 0 && (p + 1) % group != 0
  }

  lemma InnerExactly(len: nat, group: nat)
    requires group >= 1 && len >= 1
    ensures len % group > 1 <==> InnerToken(len - 1, group)
  {
    var q, x := (len - 1) / group, (len - 1) % group;
    assert len - 1 == q * group + x;
    Spread(q, 1, group);
    if x + 1 < group {
      Remainder(len, q, x + 1, group);
    } else {
      Remainder(len, q + 1, 0, group);
    }
  }

  lemma Remainder(n: nat, q: nat, x: nat, group: nat)
    requires group >= 1 && x < group && n == q * group + x
    ensures n % group == x
  {
    QuotientAtLeast(n, q, group);
    Spread(q, 1, group);
    QuotientBelow(n, q + 1, group);
    assert n == n / group * group + n % group;
  }

  /** The guard lets a step through exactly when every request has one new token, next and inside its block. */
  lemma SkipGuardExactly(prev: seq<nat>, reqs: seq<Request>, group: nat)
    requires group >= 1 && Scheduled(reqs)
    ensures SkipGuard(prev, reqs, group) <==>
            && |prev| == |reqs|
            && forall i | 0 <= i < |reqs| ::
                 reqs[i].query == 1 && reqs[i].len == prev[i] + 1 && InnerToken(prev[i], group)
  {
    hide Tokens, InnerToken;
    if Tokens(reqs) == |reqs| {
      forall i | 0 <= i < |reqs| ensures reqs[i].query == 1 { TokensAtLeast(reqs, i); }
    }
    if forall i | 0 <= i < |reqs| :: reqs[i].query == 1 { TokensAllOne(reqs); }
    forall i | 0 <= i < |reqs| && |prev| == |reqs| && reqs[i].len == prev[i] + 1
      ensures reqs[i].len % group > 1 <==> InnerToken(prev[i], group)
    {
      InnerExactly(reqs[i].len, group);
    }
  }

  lemma LengthGoesOn(len: nat, now: nat, group: nat)
    requires group >= 1 && LengthSince(len, now, group) && (now + 1) % group > 1
    ensures LengthSince(len, now + 1, group) && 1 <= len < now + 1
  {
    TailBlock(now + 1, group);
  }

  lemma SinceItself(reqs: seq<Request>, group: nat)
    requires group >= 1
    ensures Since(reqs, Lengths(reqs), group)
  {
  }

  /** Any steps that pass the guard one after another keep to the tail blocks of the last full step. */
  lemma GuardKeepsSince(built: seq<Request>, prev: seq<nat>, reqs: seq<Request>, group: nat)
    requires group >= 1 && Since(built, prev, group) && SkipGuard(prev, reqs, group)
    ensures Since(built, Lengths(reqs), group)
    ensures Scheduled(built) && Scheduled(reqs) ==> SteadyLengths(built, reqs, group)
  {
    hide Tokens, LengthSince;
    forall i | 0 <= i < |reqs|
      ensures LengthSince(built[i].len, reqs[i].len, group) && 1 <= built[i].len < reqs[i].len
    {
      assert LengthSince(built[i].len, prev[i], group);
      LengthGoesOn(built[i].len, prev[i], group);
    }
    if Scheduled(built) && Scheduled(reqs) {
      forall i | 0 <= i < |reqs| ensures SteadyLength(built[i], reqs[i], group) {
        TokensAtLeast(reqs, i);
        SteadyOnce(built[i], reqs[i], group);
      }
    }
  }

  lemma SteadyOnce(o: Request, r: Request, group: nat)
    requires group >= 1 && LengthSince(o.len, r.len, group) && 1 <= o.len < r.len && r.len % group > 1
    requires o.query >= 1 && r.query == 1
    ensures SteadyLength(o, r, group)
  {
  }

  // ----- when a skipped step finds its slots

  /** The block that the next token of `r` goes to is the one that the last token of `o` went to. */
  predicate TailKept(o: Request, r: Request, group: nat)
    requires group >= 1 && r.len >= 1
  {
    var q := (r.len - 1) / group;
    q < |r.row| ==> q < |o.row| && o.row[q] == r.row[q]
  }

  /** All that the length guard can see of two steps. */
  predicate SteadyLengths(built: seq<Request>, reqs: seq<Request>, group: nat)
    requires group >= 1
  {
    |built| == |reqs| && forall i | 0 <= i < |reqs| :: SteadyLength(built[i], reqs[i], group)
  }

  predicate TailsKept(built: seq<Request>, reqs: seq<Request>, group: nat)
    requires group >= 1 && |built| == |reqs|
  {
    forall i | 0 <= i < |reqs| :: reqs[i].len >= 1 && TailKept(built[i], reqs[i], group)
  }

  /** A block written in both steps is written by the same request, at the same place of its row. */
  ghost predicate StayPut(built: seq<Request>, reqs: seq<Request>, group: nat)
    requires group >= 1
  {
    forall i: nat, a: nat, j: nat, c: nat | WritesAt(reqs, group, i, a) && WritesAt(built, group, j, c) ::
      reqs[i].row[a] == built[j].row[c] ==> i == j && a == c
  }

  /** Every block the step writes holds a slot. */
  ghost predicate Covered(slots: map<int, int>, reqs: seq<Request>, group: nat)
    requires group >= 1
  {
    forall b | b in Needed(reqs, group) :: b in slots
  }

  /** With the tail blocks of the last full step, a skipped step finds a slot for every block it writes. */
  lemma SkipCovers(built: seq<Request>, reqs: seq<Request>, group: nat, slots: map<int, int>)
    requires group >= 1 && SteadyLengths(built, reqs, group) && TailsKept(built, reqs, group)
    requires slots.Keys == Needed(built, group)
    ensures Covered(slots, reqs, group)
  {
    hide Needed;
    forall b | b in Needed(reqs, group) ensures b in slots.Keys {
      var i, k := NeededFrom(reqs, group, b);
      assert SteadyLength(built[i], reqs[i], group) && TailKept(built[i], reqs[i], group);
      SteadyWrites(built[i], reqs[i], group);
      assert WritesAt(built, group, i, k);
      NeededHas(built, group, i, k);
    }
  }

  /**
   When written blocks stay with their requests, a skipped step finds slots for all the blocks it
   writes if and only if no position's tail block has changed since the last full step.
   */
  lemma SkipCoversExactly(built: seq<Request>, reqs: seq<Request>, group: nat, slots: map<int, int>)
    requires group >= 1 && SteadyLengths(built, reqs, group) && RowsReach(reqs, group) && StayPut(built, reqs, group)
    requires slots.Keys == Needed(built, group)
    ensures Covered(slots, reqs, group) <==> TailsKept(built, reqs, group)
  {
    hide Needed;
    if TailsKept(built, reqs, group) { SkipCovers(built, reqs, group, slots); }
    if Covered(slots, reqs, group) {
      forall i | 0 <= i < |reqs| ensures TailKept(built[i], reqs[i], group) {
        TailMustStay(built, reqs, group, slots, i);
      }
    }
  }

  lemma TailMustStay(built: seq<Request>, reqs: seq<Request>, group: nat, slots: map<int, int>, i: nat)
    requires group >= 1 && SteadyLengths(built, reqs, group) && RowsReach(reqs, group) && StayPut(built, reqs, group)
    requires slots.Keys == Needed(built, group) && Covered(slots, reqs, group) && i < |reqs|
    ensures TailKept(built[i], reqs[i], group)
  {
    hide Needed;
    assert SteadyLength(built[i], reqs[i], group);
    TailIsWritten(reqs, group, i);
    hide EndWritten, FirstWritten;
    var q := (reqs[i].len - 1) / group;
    NeededHas(reqs, group, i, q);
    assert reqs[i].row[q] in slots.Keys;
    var j, c := NeededFrom(built, group, reqs[i].row[q]);
    assert reqs[i].row[q] == built[j].row[c];
  }

  lemma TailIsWritten(reqs: seq<Request>, group: nat, i: nat)
    requires group >= 1 && RowsReach(reqs, group) && i < |reqs| && reqs[i].query == 1 && reqs[i].len % group > 1
    ensures WritesAt(reqs, group, i, (reqs[i].len - 1) / group)
  {
  }

  /** The length guard also passes another request of the right length, whose block has no slot. */
  lemma SkipCanMiss(slots: map<int, int>)
    requires slots.Keys == Needed([Request([1, 2, 3, 0], 300, 1)], 128)
    ensures SkipGuard([300], [Request([5, 6, 7, 0], 301, 1)], 128)
            && !Covered(slots, [Request([5, 6, 7, 0], 301, 1)], 128)
  {
    hide Needed;
    var built, reqs := [Request([1, 2, 3, 0], 300, 1)], [Request([5, 6, 7, 0], 301, 1)];
    assert Tokens(reqs) == 1 by { assert reqs[..0] == []; }
    assert WritesAt(reqs, 128, 0, 2);
    NeededHas(reqs, 128, 0, 2);
    if 7 in slots.Keys {
      var i, k := NeededFrom(built, 128, 7);
    }
  }

  // ----- the backward walk finds the whole run

  /** The walk of request `n` went down to `k`, queued everything above it and stopped there. */
  ghost predicate Walked(reqs: seq<Request>, group: nat, slots: map<int, int>, n: nat, before: set<int>,
                         flush: set<int>, k: int)
    requires group >= 1 && n < |reqs|
  {
    var r := reqs[n];
    && -1 <= k < FirstWritten(r, group)
    && (forall m | k < m < FirstWritten(r, group) :: m < |r.row| && r.row[m] in flush)
    && (0 <= k < |r.row| && r.row[k] >= 0 && r.row[k] in slots ==> r.row[k] in flush)
    && (forall b | b in flush && b !in before ::
        exists m :: k < m < FirstWritten(r, group) && m < |r.row| && r.row[m] == b)
  }

  /** Where rows share only common prefixes, the walk leaves no slot-holding block of the run behind. */
  lemma WalkCompletes(reqs: seq<Request>, group: nat, slots: map<int, int>, n: nat, before: set<int>, flush: set<int>,
                      k: int)
    requires group >= 1 && n < |reqs| && SharedPrefixes(reqs, group) && before <= flush
    requires AllQueued(reqs, group, slots, n, before) && forall b | b in before :: Queued(reqs, group, slots, n, b)
    requires reqs[n].len > 0 ==> Walked(reqs, group, slots, n, before, flush, k)
    ensures AllQueued(reqs, group, slots, n + 1, flush)
  {
    hide FirstWritten, SharedPrefixes;
    forall i: nat, m: nat | i < n + 1 && RunHeld(reqs[i], group, slots, m) ensures reqs[i].row[m] in flush {
      if i == n && m <= k { WalkReaches(reqs, group, slots, n, before, flush, k, m); }
    }
  }

  lemma WalkReaches(reqs: seq<Request>, group: nat, slots: map<int, int>, n: nat, before: set<int>, flush: set<int>,
                    k: int, m: nat)
    requires group >= 1 && n < |reqs| && SharedPrefixes(reqs, group) && before <= flush && m <= k
    requires AllQueued(reqs, group, slots, n, before) && forall b | b in before :: Queued(reqs, group, slots, n, b)
    requires Walked(reqs, group, slots, n, before, flush, k) && RunHeld(reqs[n], group, slots, m)
    ensures reqs[n].row[m] in flush
  {
    hide FirstWritten;
    var r := reqs[n];
    assert r.row[k] in flush;
    if r.row[k] in before {
      var i: nat, c: nat :| i < n && QueuedBy(reqs, group, slots, r.row[k], i, c);
      assert CommittedAt(reqs, group, i, c) && CommittedAt(reqs, group, n, k);
      assert RunHeld(reqs[i], group, slots, m);
    }
  }
}
