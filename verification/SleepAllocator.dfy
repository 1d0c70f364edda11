/**
 The sleep and wake allocator as a state machine: what the driver has reserved, mapped and created,
 beside the table of allocations. One step is one successful malloc, sleep, wake or free.
 */
module SleepAllocator {
  import opened Chunking
  import opened MapSums

  /** One mapped chunk: its size and the physical handle behind it. */
  datatype Piece = Piece(size: nat, handle: nat)

  /** One allocation: its size, its chunk sizes and handles, and whether it is asleep. */
  datatype Entry = Entry(size: nat, sizes: seq<nat>, handles: seq<nat>, asleep: bool)

  datatype State = State(
    reserved: map<int, nat>, mapped: map<int, Piece>, live: set<nat>, registry: map<int, Entry>)

  function PieceSize(p: Piece): nat { p.size }

  function AwakeSize(e: Entry): nat { if e.asleep then 0 else e.size }

  function Addr(d: int, sizes: seq<nat>, k: nat): int
    requires k <= |sizes|
  {
    d + Offset(sizes, k)
  }

  /** `x` is the address of one of the chunks `lo` to `hi - 1`. */
  predicate IsPiece(d: int, sizes: seq<nat>, lo: nat, hi: nat, x: int)
    requires hi <= |sizes|
  {
    exists k :: lo <= k < hi && Addr(d, sizes, k) == x
  }

  /** Two address ranges do not overlap. */
  predicate Apart(a: int, size: nat, b: int, size': nat) { a + size <= b || b + size' <= a }

  predicate Positive(sizes: seq<nat>) { forall i | 0 <= i < |sizes| :: sizes[i] > 0 }

  predicate Shaped(e: Entry) {
    Positive(e.sizes) && e.size > 0 && Offset(e.sizes, |e.sizes|) == e.size && |e.handles| == |e.sizes|
  }

  // ----- what one call changes

  ghost predicate PiecesAdded(m: map<int, Piece>, m': map<int, Piece>, d: int, sizes: seq<nat>, handles: seq<nat>)
    requires |handles| == |sizes|
  {
    && (forall x :: x in m' <==> x in m || IsPiece(d, sizes, 0, |sizes|, x))
    && (forall x | x in m :: m'[x] == m[x])
    && (forall k | 0 <= k < |sizes| :: Addr(d, sizes, k) in m' && m'[Addr(d, sizes, k)] == Piece(sizes[k], handles[k]))
    && Sum(m', PieceSize) == Sum(m, PieceSize) + Offset(sizes, |sizes|)
  }

  ghost predicate PiecesRemoved(m: map<int, Piece>, m': map<int, Piece>, d: int, sizes: seq<nat>) {
    && (forall x :: x in m' <==> x in m && !IsPiece(d, sizes, 0, |sizes|, x))
    && (forall x | x in m' :: m'[x] == m[x])
    && Sum(m', PieceSize) == Sum(m, PieceSize) - Offset(sizes, |sizes|)
  }

  ghost predicate HandlesAdded(l: set<nat>, l': set<nat>, handles: seq<nat>) {
    && (forall h :: h in l' <==> h in l || h in handles)
    && (forall h | h in handles :: h !in l)
  }

  ghost predicate HandlesRemoved(l: set<nat>, l': set<nat>, handles: seq<nat>) {
    forall h :: h in l' <==> h in l && h !in handles
  }

  ghost predicate SameReserved(m: map<int, nat>, m': map<int, nat>) {
    (forall x :: x in m' <==> x in m) && forall x | x in m :: m'[x] == m[x]
  }

  datatype Op = Malloc(addr: int) | Sleep(addr: int) | Wake(addr: int) | Free(addr: int)

  /** A new allocation, in a range the driver had not handed out. */
  ghost predicate MallocStep(s: State, s': State, a: int) {
    && a in s'.registry && var e := s'.registry[a];
    && Shaped(e) && !e.asleep
    && (forall b | b in s.reserved :: Apart(a, e.size, b, s.reserved[b]))
    && s'.reserved == s.reserved[a := e.size] && s'.registry == s.registry[a := e]
    && PiecesAdded(s.mapped, s'.mapped, a, e.sizes, e.handles)
    && HandlesAdded(s.live, s'.live, e.handles)
  }

  ghost predicate SleepStep(s: State, s': State, a: int) {
    && a in s.registry && !s.registry[a].asleep && var e := s.registry[a];
    && SameReserved(s.reserved, s'.reserved) && s'.registry == s.registry[a := e.(asleep := true)]
    && PiecesRemoved(s.mapped, s'.mapped, a, e.sizes)
    && HandlesRemoved(s.live, s'.live, e.handles)
  }

  ghost predicate WakeStep(s: State, s': State, a: int) {
    && a in s.registry && s.registry[a].asleep && a in s'.registry && var e, e' := s.registry[a], s'.registry[a];
    && |e'.handles| == |e.sizes| && e' == e.(asleep := false, handles := e'.handles)
    && s'.reserved == s.reserved && s'.registry == s.registry[a := e']
    && PiecesAdded(s.mapped, s'.mapped, a, e.sizes, e'.handles)
    && HandlesAdded(s.live, s'.live, e'.handles)
  }

  ghost predicate FreeStep(s: State, s': State, a: int) {
    && a in s.registry && var e := s.registry[a];
    && s'.reserved == s.reserved - {a} && s'.registry == s.registry - {a}
    && if e.asleep then s'.mapped == s.mapped && s'.live == s.live
       else PiecesRemoved(s.mapped, s'.mapped, a, e.sizes) && HandlesRemoved(s.live, s'.live, e.handles)
  }

  ghost predicate Step(s: State, op: Op, s': State) {
    match op
    case Malloc(a) => MallocStep(s, s', a)
    case Sleep(a) => SleepStep(s, s', a)
    case Wake(a) => WakeStep(s, s', a)
    case Free(a) => FreeStep(s, s', a)
  }

  // ----- what every state satisfies

  ghost predicate TableOk(s: State) {
    && (forall a :: a in s.reserved <==> a in s.registry)
    && (forall a | a in s.registry :: Shaped(s.registry[a]) && s.reserved[a] == s.registry[a].size)
    && (forall a, b | a in s.registry && b in s.registry && a != b ::
        Apart(a, s.registry[a].size, b, s.registry[b].size))
  }

  predicate Maps(registry: map<int, Entry>, a: int, x: int) {
    a in registry && !registry[a].asleep && IsPiece(a, registry[a].sizes, 0, |registry[a].sizes|, x)
  }

  predicate Keeps(registry: map<int, Entry>, a: int, h: nat) {
    a in registry && !registry[a].asleep && h in registry[a].handles
  }

  predicate AwakeAt(r: map<int, Entry>, a: int) { a in r && !r[a].asleep }

  /** Every chunk of an allocation is mapped onto its own handle. */
  ghost predicate EntryMapped(m: map<int, Piece>, a: int, e: Entry) {
    |e.handles| == |e.sizes| && forall k | 0 <= k < |e.sizes| :: ChunkMapped(m, a, e, k)
  }

  predicate ChunkMapped(m: map<int, Piece>, a: int, e: Entry, k: nat)
    requires |e.handles| == |e.sizes| && k < |e.sizes|
  {
    Addr(a, e.sizes, k) in m && m[Addr(a, e.sizes, k)] == Piece(e.sizes[k], e.handles[k])
  }

  /** Exactly the chunks of awake allocations are mapped, each onto its own handle. */
  ghost predicate MappedOk(s: State) {
    && (forall x | x in s.mapped :: exists a :: Maps(s.registry, a, x))
    && (forall a | AwakeAt(s.registry, a) :: EntryMapped(s.mapped, a, s.registry[a]))
  }

  /** Exactly the handles of awake allocations are live, and no two allocations share one. */
  ghost predicate LiveOk(s: State) {
    && (forall h | h in s.live :: exists a :: Keeps(s.registry, a, h))
    && (forall a, h | Keeps(s.registry, a, h) :: h in s.live)
    && (forall a, b, h | Keeps(s.registry, a, h) && Keeps(s.registry, b, h) :: a == b)
  }

  ghost predicate Good(s: State) {
    && TableOk(s) && MappedOk(s) && LiveOk(s)
    && Sum(s.mapped, PieceSize) == Sum(s.registry, AwakeSize)
  }

  lemma EmptyIsGood()
    ensures Good(State(map[], map[], {}, map[]))
  {
  }

  // ----- chunks of different allocations never meet

  lemma PieceInside(d: int, sizes: seq<nat>, x: int)
    requires Positive(sizes) && IsPiece(d, sizes, 0, |sizes|, x)
    ensures d <= x < d + Offset(sizes, |sizes|)
  {
    var k :| 0 <= k < |sizes| && Addr(d, sizes, k) == x;
    OffsetsIncrease(sizes, k, |sizes|);
  }

  lemma PieceOf(d: int, sizes: seq<nat>, k: nat)
    requires k < |sizes|
    ensures IsPiece(d, sizes, 0, |sizes|, Addr(d, sizes, k))
  {
  }

  // ----- one step

  ghost predicate OthersSame(r: map<int, Entry>, r': map<int, Entry>, a: int) {
    forall b | b != a :: (b in r' <==> b in r) && (b in r ==> r'[b] == r[b])
  }

  /** An allocation that becomes mapped adds its chunks and disturbs no other. */
  lemma GainMapped(s: State, s': State, a: int)
    requires MappedOk(s) && OthersSame(s.registry, s'.registry, a)
    requires !AwakeAt(s.registry, a) && AwakeAt(s'.registry, a) && Shaped(s'.registry[a])
    requires PiecesAdded(s.mapped, s'.mapped, a, s'.registry[a].sizes, s'.registry[a].handles)
    ensures MappedOk(s')
  {
    hide Sum, Addr, EntryMapped, IsPiece;
    var e := s'.registry[a];
    forall x | x in s'.mapped ensures exists b :: Maps(s'.registry, b, x) {
      if x in s.mapped {
        var b :| Maps(s.registry, b, x);
        assert Maps(s'.registry, b, x);
      } else {
        assert Maps(s'.registry, a, x);
      }
    }
    forall b | AwakeAt(s'.registry, b) ensures EntryMapped(s'.mapped, b, s'.registry[b]) {
      if b == a {
        NewlyMapped(s.mapped, s'.mapped, a, e);
      } else {
        assert AwakeAt(s.registry, b);
        StillMapped(s.mapped, s'.mapped, b, s.registry[b]);
      }
    }
  }

  lemma NewlyMapped(m: map<int, Piece>, m': map<int, Piece>, a: int, e: Entry)
    requires |e.handles| == |e.sizes| && PiecesAdded(m, m', a, e.sizes, e.handles)
    ensures EntryMapped(m', a, e)
  {
    hide Sum, Addr, IsPiece;
  }

  lemma StillMapped(m: map<int, Piece>, m': map<int, Piece>, a: int, e: Entry)
    requires EntryMapped(m, a, e)
    requires forall x | x in m && IsPiece(a, e.sizes, 0, |e.sizes|, x) :: x in m' && m'[x] == m[x]
    ensures EntryMapped(m', a, e)
  {
    hide Addr, IsPiece;
    forall k | 0 <= k < |e.sizes| ensures ChunkMapped(m', a, e, k) {
      assert ChunkMapped(m, a, e, k);
      PieceOf(a, e.sizes, k);
    }
  }

  /** An allocation that is unmapped takes away its own chunks only. */
  lemma LoseMapped(s: State, s': State, a: int)
    requires MappedOk(s) && TableOk(s) && OthersSame(s.registry, s'.registry, a)
    requires AwakeAt(s.registry, a) && !AwakeAt(s'.registry, a)
    requires PiecesRemoved(s.mapped, s'.mapped, a, s.registry[a].sizes)
    ensures MappedOk(s')
  {
    hide Sum, Addr, EntryMapped, IsPiece, TableOk;
    forall x | x in s'.mapped ensures exists b :: Maps(s'.registry, b, x) {
      var b :| Maps(s.registry, b, x);
      assert Maps(s'.registry, b, x);
    }
    forall b | AwakeAt(s'.registry, b) ensures EntryMapped(s'.mapped, b, s'.registry[b]) {
      assert AwakeAt(s.registry, b);
      var e := s.registry[b];
      forall x | x in s.mapped && IsPiece(b, e.sizes, 0, |e.sizes|, x)
        ensures x in s'.mapped && s'.mapped[x] == s.mapped[x]
      {
        OtherPiece(s, b, a, x);
      }
      StillMapped(s.mapped, s'.mapped, b, e);
    }
  }

  lemma OtherPiece(s: State, b: int, a: int, x: int)
    requires TableOk(s) && a in s.registry && b in s.registry && a != b
    requires IsPiece(b, s.registry[b].sizes, 0, |s.registry[b].sizes|, x)
    ensures !IsPiece(a, s.registry[a].sizes, 0, |s.registry[a].sizes|, x)
  {
    hide IsPiece;
    PieceInside(b, s.registry[b].sizes, x);
    PieceOutside(a, s.registry[a].sizes, x);
  }

  lemma PieceOutside(d: int, sizes: seq<nat>, x: int)
    requires Positive(sizes) && !(d <= x < d + Offset(sizes, |sizes|))
    ensures !IsPiece(d, sizes, 0, |sizes|, x)
  {
    forall k | 0 <= k < |sizes| ensures Addr(d, sizes, k) != x { OffsetsIncrease(sizes, k, |sizes|); }
  }

  lemma GainLive(s: State, s': State, a: int)
    requires LiveOk(s) && OthersSame(s.registry, s'.registry, a)
    requires !AwakeAt(s.registry, a) && AwakeAt(s'.registry, a)
    requires HandlesAdded(s.live, s'.live, s'.registry[a].handles)
    ensures LiveOk(s')
  {
    forall h | h in s'.live ensures exists b :: Keeps(s'.registry, b, h) {
      if h in s.live {
        var b :| Keeps(s.registry, b, h);
        assert Keeps(s'.registry, b, h);
      } else {
        assert Keeps(s'.registry, a, h);
      }
    }
    forall b, h | Keeps(s'.registry, b, h) && b != a ensures Keeps(s.registry, b, h) {}
  }

  lemma LoseLive(s: State, s': State, a: int)
    requires LiveOk(s) && OthersSame(s.registry, s'.registry, a)
    requires AwakeAt(s.registry, a) && !AwakeAt(s'.registry, a)
    requires HandlesRemoved(s.live, s'.live, s.registry[a].handles)
    ensures LiveOk(s')
  {
    forall h | h in s'.live ensures exists b :: Keeps(s'.registry, b, h) {
      var b :| Keeps(s.registry, b, h);
      assert Keeps(s'.registry, b, h);
    }
    forall b, h | Keeps(s'.registry, b, h) ensures Keeps(s.registry, b, h) && h in s'.live {
      assert Keeps(s.registry, b, h);
      assert Keeps(s.registry, a, h) <==> h in s.registry[a].handles;
    }
  }

  lemma MallocKeepsGood(s: State, s': State, a: int)
    requires Good(s) && MallocStep(s, s', a)
    ensures Good(s')
  {
    hide Sum, MappedOk, LiveOk, PiecesAdded, HandlesAdded, Shaped;
    NewAddress(s, s', a);
    assert TableOk(s');
    assert OthersSame(s.registry, s'.registry, a);
    GainMapped(s, s', a);
    GainLive(s, s', a);
    SumPut(s.registry, AwakeSize, a, s'.registry[a]);
    AddedBytes(s.mapped, s'.mapped, a, s'.registry[a]);
  }

  lemma NewAddress(s: State, s': State, a: int)
    requires TableOk(s) && MallocStep(s, s', a)
    ensures a !in s.registry
  {
  }

  lemma AddedBytes(m: map<int, Piece>, m': map<int, Piece>, d: int, e: Entry)
    requires Shaped(e) && PiecesAdded(m, m', d, e.sizes, e.handles)
    ensures Sum(m', PieceSize) == Sum(m, PieceSize) + e.size
  {
  }

  lemma RemovedBytes(m: map<int, Piece>, m': map<int, Piece>, d: int, e: Entry)
    requires Shaped(e) && PiecesRemoved(m, m', d, e.sizes)
    ensures Sum(m', PieceSize) == Sum(m, PieceSize) - e.size
  {
  }

  lemma SleepKeepsGood(s: State, s': State, a: int)
    requires Good(s) && SleepStep(s, s', a)
    ensures Good(s')
  {
    hide Sum, MappedOk, LiveOk, PiecesRemoved, HandlesRemoved;
    assert TableOk(s');
    assert OthersSame(s.registry, s'.registry, a);
    LoseMapped(s, s', a);
    LoseLive(s, s', a);
    SumUpdate(s.registry, AwakeSize, a, s'.registry[a]);
    RemovedBytes(s.mapped, s'.mapped, a, s.registry[a]);
  }

  lemma WakeKeepsGood(s: State, s': State, a: int)
    requires Good(s) && WakeStep(s, s', a)
    ensures Good(s')
  {
    hide Sum, MappedOk, LiveOk, PiecesAdded, HandlesAdded;
    assert TableOk(s');
    assert OthersSame(s.registry, s'.registry, a);
    GainMapped(s, s', a);
    GainLive(s, s', a);
    SumUpdate(s.registry, AwakeSize, a, s'.registry[a]);
    AddedBytes(s.mapped, s'.mapped, a, s'.registry[a]);
  }

  lemma FreeKeepsGood(s: State, s': State, a: int)
    requires Good(s) && FreeStep(s, s', a)
    ensures Good(s')
  {
    hide Sum, MappedOk, LiveOk, PiecesRemoved, HandlesRemoved;
    assert TableOk(s');
    assert OthersSame(s.registry, s'.registry, a);
    SumDrop(s.registry, AwakeSize, a);
    if s.registry[a].asleep {
      SleeperLeaves(s, s', a);
    } else {
      LoseMapped(s, s', a);
      LoseLive(s, s', a);
      RemovedBytes(s.mapped, s'.mapped, a, s.registry[a]);
    }
  }

  lemma SleeperLeaves(s: State, s': State, a: int)
    requires MappedOk(s) && LiveOk(s) && OthersSame(s.registry, s'.registry, a)
    requires !AwakeAt(s.registry, a) && !AwakeAt(s'.registry, a) && s'.mapped == s.mapped && s'.live == s.live
    ensures MappedOk(s') && LiveOk(s')
  {
    hide Addr;
    forall x | x in s'.mapped ensures exists b :: Maps(s'.registry, b, x) {
      var b :| Maps(s.registry, b, x);
      assert Maps(s'.registry, b, x);
    }
    forall h | h in s'.live ensures exists b :: Keeps(s'.registry, b, h) {
      var b :| Keeps(s.registry, b, h);
      assert Keeps(s'.registry, b, h);
    }
    forall b, h | Keeps(s'.registry, b, h) ensures Keeps(s.registry, b, h) {}
  }

  lemma StepKeepsGood(s: State, op: Op, s': State)
    requires Good(s) && Step(s, op, s')
    ensures Good(s')
  {
    hide Good, MallocStep, SleepStep, WakeStep, FreeStep;
    match op
    case Malloc(a) => MallocKeepsGood(s, s', a);
    case Sleep(a) => SleepKeepsGood(s, s', a);
    case Wake(a) => WakeKeepsGood(s, s', a);
    case Free(a) => FreeKeepsGood(s, s', a);
  }

  // ----- whole runs

  /** A run: consecutive states joined by successful calls. */
  ghost predicate IsRun(states: seq<State>, ops: seq<Op>) {
    |states| == |ops| + 1 && forall i | 0 <= i < |ops| :: StepAt(states, ops, i)
  }

  ghost predicate StepAt(states: seq<State>, ops: seq<Op>, i: nat)
    requires |states| == |ops| + 1 && i < |ops|
  {
    Step(states[i], ops[i], states[i + 1])
  }

  /**
   In every state of every run: live ranges never overlap, exactly the chunks of awake allocations
   are mapped and their handles live, and the mapped bytes are the summed sizes of the awake ones.
   */
  lemma {:induction false} RunKeepsGood(states: seq<State>, ops: seq<Op>, i: nat)
    requires IsRun(states, ops) && Good(states[0]) && i < |states|
    ensures Good(states[i])
  {
    hide Good, Step;
    if i > 0 {
      RunKeepsGood(states, ops, i - 1);
      assert StepAt(states, ops, i - 1);
      StepKeepsGood(states[i - 1], ops[i - 1], states[i]);
    }
  }

  /** From malloc to free an allocation keeps its reserved address and size. */
  lemma {:induction false} AddressIsStable(states: seq<State>, ops: seq<Op>, i: nat, j: nat, a: int)
    requires IsRun(states, ops) && Good(states[0]) && i <= j < |states| && a in states[i].registry
    requires forall k | i <= k < j :: ops[k] != Free(a)
    ensures a in states[j].registry && a in states[j].reserved
    ensures states[j].reserved[a] == states[i].registry[a].size == states[j].registry[a].size
    ensures states[j].registry[a].sizes == states[i].registry[a].sizes
    decreases j - i
  {
    hide MappedOk, LiveOk, Sum, PiecesAdded, PiecesRemoved, HandlesAdded, HandlesRemoved;
    RunKeepsGood(states, ops, j);
    if i < j {
      AddressIsStable(states, ops, i, j - 1, a);
      RunKeepsGood(states, ops, j - 1);
      assert StepAt(states, ops, j - 1);
      StepKeepsAddress(states[j - 1], ops[j - 1], states[j], a);
    }
  }

  lemma StepKeepsAddress(s: State, op: Op, s': State, a: int)
    requires Good(s) && Step(s, op, s') && a in s.registry && op != Free(a)
    ensures a in s'.registry && s'.registry[a].size == s.registry[a].size && s'.registry[a].sizes == s.registry[a].sizes
  {
    hide MappedOk, LiveOk, Sum, PiecesAdded, PiecesRemoved, HandlesAdded, HandlesRemoved;
    if op.Malloc? { NewAddress(s, s', op.addr); }
  }

  /** The same for every run of a process that starts with nothing allocated. */
  lemma RunFromNothing(states: seq<State>, ops: seq<Op>, i: nat)
    requires IsRun(states, ops) && states[0] == State(map[], map[], {}, map[]) && i < |states|
    ensures Good(states[i])
  {
    hide Good;
    EmptyIsGood();
    RunKeepsGood(states, ops, i);
  }
}
