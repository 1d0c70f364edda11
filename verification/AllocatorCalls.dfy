/**
 The allocator's calls, step by step on the driver's tables. Each driver call ends with a given
 status; the first failing status is kept in the global error code.
 */
module AllocatorCalls {
  import opened Chunking
  import opened MapSums
  import opened SleepAllocator

  type Code = c: nat | c > 0 witness 1

  datatype Status = Ok | Error(code: Code)

  predicate AllOk(calls: seq<Status>, n: nat)
    requires n <= |calls|
  {
    forall k | 0 <= k < n :: calls[k].Ok?
  }

  /** The first error among the first `n` calls, or 0. */
  function FirstError(calls: seq<Status>, n: nat): (code: nat)
    requires n <= |calls|
    ensures code == 0 <==> AllOk(calls, n)
  {
    if n == 0 then 0
    else if FirstError(calls, n - 1) != 0 then FirstError(calls, n - 1)
    else if calls[n - 1].Ok? then 0 else calls[n - 1].code
  }

  /** The driver's tables, the error code and the table of allocations. */
  class Device {
    var reserved: map<int, nat>
    var mapped: map<int, Piece>
    var live: set<nat>
    var nextHandle: nat
    var error: nat
    var registry: map<int, Entry>
    /** The ranges whose memory may be used, and those whose memory was filled with zeros since it was mapped. */
    var open: set<int>
    var zeroed: set<int>

    ghost predicate Valid() reads this { forall h | h in live :: h < nextHandle }

    ghost function Tables(): State reads this { State(reserved, mapped, live, registry) }
  }

  ghost predicate SameMapped(m: map<int, Piece>, m': map<int, Piece>) {
    && (forall x :: x in m' <==> x in m) && (forall x | x in m :: m'[x] == m[x])
    && Sum(m', PieceSize) == Sum(m, PieceSize)
  }

  ghost predicate SameLive(l: set<nat>, l': set<nat>) { forall h :: h in l' <==> h in l }

  // ----- unmapping and releasing

  /** Chunk addresses grow with the index. */
  lemma PieceStep(d: int, sizes: seq<nat>, i: nat, x: int)
    requires i < |sizes|
    ensures IsPiece(d, sizes, 0, i + 1, x) <==> IsPiece(d, sizes, 0, i, x) || x == Addr(d, sizes, i)
  {
  }

  lemma PieceNotBefore(d: int, sizes: seq<nat>, i: nat)
    requires Positive(sizes) && i < |sizes|
    ensures !IsPiece(d, sizes, 0, i, Addr(d, sizes, i))
  {
    forall k | 0 <= k < i ensures Addr(d, sizes, k) != Addr(d, sizes, i) { OffsetsIncrease(sizes, k, i); }
  }

  /** `x` is one of the first `n` chunks and its unmap call succeeded. */
  ghost predicate Unmapped(d: int, sizes: seq<nat>, calls: seq<Status>, n: nat, x: int)
    requires n <= |sizes| && n <= |calls|
  {
    exists k :: 0 <= k < n && Addr(d, sizes, k) == x && calls[k].Ok?
  }

  lemma UnmappedStep(d: int, sizes: seq<nat>, calls: seq<Status>, i: nat, x: int)
    requires i < |sizes| && i < |calls|
    ensures Unmapped(d, sizes, calls, i + 1, x) <==>
            Unmapped(d, sizes, calls, i, x) || (x == Addr(d, sizes, i) && calls[i].Ok?)
  {
  }

  /** Unmaps the first `n` chunks, going on after errors; a chunk stays exactly when its call failed. */
  method UnmapChunks(dev: Device, d: int, sizes: seq<nat>, n: nat, calls: seq<Status>) returns (first: nat)
    requires Positive(sizes) && n <= |sizes| && n <= |calls|
    requires forall k | 0 <= k < n :: Addr(d, sizes, k) in dev.mapped && dev.mapped[Addr(d, sizes, k)].size == sizes[k]
    modifies dev`mapped
    ensures first == FirstError(calls, n)
    ensures forall x :: x in dev.mapped <==> x in old(dev.mapped) && !Unmapped(d, sizes, calls, n, x)
    ensures forall x | x in dev.mapped :: dev.mapped[x] == old(dev.mapped[x])
    ensures AllOk(calls, n) ==> Sum(dev.mapped, PieceSize) == Sum(old(dev.mapped), PieceSize) - Offset(sizes, n)
  {
    hide Sum, Unmapped, Addr, Offset;
    forall x ensures !Unmapped(d, sizes, calls, 0, x) { NoneUnmapped(d, sizes, calls, x); }
    OffsetZero(sizes);
    first := 0;
    var allocatedSize := 0;
    var i := 0;
    while i < n
      invariant i <= n && allocatedSize == Offset(sizes, i) && first == FirstError(calls, i)
      invariant forall x :: x in dev.mapped <==> x in old(dev.mapped) && !Unmapped(d, sizes, calls, i, x)
      invariant forall x | x in dev.mapped :: dev.mapped[x] == old(dev.mapped[x])
      invariant AllOk(calls, i) ==> Sum(dev.mapped, PieceSize) == Sum(old(dev.mapped), PieceSize) - Offset(sizes, i)
    {
      var addr := d + allocatedSize;
      AddrIs(d, sizes, i);
      OffsetStep(sizes, i);
      NotUnmappedYet(d, sizes, calls, i);
      forall x ensures Unmapped(d, sizes, calls, i + 1, x) <==>
                       Unmapped(d, sizes, calls, i, x) || (x == Addr(d, sizes, i) && calls[i].Ok?)
      {
        UnmappedStep(d, sizes, calls, i, x);
      }
      if calls[i].Ok? {
        SumDrop(dev.mapped, PieceSize, addr);
        dev.mapped := dev.mapped - {addr};
      } else if first == 0 {
        first := calls[i].code;
      }
      allocatedSize := allocatedSize + sizes[i];
      i := i + 1;
    }
  }

  lemma NoneUnmapped(d: int, sizes: seq<nat>, calls: seq<Status>, x: int)
    ensures !Unmapped(d, sizes, calls, 0, x)
  {
  }

  lemma OffsetZero(sizes: seq<nat>)
    ensures Offset(sizes, 0) == 0
  {
  }

  lemma OffsetStep(sizes: seq<nat>, i: nat)
    requires i < |sizes|
    ensures Offset(sizes, i + 1) == Offset(sizes, i) + sizes[i]
  {
  }

  lemma AddrIs(d: int, sizes: seq<nat>, k: nat)
    requires k < |sizes|
    ensures Addr(d, sizes, k) == d + Offset(sizes, k)
  {
  }

  lemma NotUnmappedYet(d: int, sizes: seq<nat>, calls: seq<Status>, i: nat)
    requires Positive(sizes) && i < |sizes| && i < |calls|
    ensures !Unmapped(d, sizes, calls, i, Addr(d, sizes, i))
  {
    forall k | 0 <= k < i ensures Addr(d, sizes, k) != Addr(d, sizes, i) { OffsetsIncrease(sizes, k, i); }
  }

  /** `h` is one of the first `n` handles and its release call succeeded. */
  ghost predicate Released(handles: seq<nat>, calls: seq<Status>, n: nat, h: nat)
    requires n <= |handles| && n <= |calls|
  {
    exists k :: 0 <= k < n && handles[k] == h && calls[k].Ok?
  }

  lemma ReleasedStep(handles: seq<nat>, calls: seq<Status>, i: nat, h: nat)
    requires i < |handles| && i < |calls|
    ensures Released(handles, calls, i + 1, h) <==>
            Released(handles, calls, i, h) || (h == handles[i] && calls[i].Ok?)
  {
  }

  /** Releases the first `n` handles, going on after errors. */
  method ReleaseHandles(dev: Device, handles: seq<nat>, n: nat, calls: seq<Status>) returns (first: nat)
    requires dev.Valid() && n <= |handles| && n <= |calls|
    modifies dev`live
    ensures dev.Valid() && first == FirstError(calls, n)
    ensures forall h :: h in dev.live <==> h in old(dev.live) && !Released(handles, calls, n, h)
  {
    assert forall h :: !Released(handles, calls, 0, h);
    hide Released;
    first := 0;
    var i := 0;
    while i < n
      invariant i <= n && first == FirstError(calls, i)
      invariant forall h :: h in dev.live <==> h in old(dev.live) && !Released(handles, calls, i, h)
    {
      forall h ensures Released(handles, calls, i + 1, h) <==>
                       Released(handles, calls, i, h) || (h == handles[i] && calls[i].Ok?)
      {
        ReleasedStep(handles, calls, i, h);
      }
      if calls[i].Ok? {
        dev.live := dev.live - {handles[i]};
      } else if first == 0 {
        first := calls[i].code;
      }
      i := i + 1;
    }
  }

  lemma AllReleased(handles: seq<nat>, calls: seq<Status>, h: nat)
    requires |handles| <= |calls| && AllOk(calls, |handles|)
    ensures Released(handles, calls, |handles|, h) <==> h in handles
  {
    if h in handles {
      var k :| 0 <= k < |handles| && handles[k] == h;
      assert calls[k].Ok?;
    }
  }

  lemma AllUnmapped(d: int, sizes: seq<nat>, calls: seq<Status>, n: nat, x: int)
    requires n <= |sizes| && n <= |calls| && AllOk(calls, n)
    ensures Unmapped(d, sizes, calls, n, x) <==> IsPiece(d, sizes, 0, n, x)
  {
    if IsPiece(d, sizes, 0, n, x) {
      var k :| 0 <= k < n && Addr(d, sizes, k) == x;
      assert calls[k].Ok?;
    }
  }

  /** Unmaps and releases a whole allocation; the error code is the first failing status, if any. */
  method UnmapAndRelease(dev: Device, d: int, e: Entry, unmaps: seq<Status>, releases: seq<Status>)
    requires dev.Valid() && dev.error == 0 && Shaped(e) && EntryMapped(dev.mapped, d, e)
    requires |unmaps| == |e.sizes| && |releases| == |e.sizes|
    modifies dev`mapped, dev`live, dev`error
    ensures dev.Valid()
    ensures dev.error == (var first := FirstError(unmaps, |unmaps|);
                          if first != 0 then first else FirstError(releases, |releases|))
    ensures dev.error == 0 ==> PiecesRemoved(old(dev.mapped), dev.mapped, d, e.sizes)
    ensures dev.error == 0 ==> HandlesRemoved(old(dev.live), dev.live, e.handles)
  {
    ghost var n := |e.sizes|;
    forall k | 0 <= k < n
      ensures Addr(d, e.sizes, k) in dev.mapped && dev.mapped[Addr(d, e.sizes, k)].size == e.sizes[k]
    {
      assert ChunkMapped(dev.mapped, d, e, k);
    }
    hide Sum, Unmapped, Released, FirstError, IsPiece;
    var first := UnmapChunks(dev, d, e.sizes, |e.sizes|, unmaps);
    var second := ReleaseHandles(dev, e.handles, |e.handles|, releases);
    if first == 0 { first := second; }
    if first != 0 { dev.error := first; }
    if dev.error == 0 {
      forall x ensures Unmapped(d, e.sizes, unmaps, n, x) <==> IsPiece(d, e.sizes, 0, n, x) {
        AllUnmapped(d, e.sizes, unmaps, n, x);
      }
      forall h ensures Released(e.handles, releases, n, h) <==> h in e.handles { AllReleased(e.handles, releases, h); }
    }
  }

  // ----- creating and mapping

  datatype MapCalls = MapCalls(
    creates: seq<Status>, maps: seq<Status>, unmaps: seq<Status>, releases: seq<Status>, access: Status, memset: Status)

  predicate Sized(calls: MapCalls, n: nat) {
    |calls.creates| == n && |calls.maps| == n && |calls.unmaps| == n && |calls.releases| == n
  }

  /** Every create and map call works. */
  predicate MapsAll(calls: MapCalls, n: nat)
    requires Sized(calls, n)
  {
    AllOk(calls.creates, n) && AllOk(calls.maps, n)
  }

  /** The calls that undo a failed attempt all work. */
  predicate Undoes(calls: MapCalls, n: nat)
    requires Sized(calls, n)
  {
    AllOk(calls.unmaps, n) && AllOk(calls.releases, n)
  }

  /** The first loop: one physical handle per chunk, all or (if releasing works) none. */
  method CreateHandles(dev: Device, n: nat, creates: seq<Status>, releases: seq<Status>) returns (handles: seq<nat>)
    requires dev.Valid() && dev.error == 0 && |creates| == n && |releases| == n
    modifies dev`live, dev`nextHandle, dev`error
    ensures dev.Valid() && dev.error == FirstError(creates, n)
    ensures dev.error == 0 ==> |handles| == n && HandlesAdded(old(dev.live), dev.live, handles)
    ensures dev.error != 0 && AllOk(releases, n) ==> SameLive(old(dev.live), dev.live)
  {
    handles := [];
    var i := 0;
    while i < n
      invariant i <= n && |handles| == i && dev.Valid() && dev.error == 0 && AllOk(creates, i)
      invariant HandlesAdded(old(dev.live), dev.live, handles)
    {
      if creates[i].Error? {
        dev.error := creates[i].code;
        var ignored := ReleaseHandles(dev, handles, i, releases);
        FirstErrorAt(creates, i, n);
        if AllOk(releases, n) {
          forall h ensures Released(handles, releases, i, h) <==> h in handles { AllReleased(handles, releases, h); }
        }
        return;
      }
      dev.live, handles, dev.nextHandle := dev.live + {dev.nextHandle}, handles + [dev.nextHandle], dev.nextHandle + 1;
      i := i + 1;
    }
  }

  lemma {:induction false} FirstErrorAt(calls: seq<Status>, i: nat, n: nat)
    requires i < n <= |calls| && AllOk(calls, i) && calls[i].Error?
    ensures FirstError(calls, n) == calls[i].code
  {
    if n > i + 1 { FirstErrorAt(calls, i, n - 1); }
  }

  lemma NoPiece(d: int, sizes: seq<nat>, x: int)
    ensures !IsPiece(d, sizes, 0, 0, x)
  {
  }

  /** The second loop: each chunk at its own place in the range, all or (if undoing works) none. */
  method MapChunks(dev: Device, d: int, sizes: seq<nat>, handles: seq<nat>, calls: MapCalls)
    requires dev.Valid() && dev.error == 0 && Positive(sizes) && Sized(calls, |sizes|) && |handles| == |sizes|
    requires forall k | 0 <= k < |sizes| :: Addr(d, sizes, k) !in dev.mapped
    modifies dev`mapped, dev`live, dev`error
    ensures dev.Valid() && dev.error == FirstError(calls.maps, |sizes|)
    ensures dev.error == 0 ==> PiecesAdded(old(dev.mapped), dev.mapped, d, sizes, handles) && dev.live == old(dev.live)
    ensures dev.error != 0 && Undoes(calls, |sizes|) ==>
              SameMapped(old(dev.mapped), dev.mapped) && HandlesRemoved(old(dev.live), dev.live, handles)
  {
    hide Sum, IsPiece, Addr, Offset, FirstError;
    ghost var m0 := dev.mapped;
    var n := |sizes|;
    var allocatedSize := 0;
    var i := 0;
    OffsetZero(sizes);
    forall x ensures !IsPiece(d, sizes, 0, 0, x) { NoPiece(d, sizes, x); }
    while i < n
      invariant i <= n && allocatedSize == Offset(sizes, i) && dev.error == 0 && AllOk(calls.maps, i)
      invariant dev.live == old(dev.live)
      invariant forall x :: x in dev.mapped <==> x in m0 || IsPiece(d, sizes, 0, i, x)
      invariant forall x | x in m0 :: dev.mapped[x] == m0[x]
      invariant forall k | 0 <= k < i :: Addr(d, sizes, k) in dev.mapped
      invariant forall k | 0 <= k < i :: dev.mapped[Addr(d, sizes, k)] == Piece(sizes[k], handles[k])
      invariant Sum(dev.mapped, PieceSize) == Sum(m0, PieceSize) + Offset(sizes, i)
    {
      var addr := d + allocatedSize;
      AddrIs(d, sizes, i);
      OffsetStep(sizes, i);
      PieceNotBefore(d, sizes, i);
      if calls.maps[i].Error? {
        dev.error := calls.maps[i].code;
        FirstErrorAt(calls.maps, i, n);
        UndoMaps(dev, d, sizes, handles, calls, i, m0);
        return;
      }
      SumPut(dev.mapped, PieceSize, addr, Piece(sizes[i], handles[i]));
      forall x ensures IsPiece(d, sizes, 0, i + 1, x) <==> IsPiece(d, sizes, 0, i, x) || x == addr {
        PieceStep(d, sizes, i, x);
      }
      forall k | 0 <= k < i ensures Addr(d, sizes, k) != addr { AddrDiffer(d, sizes, k, i); }
      dev.mapped := dev.mapped[addr := Piece(sizes[i], handles[i])];
      allocatedSize := allocatedSize + sizes[i];
      i := i + 1;
    }
    NoFirstError(calls.maps, n);
  }

  lemma NoFirstError(calls: seq<Status>, n: nat)
    requires n <= |calls| && AllOk(calls, n)
    ensures FirstError(calls, n) == 0
  {
  }

  lemma AddrDiffer(d: int, sizes: seq<nat>, k: nat, i: nat)
    requires Positive(sizes) && k < i < |sizes|
    ensures Addr(d, sizes, k) != Addr(d, sizes, i)
  {
    OffsetsIncrease(sizes, k, i);
  }

  /** Undoes `i` mapped chunks and all handles after a failed map call. */
  method UndoMaps(dev: Device, d: int, sizes: seq<nat>, handles: seq<nat>, calls: MapCalls, i: nat,
                  ghost m0: map<int, Piece>)
    requires dev.Valid() && Positive(sizes) && Sized(calls, |sizes|) && |handles| == |sizes| && i <= |sizes|
    requires forall x :: x in dev.mapped <==> x in m0 || IsPiece(d, sizes, 0, i, x)
    requires forall x | x in m0 :: dev.mapped[x] == m0[x]
    requires forall k | 0 <= k < i :: Addr(d, sizes, k) !in m0 && Addr(d, sizes, k) in dev.mapped
    requires forall k | 0 <= k < i :: dev.mapped[Addr(d, sizes, k)] == Piece(sizes[k], handles[k])
    requires Sum(dev.mapped, PieceSize) == Sum(m0, PieceSize) + Offset(sizes, i)
    modifies dev`mapped, dev`live
    ensures dev.Valid()
    ensures Undoes(calls, |sizes|) ==> SameMapped(m0, dev.mapped) && HandlesRemoved(old(dev.live), dev.live, handles)
  {
    ghost var n := |sizes|;
    ghost var m1 := dev.mapped;
    assert forall x | x in m0 :: !IsPiece(d, sizes, 0, i, x);
    hide Sum, IsPiece, Addr, Offset, FirstError, Unmapped, Released;
    var ignored := UnmapChunks(dev, d, sizes, i, calls.unmaps);
    var ignored' := ReleaseHandles(dev, handles, |handles|, calls.releases);
    if Undoes(calls, n) {
      forall x ensures Unmapped(d, sizes, calls.unmaps, i, x) <==> IsPiece(d, sizes, 0, i, x) {
        AllUnmapped(d, sizes, calls.unmaps, i, x);
      }
      forall h ensures Released(handles, calls.releases, n, h) <==> h in handles {
        AllReleased(handles, calls.releases, h);
      }
    }
  }

  /** The error code of creating and mapping `n` chunks: that of the first call that fails. */
  function MapError(calls: MapCalls, n: nat): nat
    requires Sized(calls, n)
  {
    if !AllOk(calls.creates, n) then FirstError(calls.creates, n)
    else if !AllOk(calls.maps, n) then FirstError(calls.maps, n)
    else if calls.access.Error? then calls.access.code
    else if calls.memset.Error? then calls.memset.code else 0
  }

  /**
   Creates and maps all chunks. Either every chunk of the range is mapped onto a new handle, or a
   create or map call failed and, if undoing works, nothing is left behind. A failing set-access or
   memset is not undone. The error code is that of the first call that failed, and the memory is open
   and zeroed exactly when all calls up to the one that makes it so work.
   */
  method CreateAndMap(dev: Device, d: int, sizes: seq<nat>, calls: MapCalls) returns (handles: seq<nat>)
    requires dev.Valid() && dev.error == 0 && Positive(sizes) && Sized(calls, |sizes|)
    requires forall k | 0 <= k < |sizes| :: Addr(d, sizes, k) !in dev.mapped
    modifies dev`mapped, dev`live, dev`nextHandle, dev`error, dev`open, dev`zeroed
    ensures dev.Valid()
    ensures dev.error == 0 <==> MapsAll(calls, |sizes|) && calls.access.Ok? && calls.memset.Ok?
    ensures dev.error == MapError(calls, |sizes|)
    ensures forall r :: r in dev.open <==>
              if r == d then MapsAll(calls, |sizes|) && calls.access.Ok? else r in old(dev.open)
    ensures forall r :: r in dev.zeroed <==>
              if r == d then MapsAll(calls, |sizes|) && calls.access.Ok? && calls.memset.Ok? else r in old(dev.zeroed)
    ensures MapsAll(calls, |sizes|) ==>
              && |handles| == |sizes|
              && PiecesAdded(old(dev.mapped), dev.mapped, d, sizes, handles)
              && HandlesAdded(old(dev.live), dev.live, handles)
    ensures !MapsAll(calls, |sizes|) && Undoes(calls, |sizes|) ==>
              SameMapped(old(dev.mapped), dev.mapped) && SameLive(old(dev.live), dev.live)
    ensures MapsAll(calls, |sizes|) && sizes != [] ==> !SameMapped(old(dev.mapped), dev.mapped)
  {
    hide Sum, IsPiece, Addr, Offset, PiecesAdded;
    ghost var m0 := dev.mapped;
    dev.open, dev.zeroed := dev.open - {d}, dev.zeroed - {d};
    handles := CreateHandles(dev, |sizes|, calls.creates, calls.releases);
    if dev.error != 0 {
      return;
    }
    MapChunks(dev, d, sizes, handles, calls);
    if dev.error != 0 {
      return;
    }
    if sizes != [] { AddedDiffers(m0, dev.mapped, d, sizes, handles); }
    if calls.access.Error? {
      dev.error := calls.access.code;
      return;
    }
    dev.open := dev.open + {d};
    if calls.memset.Error? {
      dev.error := calls.memset.code;
      return;
    }
    dev.zeroed := dev.zeroed + {d};
  }

  lemma AddedDiffers(m: map<int, Piece>, m': map<int, Piece>, d: int, sizes: seq<nat>, handles: seq<nat>)
    requires sizes != [] && |handles| == |sizes| && PiecesAdded(m, m', d, sizes, handles) && Addr(d, sizes, 0) !in m
    ensures !SameMapped(m, m')
  {
    hide Sum;
    assert Addr(d, sizes, 0) in m';
  }
}
