/** The four operations on allocations, each tied to its step of the state machine. */
module AllocatorOps {
  import opened Prelude
  import opened Chunking
  import opened MapSums
  import opened SleepAllocator
  import opened AllocatorCalls

  /** What the driver answers to a request for address space. */
  datatype Reservation = Granted(addr: int) | Refused(code: Code)

  const NOT_SUPPORTED: Code := 801
  const WRONG_ADDRESS: Code := 1
  const INVALID_VALUE: Code := 1

  /** The driver never grants an empty range or one that overlaps a reserved range. */
  ghost predicate Grantable(reserved: map<int, nat>, r: Reservation, size: nat) {
    r.Granted? ==> size > 0 && forall b | b in reserved :: Apart(r.addr, size, b, reserved[b])
  }

  /**
   Reserves a range. A first refusal is final when no alignment was asked for; otherwise the default
   alignment is tried, and an address that happens to be aligned is taken.
   */
  method ReserveAddress(dev: Device, size: nat, alignment: nat, first: Reservation, second: Reservation)
    returns (r: Reservation)
    requires Grantable(dev.reserved, first, size) && Grantable(dev.reserved, second, size)
    requires forall b | b in dev.reserved :: dev.reserved[b] > 0
    modifies dev`reserved
    ensures r.Granted? ==> dev.reserved == old(dev.reserved)[r.addr := size]
    ensures r.Granted? ==> r == first || (r == second && alignment > 0 && r.addr % alignment == 0)
    ensures r.Refused? ==> SameReserved(old(dev.reserved), dev.reserved)
    ensures first.Granted? || alignment == 0 ==> r == first
    ensures first.Refused? && alignment > 0 && second.Granted? && second.addr % alignment == 0 ==> r == second
    ensures first.Refused? && alignment > 0 && second.Granted? && second.addr % alignment != 0 ==> r == Refused(801)
    ensures first.Refused? && alignment > 0 && second.Refused? ==> r == second
  {
    if first.Granted? {
      dev.reserved := dev.reserved[first.addr := size];
      return first;
    }
    if alignment == 0 {
      return first;
    }
    if second.Refused? {
      return second;
    }
    dev.reserved := dev.reserved[second.addr := size];
    if second.addr % alignment == 0 {
      return second;
    }
    dev.reserved := dev.reserved - {second.addr};
    return Refused(NOT_SUPPORTED);
  }

  /** Nothing is mapped in a range that is not reserved. */
  lemma FreshRange(s: State, a: int, sizes: seq<nat>, size: nat, k: nat)
    requires Good(s) && Positive(sizes) && Offset(sizes, |sizes|) == size && k < |sizes|
    requires forall b | b in s.reserved :: Apart(a, size, b, s.reserved[b])
    ensures Addr(a, sizes, k) !in s.mapped
  {
    hide Sum, LiveOk;
    var x := Addr(a, sizes, k);
    PieceOf(a, sizes, k);
    PieceInside(a, sizes, x);
    forall b | b in s.registry ensures !Maps(s.registry, b, x) {
      PieceOutside(b, s.registry[b].sizes, x);
    }
  }

  lemma ReservedPositive(s: State)
    requires Good(s)
    ensures forall b | b in s.reserved :: s.reserved[b] > 0
  {
    hide Sum, MappedOk, LiveOk;
  }

  /** The driver holds what it held before. */
  ghost predicate Untouched(s: State, s': State) {
    SameReserved(s.reserved, s'.reserved) && SameMapped(s.mapped, s'.mapped) && SameLive(s.live, s'.live)
  }

  /**
   A new allocation of the aligned size, cut into chunks. On success it is one malloc step. When a
   create or map call fails and undoing works, the driver is as before, but the table keeps an entry
   for the address that was given back.
   */
  method Malloc(dev: Device, size: nat, granularity: nat, baseChunk: nat, query: Status, first: Reservation,
                second: Reservation, calls: MapCalls, giveBack: Status)
    returns (ptr: Option<int>, ghost at: Option<int>)
    requires Good(dev.Tables()) && dev.Valid() && dev.error == 0 && granularity >= 1 && baseChunk >= 1
    requires Sized(calls, ChunkCount(AlignUp(size, granularity), AlignUp(baseChunk, granularity)))
    requires Grantable(dev.reserved, first, AlignUp(size, granularity))
    requires Grantable(dev.reserved, second, AlignUp(size, granularity))
    modifies dev
    ensures dev.Valid()
    ensures ptr.Some? ==>
              && dev.error == 0
              && MallocStep(old(dev.Tables()), dev.Tables(), ptr.value)
              && dev.registry[ptr.value].size == AlignUp(size, granularity)
              && Fills(dev.registry[ptr.value].sizes, AlignUp(size, granularity), AlignUp(baseChunk, granularity),
                       granularity)
    ensures ptr.Some? ==> ptr.value in dev.open && ptr.value in dev.zeroed
    ensures ptr.Some? <==>
              && query.Ok? && (first.Granted? || (second.Granted? && second.addr % granularity == 0))
              && MapsAll(calls, |calls.maps|) && calls.access.Ok? && calls.memset.Ok?
    ensures ptr.Some? ==> ptr.value == if first.Granted? then first.addr else second.addr
    ensures ptr.None? ==> dev.error != 0
    ensures query.Error? ==> dev.error == query.code && at.None?
    ensures query.Ok? && first.Refused? && second.Refused? ==> dev.error == second.code && at.None?
    ensures query.Ok? && first.Refused? && second.Granted? && second.addr % granularity != 0 ==>
              dev.error == 801 && at.None?
    ensures query.Ok? && (first.Granted? || (second.Granted? && second.addr % granularity == 0)) ==>
              at == Some(if first.Granted? then first.addr else second.addr)
    ensures ptr.None? && at.None? ==> Untouched(old(dev.Tables()), dev.Tables()) && dev.registry == old(dev.registry)
    ensures ptr.None? && at.Some? ==>
              at.value in dev.registry && dev.registry == old(dev.registry)[at.value := dev.registry[at.value]]
    ensures ptr.None? && at.Some? ==>
              dev.error == if giveBack.Error? then giveBack.code else MapError(calls, |calls.maps|)
    ensures ptr.None? && at.Some? && giveBack.Ok? ==> at.value !in dev.reserved
    ensures ptr.None? && at.Some? && giveBack.Ok? && !MapsAll(calls, |calls.maps|) && Undoes(calls, |calls.maps|) ==>
              Untouched(old(dev.Tables()), dev.Tables())
  {
    hide Sum, Good, AlignUp, ChunkCount, Fills, PiecesAdded, HandlesAdded, IsPiece, Addr, MapsAll, Undoes;
    ghost var s0 := dev.Tables();
    at := None;
    if query.Error? {
      dev.error := query.code;
      return None, None;
    }
    var alignedSize := AlignUp(size, granularity);
    ReservedPositive(s0);
    var r := ReserveAddress(dev, alignedSize, granularity, first, second);
    if r.Refused? {
      dev.error := r.code;
      return None, None;
    }
    at := Some(r.addr);
    var chunk := AlignUp(baseChunk, granularity);
    AlignUpIsLeast(size, granularity);
    AlignUpIsLeast(baseChunk, granularity);
    var sizes := ChunkSizes(alignedSize, chunk, granularity);
    FillsFacts(sizes, alignedSize, chunk, granularity);
    dev.registry := dev.registry[r.addr := Entry(alignedSize, sizes, [], false)];
    forall k | 0 <= k < |sizes| ensures Addr(r.addr, sizes, k) !in dev.mapped {
      FreshRange(s0, r.addr, sizes, alignedSize, k);
    }
    var handles := CreateAndMap(dev, r.addr, sizes, calls);
    if dev.error != 0 {
      if giveBack.Ok? { dev.reserved := dev.reserved - {r.addr}; } else { dev.error := giveBack.code; }
      return None, at;
    }
    dev.registry := dev.registry[r.addr := Entry(alignedSize, sizes, handles, false)];
    return Some(r.addr), at;
  }

  lemma FillsFacts(sizes: seq<nat>, total: nat, chunk: nat, unit: nat)
    requires unit >= 1 && Fills(sizes, total, chunk, unit)
    ensures Positive(sizes) && Offset(sizes, |sizes|) == total
  {
  }

  /** In a good state an awake allocation has all its chunks mapped. */
  lemma AwakeIsMapped(s: State, a: int)
    requires Good(s) && AwakeAt(s.registry, a)
    ensures Shaped(s.registry[a]) && EntryMapped(s.mapped, a, s.registry[a])
    ensures a in s.reserved && s.reserved[a] == s.registry[a].size
    ensures forall b | b in s.reserved && b != a :: s.reserved[b] > 0
  {
    hide Sum, LiveOk;
  }

  /** In a good state a sleeping allocation has its range reserved and nothing mapped there. */
  lemma AsleepIsEmpty(s: State, a: int, k: nat)
    requires Good(s) && a in s.registry && s.registry[a].asleep && k < |s.registry[a].sizes|
    ensures Addr(a, s.registry[a].sizes, k) !in s.mapped
  {
    hide Sum, LiveOk;
    var sizes := s.registry[a].sizes;
    var x := Addr(a, sizes, k);
    PieceOf(a, sizes, k);
    forall b | b in s.registry && b != a ensures !Maps(s.registry, b, x) { OtherPiece(s, a, b, x); }
  }

  /**
   Puts an allocation to sleep: its memory goes, and its address range is given back and taken again
   as a placeholder. It succeeds exactly when every call works and the driver grants the same address.
   */
  method SleepOne(dev: Device, a: int, unmaps: seq<Status>, releases: seq<Status>, giveBack: Status, again: Reservation)
    returns (ok: bool)
    requires Good(dev.Tables()) && dev.Valid() && dev.error == 0 && AwakeAt(dev.registry, a)
    requires |unmaps| == |dev.registry[a].sizes| && |releases| == |unmaps|
    requires Grantable(dev.reserved - {a}, again, dev.registry[a].size)
    modifies dev
    ensures dev.Valid() && dev.error == 0
    ensures ok <==> AllOk(unmaps, |unmaps|) && AllOk(releases, |releases|) && giveBack.Ok? && again == Granted(a)
    ensures ok ==> SleepStep(old(dev.Tables()), dev.Tables(), a)
    ensures dev.registry == old(dev.registry)[a := old(dev.registry)[a].(asleep := true)]
    ensures AllOk(unmaps, |unmaps|) && AllOk(releases, |releases|) && giveBack.Ok? && !ok ==> a !in dev.reserved
  {
    hide Sum, Good, PiecesRemoved, HandlesRemoved, EntryMapped, FirstError;
    ghost var s0 := dev.Tables();
    var e := dev.registry[a];
    AwakeIsMapped(s0, a);
    UnmapAndRelease(dev, a, e, unmaps, releases);
    if dev.error == 0 {
      if giveBack.Error? {
        dev.error := giveBack.code;
      } else {
        dev.reserved := dev.reserved - {a};
        var r := ReserveAddress(dev, e.size, 0, again, again);
        if r.Refused? {
          dev.error := r.code;
        } else if r.addr != a {
          dev.reserved := dev.reserved - {r.addr};
          dev.error := WRONG_ADDRESS;
        }
      }
    }
    dev.registry := dev.registry[a := e.(asleep := true)];
    ok := dev.error == 0;
    dev.error := 0;
  }

  /** Maps a sleeping allocation again; after a failure that is undone it can be tried again. */
  method WakeOne(dev: Device, a: int, calls: MapCalls) returns (ok: bool)
    requires Good(dev.Tables()) && dev.Valid() && dev.error == 0
    requires a in dev.registry && dev.registry[a].asleep && Sized(calls, |dev.registry[a].sizes|)
    modifies dev
    ensures dev.Valid() && dev.error == 0
    ensures ok <==> MapsAll(calls, |calls.maps|) && calls.access.Ok? && calls.memset.Ok?
    ensures ok ==> WakeStep(old(dev.Tables()), dev.Tables(), a) && a in dev.open && a in dev.zeroed
    ensures !ok ==> dev.registry == old(dev.registry) && dev.reserved == old(dev.reserved)
    ensures !MapsAll(calls, |calls.maps|) && Undoes(calls, |calls.maps|) ==> Good(dev.Tables())
  {
    hide Sum, Good, PiecesAdded, HandlesAdded, Addr, MapsAll, Undoes;
    ghost var s0 := dev.Tables();
    var e := dev.registry[a];
    AsleepShaped(s0, a);
    forall k | 0 <= k < |e.sizes| ensures Addr(a, e.sizes, k) !in dev.mapped { AsleepIsEmpty(s0, a, k); }
    var handles := CreateAndMap(dev, a, e.sizes, calls);
    if dev.error != 0 {
      dev.error := 0;
      if !MapsAll(calls, |calls.maps|) && Undoes(calls, |calls.maps|) { SameIsGood(s0, dev.Tables()); }
      return false;
    }
    dev.registry := dev.registry[a := e.(asleep := false, handles := handles)];
    return true;
  }

  lemma AsleepShaped(s: State, a: int)
    requires Good(s) && a in s.registry
    ensures Shaped(s.registry[a])
  {
  }

  lemma SameIsGood(s: State, s': State)
    requires Good(s) && s'.registry == s.registry && s'.reserved == s.reserved
    requires SameMapped(s.mapped, s'.mapped) && SameLive(s.live, s'.live)
    ensures Good(s')
  {
    hide Sum;
    assert TableOk(s');
    assert LiveOk(s');
    forall a | AwakeAt(s.registry, a) ensures EntryMapped(s'.mapped, a, s.registry[a]) {
      forall k | 0 <= k < |s.registry[a].sizes| ensures ChunkMapped(s'.mapped, a, s.registry[a], k) {
        assert ChunkMapped(s.mapped, a, s.registry[a], k);
      }
    }
  }

  /**
   Frees an allocation; a sleeping one has no chunks to unmap, only its placeholder to give back. The
   driver refuses to free a range by a size other than the reserved one.
   */
  method FreeOne(dev: Device, a: int, size: nat, unmaps: seq<Status>, releases: seq<Status>, giveBack: Status)
    returns (ok: bool)
    requires Good(dev.Tables()) && dev.Valid() && dev.error == 0
    requires a in dev.registry ==> |unmaps| == |dev.registry[a].sizes| == |releases|
    modifies dev
    ensures dev.Valid()
    ensures a !in old(dev.registry) ==> !ok && dev.Tables() == old(dev.Tables()) && dev.error == 0
    ensures a in old(dev.registry) ==>
              (ok <==> giveBack.Ok? && size == old(dev.registry)[a].size
                       && (AwakeAt(old(dev.registry), a) ==> AllOk(unmaps, |unmaps|) && AllOk(releases, |releases|)))
    ensures ok ==> FreeStep(old(dev.Tables()), dev.Tables(), a)
    ensures a in old(dev.registry) && giveBack.Error? ==> dev.error == giveBack.code
    ensures a in old(dev.registry) && giveBack.Ok? && size != old(dev.registry)[a].size ==> dev.error == 1
    ensures a in old(dev.registry) && !ok && giveBack.Ok? && size == old(dev.registry)[a].size ==>
              dev.error == (var first := FirstError(unmaps, |unmaps|);
                            if first != 0 then first else FirstError(releases, |releases|))
    ensures dev.registry == old(dev.registry) - {a}
  {
    hide Sum, Good, PiecesRemoved, HandlesRemoved, EntryMapped, FirstError;
    ghost var s0 := dev.Tables();
    if a !in dev.registry {
      NothingToDrop(dev.registry, a);
      return false;
    }
    var e := dev.registry[a];
    EntryIsReserved(s0, a);
    dev.registry := dev.registry - {a};
    if !e.asleep {
      AwakeIsMapped(s0, a);
      UnmapAndRelease(dev, a, e, unmaps, releases);
    }
    if giveBack.Error? {
      dev.error := giveBack.code;
    } else if size != dev.reserved[a] {
      dev.error := INVALID_VALUE;
    } else {
      dev.reserved := dev.reserved - {a};
    }
    return dev.error == 0;
  }

  lemma EntryIsReserved(s: State, a: int)
    requires Good(s) && a in s.registry
    ensures a in s.reserved && s.reserved[a] == s.registry[a].size
  {
    hide Sum, MappedOk, LiveOk;
  }

  lemma NothingToDrop<K, V>(m: map<K, V>, k: K)
    requires k !in m
    ensures m - {k} == m
  {
  }
}
