/**
 The block store and load routines and their batch loops, run one after another on one disk. The
 single-block routines take exactly the steps that the interleaved protocol gives their job.
 */
module FsBatch {
  import opened Prelude
  import opened FsProtocol

  /** Names and files as the kernel keeps them. */
  class Disk {
    var names: map<Path, nat>
    var inodes: seq<Bytes>

    ghost predicate Valid() reads this { forall p | p in names :: names[p] < |inodes| }

    predicate Has(p: Path) reads this { p in names }

    function Held(p: Path): Bytes
      requires Valid() && Has(p)
      reads this
    {
      inodes[names[p]]
    }
  }

  /** The steps of one job alone, one outcome per system call. */
  function Steps(job: Job, names: map<Path, nat>, inodes: seq<Bytes>, ph: Phase, calls: seq<Outcome>): Effect
    decreases |calls|
  {
    if calls == [] || ph.Done? then Effect(names, inodes, ph)
    else
      var f := StepOf(job, names, inodes, ph, calls[0]);
      Steps(job, f.names, f.inodes, f.phase, calls[1..])
  }

  lemma StepsUnfold(job: Job, names: map<Path, nat>, inodes: seq<Bytes>, ph: Phase, calls: seq<Outcome>, i: nat)
    requires i < |calls| && !ph.Done?
    ensures var f := StepOf(job, names, inodes, ph, calls[i]);
            Steps(job, names, inodes, ph, calls[i..]) == Steps(job, f.names, f.inodes, f.phase, calls[i + 1..])
  {
    assert calls[i..][0] == calls[i] && calls[i..][1..] == calls[i + 1..];
  }

  predicate AllOk(calls: seq<Outcome>) { forall i | 0 <= i < |calls| :: calls[i].Ok? }

  const STORE_CALLS := 7
  const LOAD_CALLS := 4

  /** The unlink that follows a failed write, close or rename. */
  function CleanupCall(data: Bytes, calls: seq<Outcome>): Outcome
    requires |calls| == STORE_CALLS
  {
    if calls[3].Fail? || (calls[3].Short? && calls[3].count < |data|) || calls[4].Fail? then calls[5] else calls[6]
  }

  /**
   The error a store reports: that of its first failing call, 17 when the temporary name is taken, 5
   when fewer bytes were written, and 0 when it works or finds the block there already.
   */
  function StoreErrno(present: bool, taken: bool, size: nat, calls: seq<Outcome>): nat
    requires |calls| == STORE_CALLS
  {
    if present && !calls[0].Fail? then 0
    else if calls[1].Fail? then calls[1].errno
    else if calls[2].Fail? then calls[2].errno
    else if taken then 17
    else if calls[3].Fail? then calls[3].errno
    else if calls[3].Short? && calls[3].count < size then 5
    else if calls[4].Fail? then calls[4].errno
    else if calls[5].Fail? then calls[5].errno
    else 0
  }

  /** The names that a store of `dest` through `tmp` must leave alone still hold what they held. */
  twostate predicate OthersKept(disk: Disk, tmp: Path, dest: Path, stored: bool)
    requires old(disk.Valid()) && disk.Valid()
    reads disk
  {
    forall p | p != tmp && (p != dest || !stored) ::
      disk.Has(p) == old(disk.Has(p)) && (disk.Has(p) ==> disk.Held(p) == old(disk.Held(p)))
  }

  /** The second half of a store: fill the new temporary file, then rename it into place. */
  method FillAndRename(disk: Disk, tmp: Path, dest: Path, data: Bytes, fd: nat, calls: seq<Outcome>)
    returns (err: nat)
    requires disk.Valid() && tmp != dest && |calls| == STORE_CALLS
    requires disk.Has(tmp) && disk.names[tmp] == fd && disk.inodes[fd] == []
    requires forall p | p in disk.names && p != tmp :: disk.names[p] != fd
    modifies disk
    ensures disk.Valid()
    ensures Effect(disk.names, disk.inodes, Done(err, [])) ==
            Steps(Store(tmp, dest, data), old(disk.names), old(disk.inodes), Write(fd), calls[3..])
    ensures err == 0 ==> disk.Has(dest) && disk.Held(dest) == data && !disk.Has(tmp)
    ensures AllOk(calls) ==> err == 0
    ensures !calls[1].Fail? && !calls[2].Fail? ==> err == StoreErrno(false, false, |data|, calls)
    ensures err != 0 ==> (disk.Has(tmp) <==> CleanupCall(data, calls).Fail?)
    ensures OthersKept(disk, tmp, dest, err == 0)
  {
    hide Steps;
    ghost var job := Store(tmp, dest, data);
    // write
    StepsUnfold(job, disk.names, disk.inodes, Write(fd), calls, 3);
    var wrote := if calls[3].Short? && calls[3].count < |data| then data[..calls[3].count] else data;
    if !calls[3].Fail? { disk.inodes := disk.inodes[fd := Overwrite(disk.inodes[fd], wrote)]; }
    if calls[3].Fail? || |wrote| != |data| {
      err := if calls[3].Fail? then calls[3].errno else EIO;
      StepsUnfold(job, disk.names, disk.inodes, AbortClose(fd, err), calls, 4);
      Abort(disk, tmp, dest, data, fd, err, calls, 5);
      return;
    }
    // close
    StepsUnfold(job, disk.names, disk.inodes, Close(fd), calls, 4);
    if calls[4].Fail? {
      Abort(disk, tmp, dest, data, fd, calls[4].errno, calls, 5);
      return calls[4].errno;
    }
    // rename
    StepsUnfold(job, disk.names, disk.inodes, Rename(fd), calls, 5);
    if calls[5].Fail? {
      Abort(disk, tmp, dest, data, fd, calls[5].errno, calls, 6);
      return calls[5].errno;
    }
    disk.names := (disk.names - {tmp})[dest := disk.names[tmp]];
    StepsDone(job, disk.names, disk.inodes, 0, calls[6..]);
    return 0;
  }

  /** Removes the temporary file after a failure; the error was captured before. */
  method Abort(disk: Disk, tmp: Path, dest: Path, data: Bytes, fd: nat, err: Errno, calls: seq<Outcome>, n: nat)
    requires disk.Valid() && n < |calls|
    modifies disk
    ensures disk.Valid() && disk.inodes == old(disk.inodes)
    ensures disk.names == if calls[n].Fail? then old(disk.names) else old(disk.names) - {tmp}
    ensures Effect(disk.names, disk.inodes, Done(err, [])) ==
            Steps(Store(tmp, dest, data), old(disk.names), old(disk.inodes), AbortUnlink(fd, err), calls[n..])
  {
    hide Steps;
    StepsUnfold(Store(tmp, dest, data), disk.names, disk.inodes, AbortUnlink(fd, err), calls, n);
    if !calls[n].Fail? { disk.names := disk.names - {tmp}; }
    StepsDone(Store(tmp, dest, data), disk.names, disk.inodes, err, calls[n + 1..]);
  }

  /**
   Stores `data` at `dest` unless something is there already. It takes exactly the steps of the
   protocol's store job; on success the block is in place, on failure every block is as before.
   */
  method StoreBlock(disk: Disk, tmp: Path, dest: Path, data: Bytes, calls: seq<Outcome>) returns (err: nat)
    requires disk.Valid() && tmp != dest && |calls| == STORE_CALLS
    modifies disk
    ensures disk.Valid()
    ensures Effect(disk.names, disk.inodes, Done(err, [])) ==
            Steps(Store(tmp, dest, data), old(disk.names), old(disk.inodes), Access, calls)
    ensures err == 0 ==> disk.Has(dest)
    ensures err == 0 ==>
              disk.Held(dest) == if old(disk.Has(dest)) && !calls[0].Fail? then old(disk.Held(dest)) else data
    ensures old(disk.Has(dest)) && !calls[0].Fail? ==> err == 0
    ensures AllOk(calls) && !old(disk.Has(tmp)) ==> err == 0
    ensures err == StoreErrno(old(disk.Has(dest)), old(disk.Has(tmp)), |data|, calls)
    ensures err == 0 || !CleanupCall(data, calls).Fail? ==> disk.Has(tmp) == old(disk.Has(tmp))
    ensures OthersKept(disk, tmp, dest, err == 0)
  {
    hide Steps;
    ghost var job := Store(tmp, dest, data);
    ghost var n0, i0 := disk.names, disk.inodes;
    assert calls[0..] == calls;
    // access
    StepsUnfold(job, n0, i0, Access, calls, 0);
    if dest in disk.names && !calls[0].Fail? {
      StepsDone(job, n0, i0, 0, calls[1..]);
      return 0;
    }
    // ensure_parent_dirs
    StepsUnfold(job, n0, i0, MakeDirs, calls, 1);
    if calls[1].Fail? {
      StepsDone(job, n0, i0, calls[1].errno, calls[2..]);
      return calls[1].errno;
    }
    // open
    StepsUnfold(job, n0, i0, Create, calls, 2);
    if calls[2].Fail? || tmp in disk.names {
      err := if calls[2].Fail? then calls[2].errno else EEXIST;
      StepsDone(job, n0, i0, err, calls[3..]);
      return;
    }
    var fd := |disk.inodes|;
    disk.names, disk.inodes := disk.names[tmp := fd], disk.inodes + [[]];
    err := FillAndRename(disk, tmp, dest, data, fd, calls);
  }

  lemma StepsDone(job: Job, names: map<Path, nat>, inodes: seq<Bytes>, result: nat, calls: seq<Outcome>)
    ensures Steps(job, names, inodes, Done(result, []), calls) == Effect(names, inodes, Done(result, []))
  {
  }

  // ----- loading

  /** The open and read calls work, and the file has enough bytes for the buffer. */
  predicate Loads(names: map<Path, nat>, inodes: seq<Bytes>, src: Path, size: nat, calls: seq<Outcome>)
    requires |calls| == LOAD_CALLS && forall p | p in names :: names[p] < |inodes|
  {
    && !calls[0].Fail? && src in names
    && !calls[1].Fail? && |Delivered(inodes[names[src]], size, calls[1])| == size
  }

  /**
   The error a load reports: that of a failing open or read, 2 when the block is missing, 5 when fewer
   bytes came than the buffer holds, and 0 when it works.
   */
  function LoadErrno(names: map<Path, nat>, inodes: seq<Bytes>, src: Path, size: nat, calls: seq<Outcome>): nat
    requires |calls| == LOAD_CALLS && forall p | p in names :: names[p] < |inodes|
  {
    if calls[0].Fail? then calls[0].errno
    else if src !in names then 2
    else if calls[1].Fail? then calls[1].errno
    else if |inodes[names[src]]| < size || (calls[1].Short? && calls[1].count < size) then 5
    else 0
  }

  /** Reads a block into `dst`; only a read that comes back short removes the file. */
  method LoadBlock(disk: Disk, src: Path, dst: array<bv8>, calls: seq<Outcome>) returns (err: nat)
    requires disk.Valid() && |calls| == LOAD_CALLS
    modifies disk, dst
    ensures disk.Valid() && disk.inodes == old(disk.inodes)
    ensures err == 0 <==> Loads(old(disk.names), old(disk.inodes), src, dst.Length, calls)
    ensures err == LoadErrno(old(disk.names), old(disk.inodes), src, dst.Length, calls)
    ensures err == 0 ==> disk.names == old(disk.names) && dst[..] <= disk.Held(src)
    ensures disk.names == if old(disk.Has(src)) && !calls[0].Fail? && !calls[1].Fail? && err != 0 && !calls[3].Fail?
                          then old(disk.names) - {src} else old(disk.names)
    ensures calls[0].Fail? || !old(disk.Has(src)) || calls[1].Fail? ==> dst[..] == old(dst[..])
    ensures Effect(disk.names, disk.inodes, Done(err, if err == 0 then dst[..] else [])) ==
            Steps(Load(src, dst.Length), old(disk.names), old(disk.inodes), Open, calls)
  {
    hide Steps;
    ghost var job := Load(src, dst.Length);
    ghost var n0, i0 := disk.names, disk.inodes;
    assert calls[0..] == calls;
    // open
    StepsUnfold(job, n0, i0, Open, calls, 0);
    if calls[0].Fail? || src !in disk.names {
      err := if calls[0].Fail? then calls[0].errno else ENOENT;
      StepsDone(job, n0, i0, err, calls[1..]);
      return;
    }
    // read
    var fd := disk.names[src];
    StepsUnfold(job, n0, i0, Read(fd), calls, 1);
    if calls[1].Fail? {
      StepsUnfold(job, n0, i0, CloseFailed(calls[1].errno), calls, 2);
      StepsDone(job, n0, i0, calls[1].errno, calls[3..]);
      return calls[1].errno;
    }
    var got := Delivered(disk.inodes[fd], dst.Length, calls[1]);
    forall k | 0 <= k < |got| { dst[k] := got[k]; }
    if |got| < dst.Length {
      StepsUnfold(job, n0, i0, CloseShort, calls, 2);
      StepsUnfold(job, n0, i0, UnlinkShort, calls, 3);
      if !calls[3].Fail? { disk.names := disk.names - {src}; }
      StepsDone(job, disk.names, i0, EIO, calls[4..]);
      return EIO;
    }
    assert dst[..] == got;
    StepsUnfold(job, n0, i0, CloseFull(got), calls, 2);
    StepsFull(job, n0, i0, got, calls[3..]);
    return 0;
  }

  lemma StepsFull(job: Job, names: map<Path, nat>, inodes: seq<Bytes>, buf: Bytes, calls: seq<Outcome>)
    ensures Steps(job, names, inodes, Done(0, buf), calls) == Effect(names, inodes, Done(0, buf))
  {
  }

  // ----- batches

  datatype BatchResult = LengthMismatch | Completed | FailedAt(index: nat, errno: Errno)

  /** The block that the `i`-th load of a batch finds on the disk. */
  ghost predicate LoadsAt(names: map<Path, nat>, inodes: seq<Bytes>, srcs: seq<Path>, dsts: seq<array<bv8>>,
                          calls: seq<seq<Outcome>>, i: nat)
    requires i < |srcs| && |dsts| == |srcs| && |calls| == |srcs| && |calls[i]| == LOAD_CALLS
    requires forall p | p in names :: names[p] < |inodes|
  {
    Loads(names, inodes, srcs[i], dsts[i].Length, calls[i])
  }

  /**
   Loads blocks until one fails. Block `k` is reported as the failure exactly when it is the first
   that cannot be read; the buffers before it hold their blocks, those after it are untouched.
   */
  method BatchLoad(disk: Disk, srcs: seq<Path>, dsts: seq<array<bv8>>, calls: seq<seq<Outcome>>)
    returns (r: BatchResult)
    requires disk.Valid()
    requires |calls| == |srcs| && forall i | 0 <= i < |calls| :: |calls[i]| == LOAD_CALLS
    requires forall i, j | 0 <= i < j < |dsts| :: dsts[i] != dsts[j]
    modifies disk, dsts
    ensures disk.Valid() && disk.inodes == old(disk.inodes)
    ensures r.LengthMismatch? <==> |dsts| != |srcs|
    ensures r.LengthMismatch? || r.Completed? ==> disk.names == old(disk.names)
    ensures r.LengthMismatch? ==> forall i | 0 <= i < |dsts| :: dsts[i][..] == old(dsts[i][..])
    ensures |dsts| == |srcs| ==>
              var done := if r.FailedAt? then r.index else |srcs|;
              && done <= |srcs| && (r.FailedAt? ==> done < |srcs|)
              && (forall i | 0 <= i < done :: LoadsAt(old(disk.names), old(disk.inodes), srcs, dsts, calls, i))
              && (done < |srcs| ==> !LoadsAt(old(disk.names), old(disk.inodes), srcs, dsts, calls, done))
              && (r.FailedAt? ==>
                  r.errno == LoadErrno(old(disk.names), old(disk.inodes), srcs[done], dsts[done].Length, calls[done]))
              && (forall i | 0 <= i < done ::
                  old(disk.Has(srcs[i])) && dsts[i][..] <= old(disk.Held(srcs[i])))
              && (forall i | done < i < |srcs| :: dsts[i][..] == old(dsts[i][..]))
              && (disk.names != old(disk.names) ==>
                  done < |srcs| && disk.names == old(disk.names) - {srcs[done]})
  {
    if |dsts| != |srcs| {
      return LengthMismatch;
    }
    ghost var n0, i0 := disk.names, disk.inodes;
    var i := 0;
    while i < |srcs|
      invariant i <= |srcs| && disk.names == n0 && disk.inodes == i0
      invariant forall j | 0 <= j < i :: LoadsAt(n0, i0, srcs, dsts, calls, j)
      invariant forall j | 0 <= j < i :: srcs[j] in n0 && dsts[j][..] <= i0[n0[srcs[j]]]
      invariant forall j | i <= j < |dsts| :: dsts[j][..] == old(dsts[j][..])
    {
      var err := LoadBlock(disk, srcs[i], dsts[i], calls[i]);
      if err != 0 {
        return FailedAt(i, err);
      }
      i := i + 1;
    }
    return Completed;
  }

  ghost function Content(names: map<Path, nat>, inodes: seq<Bytes>, p: Path): Option<Bytes>
    requires forall q | q in names :: names[q] < |inodes|
  {
    if p in names then Some(inodes[names[p]]) else None
  }

  /** What block `d` holds after the first `n` stores of a batch. */
  ghost function AfterStores(origin: Option<Bytes>, dests: seq<Path>, bufs: seq<Bytes>, calls: seq<seq<Outcome>>,
                             n: nat, d: Path): Option<Bytes>
    requires n <= |dests| && |bufs| == |dests| && |calls| == |dests|
    requires forall i | 0 <= i < |calls| :: |calls[i]| == STORE_CALLS
  {
    if n == 0 then origin
    else
      var before := AfterStores(origin, dests, bufs, calls, n - 1, d);
      if dests[n - 1] == d && (before.None? || calls[n - 1][0].Fail?) then Some(bufs[n - 1]) else before
  }

  /** What the `i`-th store of a batch reports: earlier stores may have put its block in place. */
  ghost function StoreErrnoAt(names: map<Path, nat>, inodes: seq<Bytes>, tmps: seq<Path>, dests: seq<Path>,
                              bufs: seq<Bytes>, calls: seq<seq<Outcome>>, i: nat): nat
    requires i < |dests| == |tmps| == |bufs| == |calls|
    requires forall k | 0 <= k < |calls| :: |calls[k]| == STORE_CALLS
    requires forall q | q in names :: names[q] < |inodes|
  {
    StoreErrno(AfterStores(Content(names, inodes, dests[i]), dests, bufs, calls, i, dests[i]).Some?,
               tmps[i] in names, |bufs[i]|, calls[i])
  }

  /** Stores blocks until one fails; the blocks before the failure are in place, the rest untouched. */
  method BatchStore(disk: Disk, tmps: seq<Path>, dests: seq<Path>, bufs: seq<Bytes>, calls: seq<seq<Outcome>>)
    returns (r: BatchResult)
    requires disk.Valid()
    requires |calls| == |tmps| && forall i | 0 <= i < |calls| :: |calls[i]| == STORE_CALLS
    requires forall i, j | 0 <= i < |tmps| && 0 <= j < |dests| :: tmps[i] != dests[j]
    modifies disk
    ensures disk.Valid()
    ensures r.LengthMismatch? <==> |dests| != |tmps| || |bufs| != |tmps|
    ensures r.LengthMismatch? ==> disk.names == old(disk.names) && disk.inodes == old(disk.inodes)
    ensures r.FailedAt? ==>
              || (exists i :: 0 <= i < |calls| && !AllOk(calls[i]))
              || exists i :: 0 <= i < |tmps| && old(disk.Has(tmps[i]))
    ensures !r.LengthMismatch? ==>
              var done := if r.FailedAt? then r.index else |dests|;
              && done <= |dests| && (r.FailedAt? ==> done < |dests|)
              && (forall i | 0 <= i < done ::
                  StoreErrnoAt(old(disk.names), old(disk.inodes), tmps, dests, bufs, calls, i) == 0)
              && (r.FailedAt? ==>
                  r.errno == StoreErrnoAt(old(disk.names), old(disk.inodes), tmps, dests, bufs, calls, done))
              && forall d | d !in tmps ::
                  Content(disk.names, disk.inodes, d) ==
                  AfterStores(Content(old(disk.names), old(disk.inodes), d), dests, bufs, calls, done, d)
  {
    if |dests| != |tmps| || |bufs| != |tmps| {
      return LengthMismatch;
    }
    ghost var n0, i0 := disk.names, disk.inodes;
    var i := 0;
    while i < |tmps|
      invariant i <= |tmps| && disk.Valid()
      invariant forall d | d !in tmps ::
          Content(disk.names, disk.inodes, d) ==
          AfterStores(Content(n0, i0, d), dests, bufs, calls, i, d)
      invariant forall k | 0 <= k < |tmps| :: tmps[k] in disk.names <==> tmps[k] in n0
      invariant forall k | 0 <= k < i :: StoreErrnoAt(n0, i0, tmps, dests, bufs, calls, k) == 0
    {
      ghost var n1, i1 := disk.names, disk.inodes;
      assert dests[i] in n1 <==> Content(n1, i1, dests[i]).Some?;
      assert dests[i] !in tmps;
      label Before:
      var err := StoreBlock(disk, tmps[i], dests[i], bufs[i], calls[i]);
      forall d | d !in tmps
        ensures Content(disk.names, disk.inodes, d) ==
                if err == 0 && dests[i] == d && (Content(n1, i1, d).None? || calls[i][0].Fail?) then Some(bufs[i])
                else Content(n1, i1, d)
      {
        assert OthersKept@Before(disk, tmps[i], dests[i], err == 0);
        assert disk.Has(d) <==> d in disk.names;
        assert tmps[i] in tmps;
      }
      forall k | 0 <= k < |tmps| && err == 0 ensures tmps[k] in disk.names <==> tmps[k] in n1 {
        assert OthersKept@Before(disk, tmps[i], dests[i], err == 0);
        assert disk.Has(tmps[k]) <==> tmps[k] in disk.names;
      }
      if err != 0 {
        return FailedAt(i, err);
      }
      i := i + 1;
    }
    return Completed;
  }

  /** When existence checks do not fail, the first writer of a new block wins and old blocks stay. */
  lemma {:induction false} FirstWriterWins(
    origin: Option<Bytes>, dests: seq<Path>, bufs: seq<Bytes>, calls: seq<seq<Outcome>>, n: nat, d: Path, k: nat)
    requires n <= |dests| && |bufs| == |dests| && |calls| == |dests|
    requires forall i | 0 <= i < |calls| :: |calls[i]| == STORE_CALLS && !calls[i][0].Fail?
    requires k < n ==> dests[k] == d
    requires forall i | 0 <= i < k && i < n :: dests[i] != d
    ensures AfterStores(origin, dests, bufs, calls, n, d) ==
            if origin.Some? then origin else if k < n then Some(bufs[k]) else None
  {
    if n > 0 { FirstWriterWins(origin, dests, bufs, calls, n - 1, d, k); }
  }

  /** When the name determines the block, every stored name holds exactly that block. */
  lemma {:induction false} DeterminedStores(
    origin: Option<Bytes>, dests: seq<Path>, bufs: seq<Bytes>, calls: seq<seq<Outcome>>, n: nat, d: Path, block: Bytes)
    requires n <= |dests| && |bufs| == |dests| && |calls| == |dests|
    requires forall i | 0 <= i < |calls| :: |calls[i]| == STORE_CALLS
    requires origin.Some? ==> origin.value == block
    requires forall i | 0 <= i < n && dests[i] == d :: bufs[i] == block
    ensures var after := AfterStores(origin, dests, bufs, calls, n, d);
            && (after.Some? ==> after.value == block)
            && (after.Some? <==> origin.Some? || exists i :: 0 <= i < n && dests[i] == d)
  {
    if n > 0 {
      DeterminedStores(origin, dests, bufs, calls, n - 1, d, block);
      assert dests[n - 1] == d ==> exists i :: 0 <= i < n && dests[i] == d;
    }
  }

  /** A batch store followed by a batch load of the same names returns the stored bytes. */
  method StoreThenLoad(disk: Disk, tmps: seq<Path>, dests: seq<Path>, bufs: seq<Bytes>, dsts: seq<array<bv8>>,
                       stores: seq<seq<Outcome>>, loads: seq<seq<Outcome>>)
    returns (stored: BatchResult, loaded: BatchResult)
    requires disk.Valid()
    requires |dests| == |tmps| && |bufs| == |tmps| && |dsts| == |tmps| && |stores| == |tmps| && |loads| == |tmps|
    requires forall i | 0 <= i < |stores| :: |stores[i]| == STORE_CALLS
    requires forall i | 0 <= i < |loads| :: |loads[i]| == LOAD_CALLS
    requires forall i, j | 0 <= i < |tmps| && 0 <= j < |dests| :: tmps[i] != dests[j]
    requires forall i, j | 0 <= i < j < |dsts| :: dsts[i] != dsts[j]
    requires forall i | 0 <= i < |dsts| :: dsts[i].Length == |bufs[i]|
    requires forall i, j | 0 <= i < |dests| && 0 <= j < |dests| && dests[i] == dests[j] :: bufs[i] == bufs[j]
    requires forall i | 0 <= i < |dests| && disk.Has(dests[i]) :: disk.Held(dests[i]) == bufs[i]
    modifies disk, dsts
    ensures disk.Valid()
    ensures stored.Completed? ==> !loaded.LengthMismatch?
    ensures stored.Completed? ==>
              forall i | 0 <= i < |dsts| && (loaded.FailedAt? ==> i < loaded.index) :: dsts[i][..] == bufs[i]
    ensures stored.Completed? && (forall i | 0 <= i < |loads| :: loads[i][0].Ok? && loads[i][1].Ok?) ==>
              loaded.Completed?
  {
    ghost var n0, i0 := disk.names, disk.inodes;
    stored := BatchStore(disk, tmps, dests, bufs, stores);
    ghost var n1, i1 := disk.names, disk.inodes;
    forall i | 0 <= i < |dests| && stored.Completed?
      ensures dests[i] in n1 && i1[n1[dests[i]]] == bufs[i]
    {
      DeterminedStores(Content(n0, i0, dests[i]), dests, bufs, stores, |dests|, dests[i], bufs[i]);
    }
    loaded := BatchLoad(disk, dests, dsts, loads);
  }

  /** One existence flag per path; an access call that fails reads as absent. */
  method BatchLookup(disk: Disk, paths: seq<Path>, calls: seq<Outcome>, flags: array<int>)
    requires |calls| == |paths| && flags.Length == |paths|
    modifies flags
    ensures forall i | 0 <= i < |paths| :: flags[i] == if disk.Has(paths[i]) && !calls[i].Fail? then 1 else 0
  {
    for i := 0 to |paths|
      invariant forall j | 0 <= j < i :: flags[j] == if disk.Has(paths[j]) && !calls[j].Fail? then 1 else 0
    {
      flags[i] := if paths[i] in disk.names && !calls[i].Fail? then 1 else 0;
    }
  }
}
