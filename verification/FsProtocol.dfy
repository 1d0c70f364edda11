/**
 Concurrent block stores and loads over one shared file system. Every system call is one atomic
 step of one job, and any step may fail. A run is any sequence of steps of any jobs.
 */
module FsProtocol {
  type Bytes = seq<bv8>
  type Path = string
  type Errno = e: nat | e > 0 witness 1

  datatype Job =
    | Store(tmp: Path, dest: Path, data: Bytes)
    | Load(src: Path, size: nat)

  /** The next system call of a job, with the open file it works on. */
  datatype Phase =
    | Access | MakeDirs | Create
    | Write(ino: nat) | Close(ino: nat) | Rename(ino: nat)
    | AbortClose(ino: nat, errno: Errno) | AbortUnlink(ino: nat, errno: Errno)
    | Open | Read(ino: nat)
    | CloseFailed(errno: Errno) | CloseShort | UnlinkShort | CloseFull(buf: Bytes)
    | Done(result: nat, buf: Bytes)

  /** How a system call ends: as hoped, with an errno, or after fewer bytes than asked for. */
  datatype Outcome = Ok | Fail(errno: Errno) | Short(count: nat)

  datatype Effect = Effect(names: map<Path, nat>, inodes: seq<Bytes>, phase: Phase)

  const ENOENT: Errno := 2
  const EIO: Errno := 5
  const EBADF: Errno := 9
  const EEXIST: Errno := 17

  /** What a file holds after `d` is written at its start. */
  function Overwrite(was: Bytes, d: Bytes): Bytes { if |d| <= |was| then d + was[|d|..] else d }

  function StoreNext(job: Job, names: map<Path, nat>, inodes: seq<Bytes>, phase: Phase, c: Outcome): Effect
    requires job.Store?
  {
    match phase
    case Access =>
      Effect(names, inodes, if job.dest in names && !c.Fail? then Done(0, []) else MakeDirs)
    case MakeDirs =>
      Effect(names, inodes, if c.Fail? then Done(c.errno, []) else Create)
    case Create =>
      if c.Fail? then Effect(names, inodes, Done(c.errno, []))
      else if job.tmp in names then Effect(names, inodes, Done(EEXIST, []))
      else Effect(names[job.tmp := |inodes|], inodes + [[]], Write(|inodes|))
    case Write(ino) =>
      if c.Fail? then Effect(names, inodes, AbortClose(ino, c.errno))
      else if ino >= |inodes| then Effect(names, inodes, AbortClose(ino, EBADF))
      else if c.Short? && c.count < |job.data| then
        Effect(names, inodes[ino := Overwrite(inodes[ino], job.data[..c.count])], AbortClose(ino, EIO))
      else Effect(names, inodes[ino := Overwrite(inodes[ino], job.data)], Close(ino))
    case Close(ino) =>
      Effect(names, inodes, if c.Fail? then AbortUnlink(ino, c.errno) else Rename(ino))
    case Rename(ino) =>
      if c.Fail? then Effect(names, inodes, AbortUnlink(ino, c.errno))
      else if job.tmp !in names then Effect(names, inodes, AbortUnlink(ino, ENOENT))
      else Effect((names - {job.tmp})[job.dest := names[job.tmp]], inodes, Done(0, []))
    case AbortClose(ino, err) => Effect(names, inodes, AbortUnlink(ino, err))
    case AbortUnlink(ino, err) =>
      Effect(if c.Fail? then names else names - {job.tmp}, inodes, Done(err, []))
    case _ => Effect(names, inodes, phase)
  }

  /** The bytes one read call delivers: everything up to `size`, or fewer when it is cut short. */
  function Delivered(content: Bytes, size: nat, c: Outcome): Bytes {
    var n := if |content| < size then |content| else size;
    if c.Short? && c.count < n then content[..c.count] else content[..n]
  }

  function LoadNext(job: Job, names: map<Path, nat>, inodes: seq<Bytes>, phase: Phase, c: Outcome): Effect
    requires job.Load?
  {
    match phase
    case Open =>
      if c.Fail? then Effect(names, inodes, Done(c.errno, []))
      else if job.src !in names then Effect(names, inodes, Done(ENOENT, []))
      else Effect(names, inodes, Read(names[job.src]))
    case Read(ino) =>
      if c.Fail? then Effect(names, inodes, CloseFailed(c.errno))
      else if ino >= |inodes| then Effect(names, inodes, CloseFailed(EBADF))
      else
        var got := Delivered(inodes[ino], job.size, c);
        Effect(names, inodes, if |got| < job.size then CloseShort else CloseFull(got))
    case CloseFailed(err) => Effect(names, inodes, Done(err, []))
    case CloseShort => Effect(names, inodes, UnlinkShort)
    case UnlinkShort => Effect(if c.Fail? then names else names - {job.src}, inodes, Done(EIO, []))
    case CloseFull(buf) => Effect(names, inodes, Done(0, buf))
    case _ => Effect(names, inodes, phase)
  }

  datatype State = State(names: map<Path, nat>, inodes: seq<Bytes>, phases: seq<Phase>)

  datatype Event = Event(job: nat, outcome: Outcome)

  function StepOf(job: Job, names: map<Path, nat>, inodes: seq<Bytes>, phase: Phase, c: Outcome): Effect {
    if job.Store? then StoreNext(job, names, inodes, phase, c) else LoadNext(job, names, inodes, phase, c)
  }

  function Next(jobs: seq<Job>, s: State, e: Event): (s': State)
    requires |s.phases| == |jobs|
    ensures |s'.phases| == |jobs|
  {
    if e.job >= |jobs| then s
    else
      var f := StepOf(jobs[e.job], s.names, s.inodes, s.phases[e.job], e.outcome);
      State(f.names, f.inodes, s.phases[e.job := f.phase])
  }

  function Run(jobs: seq<Job>, s: State, es: seq<Event>): (s': State)
    requires |s.phases| == |jobs|
    ensures |s'.phases| == |jobs|
    decreases |es|
  {
    if es == [] then s else Run(jobs, Next(jobs, s, es[0]), es[1..])
  }

  // ----- what a run starts from and what it keeps

  predicate Stores(job: Job, p: Path, content: Bytes) { job.Store? && job.dest == p && job.data == content }

  /** The blocks a path may hold: what it held at the start, or one store's whole buffer. */
  ghost predicate Candidate(jobs: seq<Job>, origin: map<Path, Bytes>, p: Path, content: Bytes) {
    || (p in origin && origin[p] == content)
    || exists k :: 0 <= k < |jobs| && Stores(jobs[k], p, content)
  }

  predicate IsTemp(jobs: seq<Job>, p: Path) {
    exists k :: 0 <= k < |jobs| && jobs[k].Store? && jobs[k].tmp == p
  }

  function Block(job: Job): Path { if job.Store? then job.dest else job.src }

  function Wanted(job: Job): nat { if job.Store? then |job.data| else job.size }

  /** Temporary names are never block names, and each block name has one size. */
  ghost predicate WellNamed(jobs: seq<Job>, origin: map<Path, Bytes>, size: Path -> nat) {
    && (forall k | 0 <= k < |jobs| :: !IsTemp(jobs, Block(jobs[k])) && Wanted(jobs[k]) == size(Block(jobs[k])))
    && (forall p | p in origin && !IsTemp(jobs, p) :: |origin[p]| == size(p))
  }

  /** A store holds its temporary file from creation to rename or unlink. */
  predicate Owns(job: Job, ph: Phase) {
    job.Store? && (ph.Write? || ph.Close? || ph.Rename? || ph.AbortClose? || ph.AbortUnlink?)
  }

  predicate Reads(job: Job, ph: Phase) { job.Load? && ph.Read? }

  /** The file a store owns exists and has no name but the store's temporary one. */
  ghost predicate Sole(tmp: Path, ino: nat, names: map<Path, nat>, inodes: seq<Bytes>) {
    && tmp in names && names[tmp] == ino && ino < |inodes|
    && forall p | p in names && names[p] == ino :: p == tmp
  }

  ghost predicate StoreOk(job: Job, ph: Phase, names: map<Path, nat>, inodes: seq<Bytes>) {
    Owns(job, ph) ==>
      && Sole(job.tmp, ph.ino, names, inodes)
      && (ph.Write? ==> inodes[ph.ino] == [])
      && (ph.Close? || ph.Rename? ==> inodes[ph.ino] == job.data)
  }

  ghost predicate LoadOk(jobs: seq<Job>, origin: map<Path, Bytes>, job: Job, ph: Phase, inodes: seq<Bytes>)
    requires job.Load?
  {
    && (ph.Read? ==> ph.ino < |inodes| && Candidate(jobs, origin, job.src, inodes[ph.ino]))
    && (ph.CloseFull? || (ph.Done? && ph.result == 0) ==> Candidate(jobs, origin, job.src, ph.buf))
  }

  /** What a job may rely on while it waits for its next system call. */
  ghost predicate JobOk(jobs: seq<Job>, origin: map<Path, Bytes>, job: Job, ph: Phase,
                        names: map<Path, nat>, inodes: seq<Bytes>) {
    if job.Store? then StoreOk(job, ph, names, inodes) else LoadOk(jobs, origin, job, ph, inodes)
  }

  /** A file being written is open to no other job. */
  predicate Apart(job: Job, ph: Phase, job': Job, ph': Phase) {
    Owns(job, ph) && (Owns(job', ph') || Reads(job', ph')) ==> ph.ino != ph'.ino
  }

  /** Every block name holds a whole block. */
  ghost predicate NamesOk(jobs: seq<Job>, origin: map<Path, Bytes>, names: map<Path, nat>, inodes: seq<Bytes>) {
    forall p | p in names ::
      && names[p] < |inodes|
      && (IsTemp(jobs, p) || Candidate(jobs, origin, p, inodes[names[p]]))
  }

  ghost predicate Inv(jobs: seq<Job>, origin: map<Path, Bytes>, s: State) {
    && |s.phases| == |jobs|
    && NamesOk(jobs, origin, s.names, s.inodes)
    && (forall i | 0 <= i < |jobs| :: JobOk(jobs, origin, jobs[i], s.phases[i], s.names, s.inodes))
    && (forall i, k | 0 <= i < |jobs| && 0 <= k < |jobs| && i != k ::
        Apart(jobs[i], s.phases[i], jobs[k], s.phases[k]))
  }

  // ----- one step

  /** The read of a load is not cut short. */
  predicate WholeRead(jobs: seq<Job>, s: State, e: Event)
    requires |s.phases| == |jobs|
  {
    e.job < |jobs| && jobs[e.job].Load? && s.phases[e.job].Read? && e.outcome.Short? ==>
      e.outcome.count >= jobs[e.job].size
  }

  /** A step that only moves one job on keeps the invariant if that job's own facts hold. */
  lemma QuietStep(jobs: seq<Job>, origin: map<Path, Bytes>, s: State, i: nat, ph: Phase)
    requires Inv(jobs, origin, s) && i < |jobs|
    requires JobOk(jobs, origin, jobs[i], ph, s.names, s.inodes)
    requires Owns(jobs[i], ph) ==> Owns(jobs[i], s.phases[i]) && s.phases[i].ino == ph.ino
    requires !Reads(jobs[i], ph)
    ensures Inv(jobs, origin, s.(phases := s.phases[i := ph]))
  {
    hide NamesOk, JobOk;
  }

  /** Opening a named block gives a file that no store owns. */
  lemma OpenStep(jobs: seq<Job>, origin: map<Path, Bytes>, s: State, i: nat)
    requires Inv(jobs, origin, s) && i < |jobs| && jobs[i].Load? && !IsTemp(jobs, jobs[i].src)
    requires jobs[i].src in s.names
    ensures Inv(jobs, origin, s.(phases := s.phases[i := Read(s.names[jobs[i].src])]))
  {
    hide Candidate;
    var src, ph := jobs[i].src, Read(s.names[jobs[i].src]);
    forall k | 0 <= k < |jobs| && k != i
      ensures Apart(jobs[k], s.phases[k], jobs[i], ph)
    {
      assert JobOk(jobs, origin, jobs[k], s.phases[k], s.names, s.inodes);
      if Owns(jobs[k], s.phases[k]) { assert jobs[k].tmp != src; }
    }
  }

  /** Creating the temporary file gives a fresh file that only this job knows. */
  lemma CreateStep(jobs: seq<Job>, origin: map<Path, Bytes>, s: State, i: nat)
    requires Inv(jobs, origin, s) && i < |jobs| && jobs[i].Store? && jobs[i].tmp !in s.names
    ensures Inv(jobs, origin,
                State(s.names[jobs[i].tmp := |s.inodes|], s.inodes + [[]], s.phases[i := Write(|s.inodes|)]))
  {
    hide Candidate;
    var n := |s.inodes|;
    var s' := State(s.names[jobs[i].tmp := n], s.inodes + [[]], s.phases[i := Write(n)]);
    assert IsTemp(jobs, jobs[i].tmp);
    forall k | 0 <= k < |jobs|
      ensures JobOk(jobs, origin, jobs[k], s'.phases[k], s'.names, s'.inodes)
      ensures k != i ==> Apart(jobs[k], s'.phases[k], jobs[i], Write(n))
      ensures k != i ==> Apart(jobs[i], Write(n), jobs[k], s'.phases[k])
    {
      assert JobOk(jobs, origin, jobs[k], s.phases[k], s.names, s.inodes);
    }
  }

  /** Writing changes no file that is named as a block or read by another job. */
  lemma WriteStep(jobs: seq<Job>, origin: map<Path, Bytes>, s: State, i: nat, content: Bytes, ph: Phase)
    requires Inv(jobs, origin, s) && i < |jobs| && Owns(jobs[i], s.phases[i])
    requires s.phases[i].ino < |s.inodes|
    requires Owns(jobs[i], ph) && ph.ino == s.phases[i].ino && !ph.Write?
    requires ph.Close? || ph.Rename? ==> content == jobs[i].data
    ensures Inv(jobs, origin, State(s.names, s.inodes[ph.ino := content], s.phases[i := ph]))
  {
    hide Candidate;
    var s' := State(s.names, s.inodes[ph.ino := content], s.phases[i := ph]);
    assert JobOk(jobs, origin, jobs[i], s.phases[i], s.names, s.inodes);
    assert IsTemp(jobs, jobs[i].tmp);
    forall k | 0 <= k < |jobs| && k != i
      ensures JobOk(jobs, origin, jobs[k], s'.phases[k], s'.names, s'.inodes)
    {
      assert JobOk(jobs, origin, jobs[k], s.phases[k], s.names, s.inodes);
      assert Apart(jobs[i], s.phases[i], jobs[k], s.phases[k]);
    }
  }

  /** Unlinking its own temporary file disturbs no other job. */
  lemma DropTemp(jobs: seq<Job>, origin: map<Path, Bytes>, s: State, i: nat, err: Errno)
    requires Inv(jobs, origin, s) && i < |jobs| && Owns(jobs[i], s.phases[i])
    requires forall k | 0 <= k < |jobs| :: !IsTemp(jobs, Block(jobs[k]))
    ensures Inv(jobs, origin, State(s.names - {jobs[i].tmp}, s.inodes, s.phases[i := Done(err, [])]))
  {
    hide Candidate;
    var s' := State(s.names - {jobs[i].tmp}, s.inodes, s.phases[i := Done(err, [])]);
    assert IsTemp(jobs, jobs[i].tmp);
    forall k | 0 <= k < |jobs|
      ensures JobOk(jobs, origin, jobs[k], s'.phases[k], s'.names, s'.inodes)
    {
      assert JobOk(jobs, origin, jobs[k], s.phases[k], s.names, s.inodes);
      if k != i {
        assert Apart(jobs[i], s.phases[i], jobs[k], s.phases[k]);
        assert JobOk(jobs, origin, jobs[i], s.phases[i], s.names, s.inodes);
      }
    }
  }

  /** Renaming replaces a whole block by another whole block of the same name. */
  lemma RenameStep(jobs: seq<Job>, origin: map<Path, Bytes>, s: State, i: nat)
    requires Inv(jobs, origin, s) && i < |jobs| && jobs[i].Store? && s.phases[i].Rename?
    requires forall k | 0 <= k < |jobs| :: !IsTemp(jobs, Block(jobs[k]))
    ensures jobs[i].tmp in s.names
    ensures Inv(jobs, origin, State((s.names - {jobs[i].tmp})[jobs[i].dest := s.names[jobs[i].tmp]],
                                    s.inodes, s.phases[i := Done(0, [])]))
  {
    assert JobOk(jobs, origin, jobs[i], s.phases[i], s.names, s.inodes);
    var job := jobs[i];
    var ino := s.names[job.tmp];
    var s' := State((s.names - {job.tmp})[job.dest := ino], s.inodes, s.phases[i := Done(0, [])]);
    assert Stores(jobs[i], job.dest, s.inodes[ino]);
    assert Candidate(jobs, origin, job.dest, s.inodes[ino]);
    hide Candidate;
    assert !IsTemp(jobs, Block(jobs[i]));
    assert NamesOk(jobs, origin, s'.names, s'.inodes);
    forall k | 0 <= k < |jobs|
      ensures JobOk(jobs, origin, jobs[k], s'.phases[k], s'.names, s'.inodes)
    {
      assert JobOk(jobs, origin, jobs[k], s.phases[k], s.names, s.inodes);
      if k != i {
        assert Apart(jobs[i], s.phases[i], jobs[k], s.phases[k]);
        if Owns(jobs[k], s.phases[k]) { assert IsTemp(jobs, jobs[k].tmp); }
      }
    }
  }

  /** Unlinking a block disturbs no job: a load that has opened it keeps the file. */
  lemma UnlinkStep(jobs: seq<Job>, origin: map<Path, Bytes>, s: State, i: nat, ph: Phase)
    requires Inv(jobs, origin, s) && i < |jobs| && jobs[i].Load? && !IsTemp(jobs, jobs[i].src)
    requires !ph.Read? && !ph.CloseFull? && !(ph.Done? && ph.result == 0)
    ensures Inv(jobs, origin, State(s.names - {jobs[i].src}, s.inodes, s.phases[i := ph]))
  {
    hide Candidate;
    var s' := State(s.names - {jobs[i].src}, s.inodes, s.phases[i := ph]);
    forall k | 0 <= k < |jobs|
      ensures JobOk(jobs, origin, jobs[k], s'.phases[k], s'.names, s'.inodes)
    {
      assert JobOk(jobs, origin, jobs[k], s.phases[k], s.names, s.inodes);
      if Owns(jobs[k], s.phases[k]) { assert IsTemp(jobs, jobs[k].tmp); }
    }
  }

  lemma StoreStep(jobs: seq<Job>, origin: map<Path, Bytes>, s: State, e: Event)
    requires Inv(jobs, origin, s) && e.job < |jobs| && jobs[e.job].Store?
    requires forall k | 0 <= k < |jobs| :: !IsTemp(jobs, Block(jobs[k]))
    ensures Inv(jobs, origin, Next(jobs, s, e))
  {
    hide Candidate, IsTemp, NamesOk, Sole, Inv;
    var i, c := e.job, e.outcome;
    JobFacts(jobs, origin, s, i);
    var job, ph, s' := jobs[i], s.phases[i], Next(jobs, s, e);
    match ph {
      case Create =>
        if !c.Fail? && job.tmp !in s.names { CreateStep(jobs, origin, s, i); }
        else { QuietStep(jobs, origin, s, i, s'.phases[i]); }
      case Write(ino) =>
        if c.Fail? { QuietStep(jobs, origin, s, i, s'.phases[i]); }
        else {
          SoleInside(job.tmp, ino, s.names, s.inodes);
          WriteStep(jobs, origin, s, i, s'.inodes[ino], s'.phases[i]);
        }
      case Rename(ino) =>
        if c.Fail? { QuietStep(jobs, origin, s, i, s'.phases[i]); } else { RenameStep(jobs, origin, s, i); }
      case AbortUnlink(ino, err) =>
        if c.Fail? { QuietStep(jobs, origin, s, i, s'.phases[i]); } else { DropTemp(jobs, origin, s, i, err); }
      case _ =>
        assert s' == s.(phases := s.phases[i := s'.phases[i]]);
        QuietStep(jobs, origin, s, i, s'.phases[i]);
    }
  }

  lemma JobFacts(jobs: seq<Job>, origin: map<Path, Bytes>, s: State, i: nat)
    requires Inv(jobs, origin, s) && i < |jobs|
    ensures |s.phases| == |jobs| && JobOk(jobs, origin, jobs[i], s.phases[i], s.names, s.inodes)
  {
  }

  lemma SoleInside(tmp: Path, ino: nat, names: map<Path, nat>, inodes: seq<Bytes>)
    requires Sole(tmp, ino, names, inodes)
    ensures tmp in names && ino < |inodes|
  {
  }

  /** A block that a name may hold has the size fixed for the name. */
  lemma CandidateSize(jobs: seq<Job>, origin: map<Path, Bytes>, size: Path -> nat, p: Path, content: Bytes)
    requires WellNamed(jobs, origin, size) && Candidate(jobs, origin, p, content) && !IsTemp(jobs, p)
    ensures |content| == size(p)
  {
    if !(p in origin && origin[p] == content) {
      var k :| 0 <= k < |jobs| && Stores(jobs[k], p, content);
      assert Wanted(jobs[k]) == size(Block(jobs[k]));
    }
  }

  /**
   The branch that deletes a block as corrupt is taken if and only if the read call itself was cut
   short: a load never meets a file that is too small.
   */
  lemma ShortReadExactly(jobs: seq<Job>, origin: map<Path, Bytes>, size: Path -> nat, s: State, e: Event)
    requires WellNamed(jobs, origin, size) && Inv(jobs, origin, s) && e.job < |jobs|
    requires jobs[e.job].Load? && s.phases[e.job].Read?
    ensures Next(jobs, s, e).phases[e.job].CloseShort? <==> !WholeRead(jobs, s, e)
    ensures Next(jobs, s, e).phases[e.job].CloseFull? ==>
              Candidate(jobs, origin, jobs[e.job].src, Next(jobs, s, e).phases[e.job].buf)
  {
    hide Candidate, IsTemp, NamesOk, Inv;
    var job := jobs[e.job];
    JobFacts(jobs, origin, s, e.job);
    var content := s.inodes[s.phases[e.job].ino];
    assert !IsTemp(jobs, Block(job)) && Wanted(job) == size(Block(job));
    CandidateSize(jobs, origin, size, job.src, content);
    assert content[..|content|] == content;
  }

  /** Every step of a load keeps the invariant; it removes a name only by the unlink after a cut-short read. */
  lemma LoadStep(jobs: seq<Job>, origin: map<Path, Bytes>, size: Path -> nat, s: State, e: Event)
    requires WellNamed(jobs, origin, size) && Inv(jobs, origin, s) && e.job < |jobs| && jobs[e.job].Load?
    ensures Inv(jobs, origin, Next(jobs, s, e))
    ensures Next(jobs, s, e).names ==
              if s.phases[e.job].UnlinkShort? && !e.outcome.Fail? then s.names - {jobs[e.job].src} else s.names
  {
    hide Candidate, IsTemp, NamesOk, Inv;
    var i, c := e.job, e.outcome;
    JobFacts(jobs, origin, s, i);
    var job, ph, s' := jobs[i], s.phases[i], Next(jobs, s, e);
    assert !IsTemp(jobs, Block(job));
    if ph.Open? && !c.Fail? && job.src in s.names {
      OpenStep(jobs, origin, s, i);
    } else if ph.Read? {
      ShortReadExactly(jobs, origin, size, s, e);
      QuietStep(jobs, origin, s, i, s'.phases[i]);
    } else if ph.UnlinkShort? && !c.Fail? {
      UnlinkStep(jobs, origin, s, i, s'.phases[i]);
    } else {
      QuietStep(jobs, origin, s, i, s'.phases[i]);
    }
  }

  lemma StepKeepsInv(jobs: seq<Job>, origin: map<Path, Bytes>, size: Path -> nat, s: State, e: Event)
    requires WellNamed(jobs, origin, size) && Inv(jobs, origin, s)
    ensures Inv(jobs, origin, Next(jobs, s, e))
  {
    hide Candidate, IsTemp, NamesOk, Inv, StepOf;
    if e.job < |jobs| {
      if jobs[e.job].Store? { StoreStep(jobs, origin, s, e); } else { LoadStep(jobs, origin, size, s, e); }
    }
  }

  // ----- whole runs

  /** All jobs are about to make their first call, over a file system of whole blocks. */
  ghost predicate Start(jobs: seq<Job>, origin: map<Path, Bytes>, s: State) {
    && |s.phases| == |jobs|
    && (forall k | 0 <= k < |jobs| :: s.phases[k] == if jobs[k].Store? then Access else Open)
    && (forall p | p in s.names :: s.names[p] < |s.inodes| && p in origin && origin[p] == s.inodes[s.names[p]])
    && (forall p | p in origin :: p in s.names)
  }

  lemma StartIsInv(jobs: seq<Job>, origin: map<Path, Bytes>, s: State)
    requires Start(jobs, origin, s)
    ensures Inv(jobs, origin, s)
  {
  }

  lemma {:induction false} RunKeepsInv(
    jobs: seq<Job>, origin: map<Path, Bytes>, size: Path -> nat, s: State, es: seq<Event>)
    requires WellNamed(jobs, origin, size) && Inv(jobs, origin, s)
    ensures Inv(jobs, origin, Run(jobs, s, es))
    decreases |es|
  {
    hide Next, NamesOk, JobOk, Apart, WellNamed;
    if es != [] {
      StepKeepsInv(jobs, origin, size, s, es[0]);
      RunKeepsInv(jobs, origin, size, Next(jobs, s, es[0]), es[1..]);
    }
  }

  /**
   In every interleaving of any stores and loads, whatever calls fail or are cut short, a visible block
   is whole: it is what was there at the start or one store's complete buffer. A load that succeeds
   returns such a block, of the size it asked for.
   */
  lemma BlocksAreAlwaysWhole(
    jobs: seq<Job>, origin: map<Path, Bytes>, size: Path -> nat, s: State, es: seq<Event>)
    requires WellNamed(jobs, origin, size) && Start(jobs, origin, s)
    ensures var t := Run(jobs, s, es);
            && (forall p | p in t.names && !IsTemp(jobs, p) ::
                && t.names[p] < |t.inodes|
                && Candidate(jobs, origin, p, t.inodes[t.names[p]])
                && |t.inodes[t.names[p]]| == size(p))
            && (forall k | 0 <= k < |jobs| && jobs[k].Load? && t.phases[k].Done? && t.phases[k].result == 0 ::
                Candidate(jobs, origin, jobs[k].src, t.phases[k].buf) && |t.phases[k].buf| == jobs[k].size)
  {
    hide Candidate, IsTemp, Run;
    StartIsInv(jobs, origin, s);
    RunKeepsInv(jobs, origin, size, s, es);
    var t := Run(jobs, s, es);
    forall p | p in t.names && !IsTemp(jobs, p) ensures |t.inodes[t.names[p]]| == size(p) {
      CandidateSize(jobs, origin, size, p, t.inodes[t.names[p]]);
    }
    forall k | 0 <= k < |jobs| && jobs[k].Load? && t.phases[k].Done? && t.phases[k].result == 0
      ensures Candidate(jobs, origin, jobs[k].src, t.phases[k].buf) && |t.phases[k].buf| == jobs[k].size
    {
      JobFacts(jobs, origin, t, k);
      assert !IsTemp(jobs, Block(jobs[k])) && Wanted(jobs[k]) == size(Block(jobs[k]));
      CandidateSize(jobs, origin, size, jobs[k].src, t.phases[k].buf);
    }
  }

  /** When a name determines its block, every load that succeeds returns exactly that block. */
  lemma LoadsReturnTheBlock(
    jobs: seq<Job>, origin: map<Path, Bytes>, size: Path -> nat, s: State, es: seq<Event>, k: nat, block: Bytes)
    requires WellNamed(jobs, origin, size) && Start(jobs, origin, s)
    requires k < |jobs| && jobs[k].Load?
    requires jobs[k].src in origin ==> origin[jobs[k].src] == block
    requires forall j | 0 <= j < |jobs| && jobs[j].Store? && jobs[j].dest == jobs[k].src :: jobs[j].data == block
    ensures var ph := Run(jobs, s, es).phases[k]; ph.Done? && ph.result == 0 ==> ph.buf == block
  {
    hide IsTemp, Run;
    BlocksAreAlwaysWhole(jobs, origin, size, s, es);
  }

  // ----- blocks whose own loads are not cut short

  /** No load of block `p` has its read cut short in this step. */
  predicate WholeReadAt(jobs: seq<Job>, s: State, e: Event, p: Path)
    requires |s.phases| == |jobs|
  {
    e.job < |jobs| && Block(jobs[e.job]) == p ==> WholeRead(jobs, s, e)
  }

  predicate WholeReadsAt(jobs: seq<Job>, s: State, es: seq<Event>, p: Path)
    requires |s.phases| == |jobs|
    decreases |es|
  {
    es == [] || (WholeReadAt(jobs, s, es[0], p) && WholeReadsAt(jobs, Next(jobs, s, es[0]), es[1..], p))
  }

  /** No load of block `p` is about to delete it. */
  ghost predicate NoneDeletes(jobs: seq<Job>, s: State, p: Path)
    requires |s.phases| == |jobs|
  {
    forall k | 0 <= k < |jobs| && jobs[k].Load? && jobs[k].src == p ::
      !s.phases[k].CloseShort? && !s.phases[k].UnlinkShort?
  }

  /** A store of block `p` that succeeded left it in place. */
  ghost predicate StoredIsVisible(jobs: seq<Job>, s: State, p: Path)
    requires |s.phases| == |jobs|
  {
    forall k | 0 <= k < |jobs| && jobs[k].Store? && jobs[k].dest == p && s.phases[k].Done? && s.phases[k].result == 0 ::
      p in s.names
  }

  lemma StepKeepsVisible(
    jobs: seq<Job>, origin: map<Path, Bytes>, size: Path -> nat, s: State, e: Event, p: Path)
    requires WellNamed(jobs, origin, size) && Inv(jobs, origin, s) && WholeReadAt(jobs, s, e, p) && !IsTemp(jobs, p)
    requires NoneDeletes(jobs, s, p) && StoredIsVisible(jobs, s, p)
    ensures NoneDeletes(jobs, Next(jobs, s, e), p) && StoredIsVisible(jobs, Next(jobs, s, e), p)
    ensures p in s.names ==> p in Next(jobs, s, e).names
  {
    hide Candidate, NamesOk, Inv;
    if e.job < |jobs| {
      JobFacts(jobs, origin, s, e.job);
      var job := jobs[e.job];
      if job.Store? {
        assert p != job.tmp;
      } else {
        LoadStep(jobs, origin, size, s, e);
        if s.phases[e.job].Read? { ShortReadExactly(jobs, origin, size, s, e); }
      }
    }
  }

  /** A visible block stays visible as long as no load of that very block has its read cut short. */
  lemma {:induction false} VisibleStaysVisible(
    jobs: seq<Job>, origin: map<Path, Bytes>, size: Path -> nat, s: State, es: seq<Event>, p: Path)
    requires WellNamed(jobs, origin, size) && Inv(jobs, origin, s) && WholeReadsAt(jobs, s, es, p) && !IsTemp(jobs, p)
    requires NoneDeletes(jobs, s, p) && StoredIsVisible(jobs, s, p)
    ensures NoneDeletes(jobs, Run(jobs, s, es), p) && StoredIsVisible(jobs, Run(jobs, s, es), p)
    ensures p in s.names ==> p in Run(jobs, s, es).names
    decreases |es|
  {
    hide Next, NamesOk, JobOk, Apart, WellNamed, IsTemp, NoneDeletes, StoredIsVisible, WholeReadAt;
    if es != [] {
      StepKeepsInv(jobs, origin, size, s, es[0]);
      StepKeepsVisible(jobs, origin, size, s, es[0], p);
      VisibleStaysVisible(jobs, origin, size, Next(jobs, s, es[0]), es[1..], p);
    }
  }

  /**
   In every interleaving, a block none of whose loads has its read cut short is deleted by nobody,
   stays visible once it is, and is visible once a store of it has succeeded.
   */
  lemma WholeReadsKeepBlocks(
    jobs: seq<Job>, origin: map<Path, Bytes>, size: Path -> nat, s: State, es: seq<Event>, p: Path)
    requires WellNamed(jobs, origin, size) && Start(jobs, origin, s) && WholeReadsAt(jobs, s, es, p) && !IsTemp(jobs, p)
    ensures NoneDeletes(jobs, Run(jobs, s, es), p) && StoredIsVisible(jobs, Run(jobs, s, es), p)
    ensures p in origin ==> p in Run(jobs, s, es).names
  {
    hide Run, WholeReadsAt, WellNamed, IsTemp;
    StartIsInv(jobs, origin, s);
    VisibleStaysVisible(jobs, origin, size, s, es, p);
  }

  // ----- temporary files

  predicate Owned(jobs: seq<Job>, phases: seq<Phase>, p: Path)
    requires |phases| == |jobs|
  {
    exists k :: 0 <= k < |jobs| && Owns(jobs[k], phases[k]) && jobs[k].tmp == p
  }

  /** A temporary name is in use exactly while a store owns it, unless it was there from the start. */
  ghost predicate TempsOk(jobs: seq<Job>, origin: map<Path, Bytes>, s: State)
    requires |s.phases| == |jobs|
  {
    forall p | IsTemp(jobs, p) ::
      if p in origin then p in s.names && !Owned(jobs, s.phases, p)
      else p in s.names <==> Owned(jobs, s.phases, p)
  }

  /** The unlink that cleans up after a failed store succeeds. */
  predicate CleanUnlink(jobs: seq<Job>, s: State, e: Event)
    requires |s.phases| == |jobs|
  {
    e.job < |jobs| && jobs[e.job].Store? && s.phases[e.job].AbortUnlink? ==> !e.outcome.Fail?
  }

  predicate CleanUnlinks(jobs: seq<Job>, s: State, es: seq<Event>)
    requires |s.phases| == |jobs|
    decreases |es|
  {
    es == [] || (CleanUnlink(jobs, s, es[0]) && CleanUnlinks(jobs, Next(jobs, s, es[0]), es[1..]))
  }

  /** Which temporary names are owned changes only at the name of the job that moves. */
  lemma OwnedElsewhere(jobs: seq<Job>, s: State, i: nat, ph: Phase, p: Path)
    requires |s.phases| == |jobs| && i < |jobs|
    requires jobs[i].Load? || jobs[i].tmp != p || Owns(jobs[i], s.phases[i]) == Owns(jobs[i], ph)
    ensures Owned(jobs, s.phases[i := ph], p) == Owned(jobs, s.phases, p)
  {
    var phases := s.phases[i := ph];
    if Owned(jobs, s.phases, p) {
      var k :| 0 <= k < |jobs| && Owns(jobs[k], s.phases[k]) && jobs[k].tmp == p;
      assert Owns(jobs[k], phases[k]);
    }
  }

  /** Temporary names are never block names. */
  ghost predicate TempsApart(jobs: seq<Job>) { forall k | 0 <= k < |jobs| :: !IsTemp(jobs, Block(jobs[k])) }

  /** A store's temporary name leads to its own file, whatever the loads do. */
  predicate OwnsFile(job: Job, ph: Phase, names: map<Path, nat>, inodes: seq<Bytes>) {
    Owns(job, ph) ==> job.tmp in names && names[job.tmp] == ph.ino && ph.ino < |inodes|
  }

  predicate OwnApart(job: Job, ph: Phase, job': Job, ph': Phase) {
    Owns(job, ph) && Owns(job', ph') ==> ph.ino != ph'.ino
  }

  ghost predicate OwnInv(jobs: seq<Job>, s: State) {
    && |s.phases| == |jobs|
    && (forall i | 0 <= i < |jobs| :: OwnsFile(jobs[i], s.phases[i], s.names, s.inodes))
    && (forall i, k | 0 <= i < |jobs| && 0 <= k < |jobs| && i != k ::
        OwnApart(jobs[i], s.phases[i], jobs[k], s.phases[k]))
  }

  /** A step keeps ownership: it moves one job on, and changes no other store's temporary name. */
  lemma OwnStep(jobs: seq<Job>, s: State, s': State, i: nat)
    requires OwnInv(jobs, s) && i < |jobs| && |s'.phases| == |jobs| && |s.inodes| <= |s'.inodes|
    requires forall k | 0 <= k < |jobs| && k != i :: s'.phases[k] == s.phases[k]
    requires OwnsFile(jobs[i], s'.phases[i], s'.names, s'.inodes)
    requires Owns(jobs[i], s'.phases[i]) ==>
               (Owns(jobs[i], s.phases[i]) && s'.phases[i].ino == s.phases[i].ino) || s'.phases[i].ino == |s.inodes|
    requires forall k | 0 <= k < |jobs| && k != i && Owns(jobs[k], s.phases[k]) ::
               jobs[k].tmp in s'.names && s'.names[jobs[k].tmp] == s.names[jobs[k].tmp]
    ensures OwnInv(jobs, s')
  {
    forall k | 0 <= k < |jobs| ensures OwnsFile(jobs[k], s'.phases[k], s'.names, s'.inodes) {
      assert OwnsFile(jobs[k], s.phases[k], s.names, s.inodes);
    }
    forall j, k | 0 <= j < |jobs| && 0 <= k < |jobs| && j != k
      ensures OwnApart(jobs[j], s'.phases[j], jobs[k], s'.phases[k])
    {
      assert OwnApart(jobs[j], s.phases[j], jobs[k], s.phases[k]);
      assert OwnsFile(jobs[j], s.phases[j], s.names, s.inodes) && OwnsFile(jobs[k], s.phases[k], s.names, s.inodes);
    }
  }

  lemma StepKeepsOwn(jobs: seq<Job>, s: State, e: Event)
    requires TempsApart(jobs) && OwnInv(jobs, s)
    ensures OwnInv(jobs, Next(jobs, s, e))
  {
    hide IsTemp;
    if e.job < |jobs| {
      var i, s' := e.job, Next(jobs, s, e);
      var job, ph := jobs[i], s.phases[i];
      assert OwnsFile(job, ph, s.names, s.inodes) && !IsTemp(jobs, Block(job));
      forall k | 0 <= k < |jobs| && k != i && Owns(jobs[k], s.phases[k])
        ensures jobs[k].tmp in s'.names && s'.names[jobs[k].tmp] == s.names[jobs[k].tmp]
      {
        assert OwnsFile(jobs[k], s.phases[k], s.names, s.inodes);
        assert OwnApart(job, ph, jobs[k], s.phases[k]);
        TempIs(jobs, k);
      }
      OwnStep(jobs, s, s', i);
    }
  }

  lemma TempIs(jobs: seq<Job>, k: nat)
    requires k < |jobs| && jobs[k].Store?
    ensures IsTemp(jobs, jobs[k].tmp)
  {
  }

  lemma SoleOwner(jobs: seq<Job>, s: State, i: nat, ph: Phase)
    requires OwnInv(jobs, s) && i < |jobs| && Owns(jobs[i], s.phases[i]) && !Owns(jobs[i], ph)
    ensures !Owned(jobs, s.phases[i := ph], jobs[i].tmp)
  {
    var phases := s.phases[i := ph];
    assert OwnsFile(jobs[i], s.phases[i], s.names, s.inodes);
    forall k | 0 <= k < |jobs| && Owns(jobs[k], phases[k]) ensures jobs[k].tmp != jobs[i].tmp {
      assert OwnApart(jobs[i], s.phases[i], jobs[k], s.phases[k]);
      assert OwnsFile(jobs[k], s.phases[k], s.names, s.inodes);
    }
  }

  lemma StepKeepsTemps(jobs: seq<Job>, origin: map<Path, Bytes>, s: State, e: Event)
    requires TempsApart(jobs) && OwnInv(jobs, s) && TempsOk(jobs, origin, s) && CleanUnlink(jobs, s, e)
    ensures TempsOk(jobs, origin, Next(jobs, s, e))
  {
    if e.job < |jobs| {
      var s' := Next(jobs, s, e);
      forall p | IsTemp(jobs, p)
        ensures if p in origin then p in s'.names && !Owned(jobs, s'.phases, p)
                else p in s'.names <==> Owned(jobs, s'.phases, p)
      {
        StepKeepsTemp(jobs, origin, s, e, p);
      }
    }
  }

  lemma StepKeepsTemp(jobs: seq<Job>, origin: map<Path, Bytes>, s: State, e: Event, p: Path)
    requires TempsApart(jobs) && OwnInv(jobs, s) && e.job < |jobs| && IsTemp(jobs, p)
    requires if p in origin then p in s.names && !Owned(jobs, s.phases, p)
             else p in s.names <==> Owned(jobs, s.phases, p)
    requires CleanUnlink(jobs, s, e)
    ensures var s' := Next(jobs, s, e);
            if p in origin then p in s'.names && !Owned(jobs, s'.phases, p)
            else p in s'.names <==> Owned(jobs, s'.phases, p)
  {
    hide IsTemp, OwnsFile, OwnApart, Owned;
    var i, s' := e.job, Next(jobs, s, e);
    var job, ph := jobs[i], s.phases[i];
    assert !IsTemp(jobs, Block(job));
    if job.Load? {
      OwnedElsewhere(jobs, s, i, s'.phases[i], p);
    } else if job.tmp != p || Owns(job, ph) == Owns(job, s'.phases[i]) {
      OwnedElsewhere(jobs, s, i, s'.phases[i], p);
      if job.tmp == p { OwnerKeepsName(jobs, s, e); }
    } else if Owns(job, ph) {
      OwnedNow(jobs, s.phases, i);
      SoleOwner(jobs, s, i, s'.phases[i]);
    } else {
      OwnedNow(jobs, s'.phases, i);
    }
  }

  lemma OwnedNow(jobs: seq<Job>, phases: seq<Phase>, i: nat)
    requires |phases| == |jobs| && i < |jobs| && Owns(jobs[i], phases[i])
    ensures Owned(jobs, phases, jobs[i].tmp)
  {
  }

  /** A store that neither takes nor gives up its file leaves the temporary name alone. */
  lemma OwnerKeepsName(jobs: seq<Job>, s: State, e: Event)
    requires |s.phases| == |jobs| && e.job < |jobs| && jobs[e.job].Store? && jobs[e.job].tmp != jobs[e.job].dest
    requires Owns(jobs[e.job], s.phases[e.job]) == Owns(jobs[e.job], Next(jobs, s, e).phases[e.job])
    ensures jobs[e.job].tmp in Next(jobs, s, e).names <==> jobs[e.job].tmp in s.names
  {
  }

  lemma {:induction false} RunKeepsTemps(jobs: seq<Job>, origin: map<Path, Bytes>, s: State, es: seq<Event>)
    requires TempsApart(jobs) && OwnInv(jobs, s) && TempsOk(jobs, origin, s) && CleanUnlinks(jobs, s, es)
    ensures TempsOk(jobs, origin, Run(jobs, s, es))
    decreases |es|
  {
    hide Next, OwnsFile, OwnApart, TempsApart, TempsOk;
    if es != [] {
      StepKeepsOwn(jobs, s, es[0]);
      StepKeepsTemps(jobs, origin, s, es[0]);
      RunKeepsTemps(jobs, origin, Next(jobs, s, es[0]), es[1..]);
    }
  }

  /**
   When no store is in flight, the only temporary files are those that were there at the start. This
   needs only that temporary names are not block names and that the clean-up calls work.
   */
  lemma NoTempsRemain(jobs: seq<Job>, origin: map<Path, Bytes>, s: State, es: seq<Event>, p: Path)
    requires TempsApart(jobs) && Start(jobs, origin, s) && CleanUnlinks(jobs, s, es) && IsTemp(jobs, p)
    requires forall k | 0 <= k < |jobs| :: !Owns(jobs[k], Run(jobs, s, es).phases[k])
    ensures p in Run(jobs, s, es).names <==> p in origin
  {
    hide Next, Run, CleanUnlinks, TempsApart;
    RunKeepsTemps(jobs, origin, s, es);
  }

  /**
   The size assumption on read is needed: a load whose read call is cut short deletes a block that
   is whole.
   */
  lemma CutReadDeletesWholeBlock()
    ensures var jobs := [Load("b", 1)];
            var s := State(map["b" := 0], [[7]], [Open]);
            && Start(jobs, map["b" := [7]], s)
            && WellNamed(jobs, map["b" := [7]], p => 1)
            && "b" !in Run(jobs, s, [Event(0, Ok), Event(0, Short(0)), Event(0, Ok), Event(0, Ok)]).names
  {
    var jobs := [Load("b", 1)];
    var s := State(map["b" := 0], [[7]], [Open]);
    var s1 := Next(jobs, s, Event(0, Ok));
    var s2 := Next(jobs, s1, Event(0, Short(0)));
    assert s2.phases[0] == CloseShort;
    var s3 := Next(jobs, s2, Event(0, Ok));
    var s4 := Next(jobs, s3, Event(0, Ok));
    assert Run(jobs, s3, [Event(0, Ok)]) == s4;
    assert Run(jobs, s2, [Event(0, Ok), Event(0, Ok)]) == s4;
    assert Run(jobs, s1, [Event(0, Short(0)), Event(0, Ok), Event(0, Ok)]) == s4;
  }
}
