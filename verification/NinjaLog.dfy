/**
 Reading a build log: records are grouped by command hash, and a record that cannot belong to the
 same build as the ones before it throws those away.
 */
module NinjaLog {
  import opened Prelude

  /** A target is one command: its times and the outputs it produced, in log order. */
  datatype Target = Target(hash: string, start: real, end: real, names: seq<string>)

  datatype Log = Log(targets: seq<Target>, lastEnd: real)

  datatype Result = UnknownVersion | BadNumber | Targets(targets: seq<Target>)

  const HEADER := "# ninja log v5\n"

  /** The tab-separated fields of a line, with white space at both ends removed. */
  type Line = seq<string>

  /** The position of a hash among the targets, or -1. */
  function Find(targets: seq<Target>, hash: string): (k: int)
    ensures -1 <= k < |targets|
    ensures k >= 0 ==> targets[k].hash == hash
    ensures k < 0 ==> forall i | 0 <= i < |targets| :: targets[i].hash != hash
  {
    if targets == [] then -1
    else
      var last := |targets| - 1;
      if targets[last].hash == hash then last else Find(targets[..last], hash)
  }

  /** A record belongs to a new build: time went backwards, or a known command has other times. */
  predicate Resets(log: Log, hash: string, start: real, end: real) {
    || end < log.lastEnd
    || (var k := Find(log.targets, hash); k >= 0 && (log.targets[k].start != start || log.targets[k].end != end))
  }

  function AddName(targets: seq<Target>, hash: string, start: real, end: real, name: string): seq<Target> {
    var k := Find(targets, hash);
    if k < 0 then targets + [Target(hash, start, end, [name])]
    else targets[k := targets[k].(names := targets[k].names + [name])]
  }

  function Seconds(millis: int): real { millis as real / 1000.0 }

  /** The time a field records, in seconds. */
  function Time(field: string, toInt: string -> Option<int>): real {
    if toInt(field).Some? then Seconds(toInt(field).value) else 0.0
  }

  /** One line; `None` when a number does not parse. */
  function Record(line: Line, showAll: bool, toInt: string -> Option<int>, log: Log): Option<Log> {
    if |line| != 5 then Some(log)
    else if toInt(line[0]).None? || toInt(line[1]).None? then None
    else
      var start, end := Seconds(toInt(line[0]).value), Seconds(toInt(line[1]).value);
      var kept := if !showAll && Resets(log, line[4], start, end) then [] else log.targets;
      Some(Log(AddName(kept, line[4], start, end, line[3]), end))
  }

  /** The state after lines `k` to `n - 1`, starting afresh at line `k`. */
  function Records(lines: seq<Line>, showAll: bool, toInt: string -> Option<int>, k: nat, n: nat): Option<Log>
    requires k <= n <= |lines|
  {
    if n == k then Some(Log([], 0.0))
    else
      var before := Records(lines, showAll, toInt, k, n - 1);
      if before.None? then None else Record(lines[n - 1], showAll, toInt, before.value)
  }

  /** The loop over the lines, with the dictionary as a list in insertion order. */
  method ReadTargets(header: string, lines: seq<Line>, showAll: bool, toInt: string -> Option<int>)
    returns (r: Result)
    ensures r == if header != HEADER then UnknownVersion
                 else match Records(lines, showAll, toInt, 0, |lines|)
                      case None => BadNumber
                      case Some(log) => Targets(log.targets)
  {
    if header != HEADER {
      return UnknownVersion;
    }
    var targets: seq<Target> := [];
    var lastEndSeen := 0.0;
    for n := 0 to |lines|
      invariant Records(lines, showAll, toInt, 0, n) == Some(Log(targets, lastEndSeen))
    {
      var parts := lines[n];
      if |parts| == 5 {
        var startMillis, endMillis := toInt(parts[0]), toInt(parts[1]);
        if startMillis.None? || endMillis.None? {
          BadLineStays(lines, showAll, toInt, n + 1);
          return BadNumber;
        }
        var start, end := Seconds(startMillis.value), Seconds(endMillis.value);
        if !showAll && end < lastEndSeen {
          targets := [];
        }
        var k := Find(targets, parts[4]);
        if k >= 0 && !showAll && (targets[k].start != start || targets[k].end != end) {
          targets := [];
          k := -1;
        }
        ghost var kept := targets;
        if k < 0 {
          targets := targets + [Target(parts[4], start, end, [])];
          k := |targets| - 1;
        }
        lastEndSeen := end;
        assert targets[k].names == [] ==> targets[k].names + [parts[3]] == [parts[3]];
        targets := targets[k := targets[k].(names := targets[k].names + [parts[3]])];
        assert targets == AddName(kept, parts[4], start, end, parts[3]);
      }
    }
    return Targets(targets);
  }

  lemma {:induction false} BadLineStays(lines: seq<Line>, showAll: bool, toInt: string -> Option<int>, n: nat)
    requires n <= |lines| && Records(lines, showAll, toInt, 0, n) == None
    ensures Records(lines, showAll, toInt, 0, |lines|) == None
    decreases |lines| - n
  {
    if n < |lines| { BadLineStays(lines, showAll, toInt, n + 1); }
  }

  // ----- what a target list looks like

  predicate DistinctHashes(targets: seq<Target>) {
    forall i, j | 0 <= i < j < |targets| :: targets[i].hash != targets[j].hash
  }

  predicate NamesPresent(targets: seq<Target>) { forall i | 0 <= i < |targets| :: targets[i].names != [] }

  predicate EndsOrdered(targets: seq<Target>, last: real) {
    && (forall i, j | 0 <= i < j < |targets| :: targets[i].end <= targets[j].end)
    && (forall i | 0 <= i < |targets| :: targets[i].end <= last)
  }

  lemma AddNameKeeps(targets: seq<Target>, hash: string, start: real, end: real, name: string)
    requires DistinctHashes(targets) && NamesPresent(targets)
    ensures DistinctHashes(AddName(targets, hash, start, end, name))
    ensures NamesPresent(AddName(targets, hash, start, end, name))
    ensures EndsOrdered(targets, end) ==> EndsOrdered(AddName(targets, hash, start, end, name), end)
  {
  }

  /** Distinct hashes and non-empty name lists always; ends in order when old builds are dropped. */
  lemma {:induction false} TargetsWellFormed(
    lines: seq<Line>, showAll: bool, toInt: string -> Option<int>, k: nat, n: nat)
    requires k <= n <= |lines| && Records(lines, showAll, toInt, k, n).Some?
    ensures var log := Records(lines, showAll, toInt, k, n).value;
            && DistinctHashes(log.targets) && NamesPresent(log.targets)
            && (!showAll ==> EndsOrdered(log.targets, log.lastEnd))
  {
    hide AddName, Seconds;
    if n > k {
      TargetsWellFormed(lines, showAll, toInt, k, n - 1);
      var before, line := Records(lines, showAll, toInt, k, n - 1).value, lines[n - 1];
      if |line| == 5 {
        var start, end := Seconds(toInt(line[0]).value), Seconds(toInt(line[1]).value);
        var kept := if !showAll && Resets(before, line[4], start, end) then [] else before.targets;
        assert !showAll ==> EndsOrdered(kept, end);
        AddNameKeeps(kept, line[4], start, end, line[3]);
      }
    }
  }

  // ----- what a target holds

  /** The outputs recorded for one command in lines `k` to `n - 1`, in log order. */
  function NamesOf(lines: seq<Line>, k: nat, n: nat, hash: string): seq<string>
    requires k <= n <= |lines|
  {
    if n == k then []
    else
      NamesOf(lines, k, n - 1, hash) +
      if |lines[n - 1]| == 5 && lines[n - 1][4] == hash then [lines[n - 1][3]] else []
  }

  /** The first line of a command among lines `k` to `n - 1`, or `n`. */
  function FirstOf(lines: seq<Line>, k: nat, n: nat, hash: string): (f: nat)
    requires k <= n <= |lines|
    ensures k <= f <= n
    ensures f < n ==> |lines[f]| == 5 && lines[f][4] == hash
    ensures forall i | k <= i < f :: |lines[i]| == 5 ==> lines[i][4] != hash
  {
    if n == k then n
    else
      var f := FirstOf(lines, k, n - 1, hash);
      if f < n - 1 then f else if |lines[n - 1]| == 5 && lines[n - 1][4] == hash then n - 1 else n
  }

  lemma AddNameFind(targets: seq<Target>, hash: string, start: real, end: real, name: string, h: string)
    ensures var after := AddName(targets, hash, start, end, name);
            && Find(after, h) == (if h == hash && Find(targets, h) < 0 then |targets| else Find(targets, h))
  {
    var k := Find(targets, hash);
    if k < 0 {
      assert (targets + [Target(hash, start, end, [name])])[..|targets|] == targets;
    } else {
      FindUpdate(targets, k, targets[k].(names := targets[k].names + [name]), h);
    }
  }

  lemma {:induction false} FindUpdate(targets: seq<Target>, k: nat, t: Target, h: string)
    requires k < |targets| && t.hash == targets[k].hash
    ensures Find(targets[k := t], h) == Find(targets, h)
  {
    var last := |targets| - 1;
    if k < last {
      FindUpdate(targets[..last], k, t, h);
      assert targets[k := t][..last] == targets[..last][k := t];
    } else {
      assert targets[k := t][..last] == targets[..last];
    }
  }

  /**
   Reading everything groups the records by command: a command has a target exactly when some line
   names it, the target carries the times of the first such line and the outputs of all of them.
   */
  lemma {:induction false} TargetsGroupByHash(
    lines: seq<Line>, toInt: string -> Option<int>, k: nat, n: nat, hash: string)
    requires k <= n <= |lines| && Records(lines, true, toInt, k, n).Some?
    ensures var targets, f := Records(lines, true, toInt, k, n).value.targets, FirstOf(lines, k, n, hash);
            var at := Find(targets, hash);
            && (at >= 0 <==> f < n)
            && (at < 0 ==> NamesOf(lines, k, n, hash) == [])
            && (at >= 0 ==>
                && toInt(lines[f][0]).Some? && toInt(lines[f][1]).Some?
                && targets[at] == Target(hash, Seconds(toInt(lines[f][0]).value), Seconds(toInt(lines[f][1]).value),
                                         NamesOf(lines, k, n, hash)))
  {
    hide Find, AddName, Seconds, Resets;
    if n > k {
      TargetsGroupByHash(lines, toInt, k, n - 1, hash);
      var before, line := Records(lines, true, toInt, k, n - 1).value, lines[n - 1];
      if |line| == 5 {
        var start, end := Seconds(toInt(line[0]).value), Seconds(toInt(line[1]).value);
        AddNameFind(before.targets, line[4], start, end, line[3], hash);
        GroupStep(before.targets, line[4], start, end, line[3], hash);
      }
    }
  }

  lemma GroupStep(targets: seq<Target>, hash: string, start: real, end: real, name: string, h: string)
    ensures var after, at := AddName(targets, hash, start, end, name), Find(targets, h);
            && (h != hash && at >= 0 ==> |after| > at && after[at] == targets[at])
            && (h == hash && at >= 0 ==> |after| > at && after[at] == targets[at].(names := targets[at].names + [name]))
            && (h == hash && at < 0 ==> |after| == |targets| + 1 && after[|targets|] == Target(h, start, end, [name]))
  {
  }

  // ----- the line where the last build begins

  predicate Parses(lines: seq<Line>, toInt: string -> Option<int>, k: nat, n: nat)
    requires k <= n <= |lines|
  {
    forall i | k <= i < n && |lines[i]| == 5 :: toInt(lines[i][0]).Some? && toInt(lines[i][1]).Some?
  }

  /** Reading fails exactly when a number of some line does not parse. */
  lemma {:induction false} ParsesExactly(lines: seq<Line>, showAll: bool, toInt: string -> Option<int>, k: nat, n: nat)
    requires k <= n <= |lines|
    ensures Records(lines, showAll, toInt, k, n).Some? <==> Parses(lines, toInt, k, n)
  {
    if n > k { ParsesExactly(lines, showAll, toInt, k, n - 1); }
  }

  /** The end time of the last record before line `n`, or zero. */
  function LastEnd(lines: seq<Line>, toInt: string -> Option<int>, n: nat): real
    requires n <= |lines|
  {
    if n == 0 then 0.0
    else if |lines[n - 1]| == 5 then Time(lines[n - 1][1], toInt) else LastEnd(lines, toInt, n - 1)
  }

  /**
   Line `n` cannot belong to the build of lines `k` to `n - 1`: it ends before the record above it, or
   its command has other times in the first of those lines that names it.
   */
  predicate StartsBuild(lines: seq<Line>, toInt: string -> Option<int>, k: nat, n: nat)
    requires k <= n < |lines|
  {
    && |lines[n]| == 5
    && var f := FirstOf(lines, k, n, lines[n][4]);
       || Time(lines[n][1], toInt) < LastEnd(lines, toInt, n)
       || (f < n && (Time(lines[f][0], toInt) != Time(lines[n][0], toInt)
                     || Time(lines[f][1], toInt) != Time(lines[n][1], toInt)))
  }

  /** The line where the last build among the first `n` lines begins. */
  function BuildStart(lines: seq<Line>, toInt: string -> Option<int>, n: nat): (k: nat)
    requires n <= |lines|
    ensures k <= n
  {
    if n == 0 then 0
    else
      var k := BuildStart(lines, toInt, n - 1);
      if StartsBuild(lines, toInt, k, n - 1) then n - 1 else k
  }

  /** Dropping old builds keeps exactly what reading everything from the start of the last build on keeps. */
  lemma {:induction false} ResetIsSuffix(lines: seq<Line>, toInt: string -> Option<int>, n: nat)
    requires n <= |lines| && Parses(lines, toInt, 0, n)
    ensures var r, s := Records(lines, false, toInt, 0, n), Records(lines, true, toInt, BuildStart(lines, toInt, n), n);
            r.Some? && s.Some? && r.value.targets == s.value.targets && r.value.lastEnd == LastEnd(lines, toInt, n)
  {
    hide FirstOf, NamesOf, Find, Seconds, AddName, Resets;
    if n > 0 {
      ResetIsSuffix(lines, toInt, n - 1);
      var k, line := BuildStart(lines, toInt, n - 1), lines[n - 1];
      var r := Records(lines, false, toInt, 0, n - 1).value;
      if |line| == 5 {
        ResetsIsStart(lines, toInt, k, n - 1, r);
        assert Records(lines, true, toInt, n - 1, n - 1) == Some(Log([], 0.0));
      }
    }
  }

  lemma ResetsIsStart(lines: seq<Line>, toInt: string -> Option<int>, k: nat, n: nat, r: Log)
    requires k <= n < |lines| && |lines[n]| == 5 && toInt(lines[n][0]).Some? && toInt(lines[n][1]).Some?
    requires Records(lines, true, toInt, k, n).Some? && Records(lines, true, toInt, k, n).value.targets == r.targets
    requires r.lastEnd == LastEnd(lines, toInt, n)
    ensures Resets(r, lines[n][4], Time(lines[n][0], toInt), Time(lines[n][1], toInt)) <==>
            StartsBuild(lines, toInt, k, n)
  {
    hide FirstOf, NamesOf, Find, Seconds, LastEnd, Records;
    TargetsGroupByHash(lines, toInt, k, n, lines[n][4]);
  }

  // ----- the order of the targets

  lemma AddNameHashes(targets: seq<Target>, hash: string, start: real, end: real, name: string, i: nat)
    requires i < |AddName(targets, hash, start, end, name)|
    ensures AddName(targets, hash, start, end, name)[i].hash == if i < |targets| then targets[i].hash else hash
    ensures i >= |targets| ==> i == |targets| && Find(targets, hash) < 0
  {
  }

  /** A hash that has a target had a line. */
  lemma TargetHasLine(lines: seq<Line>, toInt: string -> Option<int>, k: nat, n: nat, i: nat)
    requires k <= n <= |lines| && Records(lines, true, toInt, k, n).Some?
    requires i < |Records(lines, true, toInt, k, n).value.targets|
    ensures FirstOf(lines, k, n, Records(lines, true, toInt, k, n).value.targets[i].hash) < n
  {
    hide Records, FirstOf, NamesOf, Seconds;
    TargetsGroupByHash(lines, toInt, k, n, Records(lines, true, toInt, k, n).value.targets[i].hash);
  }

  /** Targets come in the order of their first log lines. */
  lemma {:induction false} TargetsInLogOrder(lines: seq<Line>, toInt: string -> Option<int>, k: nat, n: nat, i: nat,
                                             j: nat)
    requires k <= n <= |lines| && Records(lines, true, toInt, k, n).Some?
    requires i < j < |Records(lines, true, toInt, k, n).value.targets|
    ensures var targets := Records(lines, true, toInt, k, n).value.targets;
            FirstOf(lines, k, n, targets[i].hash) < FirstOf(lines, k, n, targets[j].hash) < n
  {
    hide Find, AddName, Seconds, Resets, NamesOf;
    TargetHasLine(lines, toInt, k, n, j);
    if n > k {
      var before, line := Records(lines, true, toInt, k, n - 1).value, lines[n - 1];
      var targets := Records(lines, true, toInt, k, n).value.targets;
      if |line| == 5 {
        var start, end := Seconds(toInt(line[0]).value), Seconds(toInt(line[1]).value);
        AddNameHashes(before.targets, line[4], start, end, line[3], i);
        AddNameHashes(before.targets, line[4], start, end, line[3], j);
        TargetHasLine(lines, toInt, k, n - 1, i);
        if j < |before.targets| {
          TargetsInLogOrder(lines, toInt, k, n - 1, i, j);
        } else {
          TargetsGroupByHash(lines, toInt, k, n - 1, line[4]);
        }
      } else {
        TargetsInLogOrder(lines, toInt, k, n - 1, i, j);
      }
    }
  }

  function DurationOf(t: Target): real { t.end - t.start }

  predicate SortedByDuration(targets: seq<Target>) {
    forall i, j | 0 <= i < j < |targets| :: DurationOf(targets[i]) <= DurationOf(targets[j])
  }

  /** Line `a` is the first of its command among lines `k` to `n - 1`. */
  predicate IsFirst(lines: seq<Line>, k: nat, n: nat, a: nat)
    requires k <= n <= |lines|
  {
    k <= a < n && |lines[a]| == 5 && FirstOf(lines, k, n, lines[a][4]) == a
  }

  /** The duration a line records. */
  function LineDuration(line: Line, toInt: string -> Option<int>): real
    requires |line| == 5
  {
    Time(line[1], toInt) - Time(line[0], toInt)
  }

  /** The first lines of the commands have durations that never decrease along the log. */
  ghost predicate FirstLinesSorted(lines: seq<Line>, toInt: string -> Option<int>, k: nat, n: nat)
    requires k <= n <= |lines|
  {
    forall a: nat, b: nat | a < b && IsFirst(lines, k, n, a) && IsFirst(lines, k, n, b) ::
      LineDuration(lines[a], toInt) <= LineDuration(lines[b], toInt)
  }

  /** The target of a first line, and the first line of a target. */
  lemma TargetOfFirst(lines: seq<Line>, toInt: string -> Option<int>, k: nat, n: nat, a: nat)
    requires k <= n <= |lines| && Records(lines, true, toInt, k, n).Some? && IsFirst(lines, k, n, a)
    ensures var targets := Records(lines, true, toInt, k, n).value.targets;
            var at := Find(targets, lines[a][4]);
            at >= 0 && targets[at].hash == lines[a][4] && DurationOf(targets[at]) == LineDuration(lines[a], toInt)
  {
    hide Records, Find, NamesOf, Seconds;
    TargetsGroupByHash(lines, toInt, k, n, lines[a][4]);
  }

  lemma FirstOfTarget(lines: seq<Line>, toInt: string -> Option<int>, k: nat, n: nat, i: nat)
    requires k <= n <= |lines| && Records(lines, true, toInt, k, n).Some?
    requires i < |Records(lines, true, toInt, k, n).value.targets|
    ensures var t := Records(lines, true, toInt, k, n).value.targets[i];
            var a := FirstOf(lines, k, n, t.hash);
            IsFirst(lines, k, n, a) && LineDuration(lines[a], toInt) == DurationOf(t)
  {
    hide Records, Find, NamesOf, Seconds;
    var targets := Records(lines, true, toInt, k, n).value.targets;
    TargetHasLine(lines, toInt, k, n, i);
    TargetsGroupByHash(lines, toInt, k, n, targets[i].hash);
    TargetsWellFormed(lines, true, toInt, k, n);
    FindsItself(targets, i);
  }

  lemma FindsItself(targets: seq<Target>, i: nat)
    requires i < |targets| && DistinctHashes(targets)
    ensures Find(targets, targets[i].hash) == i
  {
    hide Find;
    var at := Find(targets, targets[i].hash);
    if at >= 0 { assert targets[at].hash == targets[i].hash; }
  }

  /** The targets are sorted by duration if and only if the first lines of their commands are. */
  lemma SortedExactly(lines: seq<Line>, toInt: string -> Option<int>, k: nat, n: nat)
    requires k <= n <= |lines| && Records(lines, true, toInt, k, n).Some?
    ensures SortedByDuration(Records(lines, true, toInt, k, n).value.targets) <==> FirstLinesSorted(lines, toInt, k, n)
  {
    hide Records, Find, NamesOf, Seconds, FirstOf, LineDuration, DurationOf;
    var targets := Records(lines, true, toInt, k, n).value.targets;
    if FirstLinesSorted(lines, toInt, k, n) {
      forall i, j | 0 <= i < j < |targets| ensures DurationOf(targets[i]) <= DurationOf(targets[j]) {
        FirstOfTarget(lines, toInt, k, n, i);
        FirstOfTarget(lines, toInt, k, n, j);
        TargetsInLogOrder(lines, toInt, k, n, i, j);
      }
    }
    if SortedByDuration(targets) {
      forall a: nat, b: nat | a < b && IsFirst(lines, k, n, a) && IsFirst(lines, k, n, b)
        ensures LineDuration(lines[a], toInt) <= LineDuration(lines[b], toInt)
      {
        EarlierLineEarlierTarget(lines, toInt, k, n, a, b);
      }
    }
  }

  /** With old builds dropped, the targets are in the order of their first lines in the last build. */
  lemma LastBuildInLogOrder(lines: seq<Line>, toInt: string -> Option<int>, n: nat, i: nat, j: nat)
    requires n <= |lines| && Records(lines, false, toInt, 0, n).Some?
    requires i < j < |Records(lines, false, toInt, 0, n).value.targets|
    ensures var targets, k := Records(lines, false, toInt, 0, n).value.targets, BuildStart(lines, toInt, n);
            FirstOf(lines, k, n, targets[i].hash) < FirstOf(lines, k, n, targets[j].hash) < n
  {
    hide Records, FirstOf, BuildStart, LastEnd, Parses;
    ParsesExactly(lines, false, toInt, 0, n);
    ResetIsSuffix(lines, toInt, n);
    TargetsInLogOrder(lines, toInt, BuildStart(lines, toInt, n), n, i, j);
  }

  /** With old builds dropped, they are sorted by duration if and only if those first lines are. */
  lemma LastBuildSortedExactly(lines: seq<Line>, toInt: string -> Option<int>, n: nat)
    requires n <= |lines| && Records(lines, false, toInt, 0, n).Some?
    ensures SortedByDuration(Records(lines, false, toInt, 0, n).value.targets)
            <==> FirstLinesSorted(lines, toInt, BuildStart(lines, toInt, n), n)
  {
    hide Records, FirstOf, BuildStart, LastEnd, Parses, SortedByDuration, FirstLinesSorted;
    ParsesExactly(lines, false, toInt, 0, n);
    ResetIsSuffix(lines, toInt, n);
    SortedExactly(lines, toInt, BuildStart(lines, toInt, n), n);
  }

  lemma EarlierLineEarlierTarget(lines: seq<Line>, toInt: string -> Option<int>, k: nat, n: nat, a: nat, b: nat)
    requires k <= n <= |lines| && Records(lines, true, toInt, k, n).Some?
    requires a < b && IsFirst(lines, k, n, a) && IsFirst(lines, k, n, b)
    ensures |lines[a]| == 5 == |lines[b]|
    ensures var targets := Records(lines, true, toInt, k, n).value.targets;
            exists i, j :: 0 <= i < j < |targets| && DurationOf(targets[i]) == LineDuration(lines[a], toInt)
                           && DurationOf(targets[j]) == LineDuration(lines[b], toInt)
  {
    hide Records, Find, NamesOf, Seconds, FirstOf, LineDuration, DurationOf;
    var targets := Records(lines, true, toInt, k, n).value.targets;
    TargetOfFirst(lines, toInt, k, n, a);
    TargetOfFirst(lines, toInt, k, n, b);
    var i, j := Find(targets, lines[a][4]), Find(targets, lines[b][4]);
    if j < i { TargetsInLogOrder(lines, toInt, k, n, j, i); }
  }

  /** A log of three steps that take 2, 5 and 1 seconds is returned in that order. */
  lemma NotSortedByDuration(toInt: string -> Option<int>)
    requires toInt("0") == Some(0) && toInt("2000") == Some(2000) && toInt("5000") == Some(5000)
             && toInt("6000") == Some(6000)
    ensures var lines := [["0", "2000", "0", "x", "a"], ["0", "5000", "0", "y", "b"], ["5000", "6000", "0", "z", "c"]];
            var log := Records(lines, false, toInt, 0, 3);
            && log.Some? && |log.value.targets| == 3
            && DurationOf(log.value.targets[0]) == 2.0 && DurationOf(log.value.targets[1]) == 5.0
            && DurationOf(log.value.targets[2]) == 1.0
  {
    var lines := [["0", "2000", "0", "x", "a"], ["0", "5000", "0", "y", "b"], ["5000", "6000", "0", "z", "c"]];
    var one := [] + [Target("a", 0.0, 2.0, ["x"])];
    var two := one + [Target("b", 0.0, 5.0, ["y"])];
    var three := two + [Target("c", 5.0, 6.0, ["z"])];
    hide Find, Record, FirstOf;
    NewRecord(lines[0], toInt, Log([], 0.0), 0, 2000);
    NewRecord(lines[1], toInt, Log(one, 2.0), 0, 5000);
    NewRecord(lines[2], toInt, Log(two, 5.0), 5000, 6000);
    assert Records(lines, false, toInt, 0, 1) == Some(Log(one, 2.0));
    assert Records(lines, false, toInt, 0, 2) == Some(Log(two, 5.0));
    assert Records(lines, false, toInt, 0, 3) == Some(Log(three, 6.0));
  }

  /** A record of a new command that ends no earlier than the last one adds a target. */
  lemma NewRecord(line: Line, toInt: string -> Option<int>, log: Log, start: int, end: int)
    requires |line| == 5 && toInt(line[0]) == Some(start) && toInt(line[1]) == Some(end)
    requires Seconds(end) >= log.lastEnd && forall i | 0 <= i < |log.targets| :: log.targets[i].hash != line[4]
    ensures Record(line, false, toInt, log) ==
            Some(Log(log.targets + [Target(line[4], Seconds(start), Seconds(end), [line[3]])], Seconds(end)))
  {
    hide Find, Seconds;
    var k := Find(log.targets, line[4]);
  }
}
