/**
 The event sweep of the build report. Every build step is an interval; while several steps run, the
 elapsed time is shared equally among them.
 */
module NinjaSweep {
  datatype Target = Target(start: real, end: real)

  datatype Event = Event(time: real, stop: bool, target: nat)

  function EventFor(entries: seq<Target>, i: nat, stop: bool): Event
    requires i < |entries|
  {
    Event(if stop then entries[i].end else entries[i].start, stop, i)
  }

  function EventsOf(entries: seq<Target>): seq<Event>
  {
    if entries == [] then []
    else
      var k := |entries| - 1;
      EventsOf(entries[..k]) + [EventFor(entries, k, false), EventFor(entries, k, true)]
  }

  /** Events are ordered by time, and "start" comes before "stop" at the same time. */
  predicate Before(e: Event, f: Event) { e.time < f.time || (e.time == f.time && (!e.stop || f.stop)) }

  predicate Sorted(order: seq<Event>) { forall p, q | 0 <= p < q < |order| :: Before(order[p], order[q]) }

  /** What any sort by time and kind returns, whatever it does with equal keys. */
  ghost predicate Ordering(entries: seq<Target>, order: seq<Event>) {
    multiset(order) == multiset(EventsOf(entries)) && Sorted(order)
  }

  // ----- every list of targets has such an order

  ghost function Insert(e: Event, s: seq<Event>): (r: seq<Event>)
    ensures multiset(r) == multiset(s) + multiset{e}
  {
    if s == [] || Before(e, s[0]) then [e] + s
    else
      assert s == [s[0]] + s[1..];
      [s[0]] + Insert(e, s[1..])
  }

  ghost function InOrder(s: seq<Event>): (r: seq<Event>)
    ensures multiset(r) == multiset(s)
  {
    if s == [] then []
    else
      assert s == [s[0]] + s[1..];
      Insert(s[0], InOrder(s[1..]))
  }

  lemma {:induction false} InsertSorted(e: Event, s: seq<Event>)
    requires Sorted(s)
    ensures Sorted(Insert(e, s))
  {
    if s != [] && !Before(e, s[0]) {
      InsertSorted(e, s[1..]);
      var t := Insert(e, s[1..]);
      forall q | 0 <= q < |t| ensures Before(s[0], t[q]) {
        assert t[q] in multiset(t);
        assert t[q] == e || t[q] in s[1..];
      }
    }
  }

  lemma {:induction false} InOrderSorted(s: seq<Event>)
    ensures Sorted(InOrder(s))
  {
    if s != [] {
      InOrderSorted(s[1..]);
      InsertSorted(s[0], InOrder(s[1..]));
    }
  }

  /** Whatever the targets, their events can be sorted by time and kind. */
  lemma OrderingExists(entries: seq<Target>)
    ensures exists order :: Ordering(entries, order)
  {
    InOrderSorted(EventsOf(entries));
    assert Ordering(entries, InOrder(EventsOf(entries)));
  }

  // ----- every target starts once and stops once

  ghost predicate IsEvent(entries: seq<Target>, e: Event) {
    e.target < |entries| && e == EventFor(entries, e.target, e.stop)
  }

  lemma {:induction false} EventOccurs(entries: seq<Target>, e: Event)
    ensures multiset(EventsOf(entries))[e] == if IsEvent(entries, e) then 1 else 0
  {
    if entries != [] {
      var k := |entries| - 1;
      EventOccurs(entries[..k], e);
      var first, last := EventFor(entries, k, false), EventFor(entries, k, true);
      assert multiset([first, last])[e] == if e == first || e == last then 1 else 0;
    }
  }

  lemma OnlyOnce(order: seq<Event>, p: nat, q: nat)
    requires p < q < |order| && order[p] == order[q]
    ensures multiset(order)[order[p]] >= 2
  {
    assert order == order[..q] + [order[q]] + order[q + 1..];
    assert order[p] in order[..q] by { assert order[..q][p] == order[p]; }
  }

  predicate Seen(order: seq<Event>, p: nat, e: Event)
    requires p <= |order|
  {
    exists q :: 0 <= q < p && order[q] == e
  }

  /** The sorted events: exactly one start and one stop per target. */
  ghost predicate Schedule(entries: seq<Target>, order: seq<Event>) {
    && Sorted(order)
    && (forall p | 0 <= p < |order| :: IsEvent(entries, order[p]))
    && (forall p, q | 0 <= p < q < |order| :: order[p] != order[q])
    && (forall i, stop | 0 <= i < |entries| :: Seen(order, |order|, EventFor(entries, i, stop)))
  }

  lemma OrderingIsSchedule(entries: seq<Target>, order: seq<Event>)
    requires Ordering(entries, order)
    ensures Schedule(entries, order)
  {
    forall p | 0 <= p < |order| ensures IsEvent(entries, order[p]) {
      EventOccurs(entries, order[p]);
      assert order[p] in multiset(order);
    }
    forall p, q | 0 <= p < q < |order| ensures order[p] != order[q] {
      EventOccurs(entries, order[p]);
      if order[p] == order[q] { OnlyOnce(order, p, q); }
    }
    forall i, stop | 0 <= i < |entries| ensures Seen(order, |order|, EventFor(entries, i, stop)) {
      var e := EventFor(entries, i, stop);
      EventOccurs(entries, e);
      assert e in multiset(order);
      assert e in order;
    }
  }

  // ----- the reference: what a target is charged for

  predicate Covers(t: Target, a: real, b: real) { t.start <= a && b <= t.end }

  function CoverCount(entries: seq<Target>, a: real, b: real): nat {
    if entries == [] then 0
    else CoverCount(entries[..|entries| - 1], a, b) + if Covers(entries[|entries| - 1], a, b) then 1 else 0
  }

  /** An elapsed time shared equally among `count` running targets. */
  function PerTask(elapsed: real, count: nat): real
    requires count > 0
  {
    elapsed / count as real
  }

  /** The charge of a target that covers a gap in which `count` targets run. */
  function Charge(t: Target, a: real, b: real, count: nat): real {
    if a < b && Covers(t, a, b) && count > 0 then PerTask(b - a, count) else 0.0
  }

  /** The charge of a target over the first `m` gaps between consecutive events. */
  ghost function Share(entries: seq<Target>, order: seq<Event>, i: nat, m: nat): real
    requires i < |entries| && m < |order|
  {
    if m == 0 then 0.0
    else
      var a, b := order[m - 1].time, order[m].time;
      Share(entries, order, i, m - 1) + Charge(entries[i], a, b, CoverCount(entries, a, b))
  }

  /** The time, over the first `m` gaps, during which at least one target runs. */
  ghost function Busy(entries: seq<Target>, order: seq<Event>, m: nat): real
    requires m < |order|
  {
    if m == 0 then 0.0
    else
      var a, b := order[m - 1].time, order[m].time;
      Busy(entries, order, m - 1) + if a < b && CoverCount(entries, a, b) > 0 then b - a else 0.0
  }

  ghost function ShareSum(entries: seq<Target>, order: seq<Event>, n: nat, m: nat): real
    requires n <= |entries| && m < |order|
  {
    if n == 0 then 0.0 else ShareSum(entries, order, n - 1, m) + Share(entries, order, n - 1, m)
  }

  ghost function ChargeSum(entries: seq<Target>, n: nat, a: real, b: real, count: nat): real
    requires n <= |entries|
  {
    if n == 0 then 0.0 else ChargeSum(entries, n - 1, a, b, count) + Charge(entries[n - 1], a, b, count)
  }

  lemma {:induction false} ChargesAddUp(entries: seq<Target>, n: nat, a: real, b: real, count: nat)
    requires n <= |entries| && a < b && count > 0
    ensures ChargeSum(entries, n, a, b, count) == CoverCount(entries[..n], a, b) as real * PerTask(b - a, count)
  {
    hide PerTask;
    if n > 0 {
      ChargesAddUp(entries, n - 1, a, b, count);
      assert entries[..n][..n - 1] == entries[..n - 1];
      var c, x := CoverCount(entries[..n - 1], a, b), PerTask(b - a, count);
      assert (c + 1) as real * x == c as real * x + x;
    }
  }

  lemma {:induction false} NoCharge(entries: seq<Target>, n: nat, a: real, b: real, count: nat)
    requires n <= |entries| && (a >= b || count == 0)
    ensures ChargeSum(entries, n, a, b, count) == 0.0
  {
    if n > 0 { NoCharge(entries, n - 1, a, b, count); }
  }

  lemma {:induction false} ShareSumStep(entries: seq<Target>, order: seq<Event>, n: nat, m: nat)
    requires n <= |entries| && 0 < m < |order|
    ensures var a, b := order[m - 1].time, order[m].time;
            ShareSum(entries, order, n, m) ==
            ShareSum(entries, order, n, m - 1) + ChargeSum(entries, n, a, b, CoverCount(entries, a, b))
  {
    if n > 0 { ShareSumStep(entries, order, n - 1, m); }
  }

  /** The charges of all targets together are the busy time. */
  lemma {:induction false} SharesAreBusyTime(entries: seq<Target>, order: seq<Event>, m: nat)
    requires m < |order|
    ensures ShareSum(entries, order, |entries|, m) == Busy(entries, order, m)
  {
    hide PerTask, ShareSum, ChargeSum, CoverCount;
    if m == 0 {
      NoShares(entries, order, |entries|);
    } else {
      var a, b := order[m - 1].time, order[m].time;
      var count := CoverCount(entries, a, b);
      SharesAreBusyTime(entries, order, m - 1);
      ShareSumStep(entries, order, |entries|, m);
      if a < b && count > 0 {
        ChargesAddUp(entries, |entries|, a, b, count);
        assert entries[..|entries|] == entries;
        PerTaskBack(b - a, count);
      } else {
        NoCharge(entries, |entries|, a, b, count);
      }
    }
  }

  lemma PerTaskBack(x: real, count: nat)
    requires count > 0
    ensures count as real * PerTask(x, count) == x
  {
  }

  lemma {:induction false} NoShares(entries: seq<Target>, order: seq<Event>, n: nat)
    requires n <= |entries| && 0 < |order|
    ensures ShareSum(entries, order, n, 0) == 0.0
  {
    if n > 0 { NoShares(entries, order, n - 1); }
  }

  /** Idle time is what is left between the first and the last event. */
  ghost function Idle(entries: seq<Target>, order: seq<Event>, m: nat): real
    requires m < |order|
  {
    if m == 0 then 0.0
    else
      var a, b := order[m - 1].time, order[m].time;
      Idle(entries, order, m - 1) + if a < b && CoverCount(entries, a, b) == 0 then b - a else 0.0
  }

  lemma {:induction false} BusyPlusIdle(entries: seq<Target>, order: seq<Event>, m: nat)
    requires m < |order| && Sorted(order)
    ensures Busy(entries, order, m) + Idle(entries, order, m) == order[m].time - order[0].time
    ensures Busy(entries, order, m) >= 0.0 && Idle(entries, order, m) >= 0.0
  {
    if m > 0 {
      BusyPlusIdle(entries, order, m - 1);
      assert Before(order[m - 1], order[m]);
    }
  }

  function Clamp(t: Target, x: real): real { if x < t.start then t.start else if x > t.end then t.end else x }

  lemma ChargeBound(t: Target, a: real, b: real, count: nat)
    requires a <= b && t.start <= t.end
    ensures 0.0 <= Charge(t, a, b, count) <= Clamp(t, b) - Clamp(t, a)
  {
    hide PerTask;
    if a < b && count > 0 { PerTaskBound(b - a, count); }
  }

  lemma DivideBound(x: real, c: real)
    requires x > 0.0 && c >= 1.0
    ensures 0.0 < x / c <= x
  {
    assert x / c * c == x;
  }

  lemma PerTaskBound(x: real, count: nat)
    requires x > 0.0 && count > 0
    ensures 0.0 < PerTask(x, count) <= x
  {
    DivideBound(x, count as real);
  }

  /** A target is never charged more than the time it ran. */
  lemma {:induction false} ShareAtMostDuration(entries: seq<Target>, order: seq<Event>, i: nat, m: nat)
    requires i < |entries| && m < |order| && Sorted(order) && entries[i].start <= entries[i].end
    ensures 0.0 <= Share(entries, order, i, m) <= Clamp(entries[i], order[m].time) - entries[i].start
    ensures Share(entries, order, i, m) <= entries[i].end - entries[i].start
  {
    if m > 0 {
      ShareAtMostDuration(entries, order, i, m - 1);
      var a, b := order[m - 1].time, order[m].time;
      assert Before(order[m - 1], order[m]);
      ChargeBound(entries[i], a, b, CoverCount(entries, a, b));
    }
  }

  // ----- the sweep

  lemma SeenStep(order: seq<Event>, p: nat, e: Event)
    requires p < |order|
    ensures Seen(order, p + 1, e) <==> Seen(order, p, e) || order[p] == e
  {
  }

  /** Between two events at different times, the running targets are those that cover the gap. */
  lemma RunningCovers(entries: seq<Target>, order: seq<Event>, p: nat, i: nat)
    requires Schedule(entries, order) && 0 < p < |order| && i < |entries|
    requires order[p - 1].time < order[p].time
    ensures Seen(order, p, EventFor(entries, i, false)) && !Seen(order, p, EventFor(entries, i, true)) <==>
            Covers(entries[i], order[p - 1].time, order[p].time)
  {
    hide IsEvent;
    Placed(entries, order, p, EventFor(entries, i, false));
    Placed(entries, order, p, EventFor(entries, i, true));
  }

  /** An event lies before position `p` exactly when its time is at most that of the event there. */
  lemma Placed(entries: seq<Target>, order: seq<Event>, p: nat, e: Event)
    requires Schedule(entries, order) && 0 < p < |order| && order[p - 1].time < order[p].time
    requires Seen(order, |order|, e)
    ensures if Seen(order, p, e) then e.time <= order[p - 1].time else order[p].time <= e.time
  {
    var q :| 0 <= q < |order| && order[q] == e;
    if q < p {
      assert q < p - 1 ==> Before(order[q], order[p - 1]);
    } else if q > p {
      assert Before(order[p], order[q]);
      assert !Seen(order, p, e);
    }
  }

  function RunCount(running: map<nat, real>, n: nat): nat {
    if n == 0 then 0 else RunCount(running, n - 1) + if n - 1 in running then 1 else 0
  }

  lemma {:induction false} RunCountIs(entries: seq<Target>, running: map<nat, real>, n: nat, a: real, b: real)
    requires n <= |entries| && forall i | 0 <= i < n :: i in running <==> Covers(entries[i], a, b)
    ensures RunCount(running, n) == CoverCount(entries[..n], a, b)
  {
    if n > 0 {
      RunCountIs(entries, running, n - 1, a, b);
      assert entries[..n][..n - 1] == entries[..n - 1];
    }
  }

  lemma {:induction false} RunCountAdd(running: map<nat, real>, i: nat, w: real, n: nat)
    requires i !in running
    ensures RunCount(running[i := w], n) == RunCount(running, n) + if i < n then 1 else 0
  {
    if n > 0 { RunCountAdd(running, i, w, n - 1); }
  }

  lemma {:induction false} RunCountDrop(running: map<nat, real>, i: nat, n: nat)
    requires i in running
    ensures RunCount(running - {i}, n) == RunCount(running, n) - if i < n then 1 else 0
  {
    if n > 0 { RunCountDrop(running, i, n - 1); }
  }

  /** The weighted durations set so far. */
  ghost function DoneSum(entries: seq<Target>, order: seq<Event>, weighted: seq<real>, p: nat, n: nat): real
    requires n <= |entries| && |weighted| == |entries| && p <= |order|
  {
    if n == 0 then 0.0
    else
      DoneSum(entries, order, weighted, p, n - 1) +
      if Seen(order, p, EventFor(entries, n - 1, true)) then weighted[n - 1] else 0.0
  }

  /** Moving past one event, and setting its target's weight, adds that weight or nothing. */
  lemma {:induction false} DoneSumStep(
    entries: seq<Target>, order: seq<Event>, weighted: seq<real>, w: real, p: nat, i: nat, n: nat)
    requires Schedule(entries, order) && n <= |entries| && |weighted| == |entries| && p < |order|
    requires i < |entries| && order[p] == EventFor(entries, i, order[p].stop)
    ensures DoneSum(entries, order, if order[p].stop then weighted[i := w] else weighted, p + 1, n) ==
            DoneSum(entries, order, weighted, p, n) + if order[p].stop && i < n then w else 0.0
  {
    if n > 0 {
      DoneSumStep(entries, order, weighted, w, p, i, n - 1);
      SeenStep(order, p, EventFor(entries, n - 1, true));
      if n - 1 == i && order[p].stop { NotSeenYet(entries, order, p); }
    }
  }

  lemma NotSeenYet(entries: seq<Target>, order: seq<Event>, p: nat)
    requires Schedule(entries, order) && p < |order|
    ensures !Seen(order, p, order[p])
  {
  }

  /** A target is charged nothing before it starts. */
  lemma {:induction false} NoShareYet(entries: seq<Target>, order: seq<Event>, i: nat, m: nat)
    requires Sorted(order) && i < |entries| && m < |order| && order[m].time <= entries[i].start
    ensures Share(entries, order, i, m) == 0.0
  {
    if m > 0 {
      assert Before(order[m - 1], order[m]);
      NoShareYet(entries, order, i, m - 1);
    }
  }

  ghost predicate Running(entries: seq<Target>, order: seq<Event>, p: nat, i: nat)
    requires i < |entries| && p <= |order|
  {
    Seen(order, p, EventFor(entries, i, false)) && !Seen(order, p, EventFor(entries, i, true))
  }

  /** The running set after `p` events: the targets that have started and not stopped. */
  ghost predicate RunningOk(entries: seq<Target>, order: seq<Event>, p: nat, running: map<nat, real>)
    requires p <= |order|
  {
    && (forall i | i in running :: i < |entries|)
    && (forall i | 0 <= i < |entries| :: i in running <==> Running(entries, order, p, i))
    && |running| == RunCount(running, |entries|)
    && (forall i | 0 <= i < |entries| && Seen(order, p, EventFor(entries, i, true)) ::
        Seen(order, p, EventFor(entries, i, false)) && entries[i].start <= entries[i].end)
  }

  /** The weights after the first `m` gaps: exact charges of the running and of the stopped targets. */
  ghost predicate WeightsOk(entries: seq<Target>, order: seq<Event>, p: nat, m: nat, running: map<nat, real>,
                            time: real, weighted: seq<real>)
    requires p <= |order| && m < |order| && |weighted| == |entries| && forall i | i in running :: i < |entries|
  {
    && (forall i | i in running :: time - running[i] == Share(entries, order, i, m))
    && (forall i | 0 <= i < |entries| && Seen(order, p, EventFor(entries, i, true)) ::
        weighted[i] == Share(entries, order, i, m))
  }

  /** Sharing one gap equally among the running targets charges each exactly its share. */
  lemma GapStep(entries: seq<Target>, order: seq<Event>, p: nat, running: map<nat, real>,
                time: real, time': real, weighted: seq<real>)
    requires Schedule(entries, order) && 0 < p < |order| && |weighted| == |entries|
    requires RunningOk(entries, order, p, running)
    requires WeightsOk(entries, order, p, p - 1, running, time, weighted)
    requires time' == if |running| > 0 then time + PerTask(order[p].time - order[p - 1].time, |running|) else time
    ensures WeightsOk(entries, order, p, p, running, time', weighted)
  {
    hide Schedule, CoverCount, RunCount;
    PerTaskZero(|running|);
    hide PerTask;
    var a, b, n := order[p - 1].time, order[p].time, |entries|;
    assert a <= b by { SortedPair(entries, order, p); }
    if a < b {
      forall i | 0 <= i < n ensures i in running <==> Covers(entries[i], a, b) {
        RunningCovers(entries, order, p, i);
      }
      RunCountIs(entries, running, n, a, b);
      assert entries[..n] == entries;
    }
  }

  lemma PerTaskZero(count: nat)
    ensures count > 0 ==> PerTask(0.0, count) == 0.0
  {
  }

  lemma SortedPair(entries: seq<Target>, order: seq<Event>, p: nat)
    requires Schedule(entries, order) && 0 < p < |order|
    ensures order[p - 1].time <= order[p].time
  {
    assert Before(order[p - 1], order[p]);
  }

  /** A target that starts joins the running set; it was not in it and has not been charged. */
  lemma StartStep(entries: seq<Target>, order: seq<Event>, p: nat, i: nat, running: map<nat, real>,
                  time: real, weighted: seq<real>, running': map<nat, real>)
    requires Schedule(entries, order) && p < |order| && |weighted| == |entries| && i < |entries|
    requires order[p] == EventFor(entries, i, false) && running' == running[i := time]
    requires RunningOk(entries, order, p, running) && WeightsOk(entries, order, p, p, running, time, weighted)
    ensures RunningOk(entries, order, p + 1, running')
    ensures WeightsOk(entries, order, p + 1, p, running', time, weighted)
  {
    hide Schedule, RunCount, Seen, Share;
    NotSeenYet(entries, order, p);
    forall k, stop | 0 <= k < |entries|
      ensures Seen(order, p + 1, EventFor(entries, k, stop)) <==>
              Seen(order, p, EventFor(entries, k, stop)) || (k == i && !stop)
    {
      SeenStep(order, p, EventFor(entries, k, stop));
    }
    RunCountAdd(running, i, time, |entries|);
    assert Sorted(order) by { ScheduleSorted(entries, order); }
    NoShareYet(entries, order, i, p);
  }

  lemma ScheduleSorted(entries: seq<Target>, order: seq<Event>)
    requires Schedule(entries, order)
    ensures Sorted(order)
  {
  }

  /** A target that stops leaves the running set with exactly its charge. */
  lemma StopStep(entries: seq<Target>, order: seq<Event>, p: nat, i: nat, running: map<nat, real>,
                 time: real, weighted: seq<real>, w: real, running': map<nat, real>, weighted': seq<real>)
    requires Schedule(entries, order) && p < |order| && |weighted| == |entries| && i < |entries|
    requires order[p] == EventFor(entries, i, true) && i in running && w == time - running[i]
    requires running' == running - {i} && weighted' == weighted[i := w]
    requires RunningOk(entries, order, p, running) && WeightsOk(entries, order, p, p, running, time, weighted)
    ensures RunningOk(entries, order, p + 1, running')
    ensures WeightsOk(entries, order, p + 1, p, running', time, weighted')
  {
    hide Schedule, RunCount, Seen, Share;
    NotSeenYet(entries, order, p);
    forall k, stop | 0 <= k < |entries|
      ensures Seen(order, p + 1, EventFor(entries, k, stop)) <==>
              Seen(order, p, EventFor(entries, k, stop)) || (k == i && stop)
    {
      SeenStep(order, p, EventFor(entries, k, stop));
    }
    RunCountDrop(running, i, |entries|);
    SeenBefore(entries, order, p, i);
  }

  /** A target found running when it stops started no later than it stopped. */
  lemma SeenBefore(entries: seq<Target>, order: seq<Event>, p: nat, i: nat)
    requires Schedule(entries, order) && p < |order| && i < |entries| && order[p] == EventFor(entries, i, true)
    ensures Seen(order, p, EventFor(entries, i, false)) <==> entries[i].start <= entries[i].end
  {
    var start := EventFor(entries, i, false);
    assert Seen(order, |order|, start);
    var q :| 0 <= q < |order| && order[q] == start;
    if q < p {
      assert Before(order[q], order[p]);
    } else {
      assert Before(order[p], order[q]);
    }
  }

  // ----- the two ends of the loop

  lemma SomeEvent(entries: seq<Target>, order: seq<Event>)
    requires Schedule(entries, order)
    ensures order == [] <==> entries == []
  {
    if entries != [] {
      assert Seen(order, |order|, EventFor(entries, 0, false));
    }
    if order != [] {
      assert IsEvent(entries, order[0]);
    }
  }

  lemma EventInside(entries: seq<Target>, order: seq<Event>, p: nat)
    requires Schedule(entries, order) && p < |order|
    ensures order[p].target < |entries| && order[p] == EventFor(entries, order[p].target, order[p].stop)
  {
    assert IsEvent(entries, order[p]);
  }

  lemma {:induction false} CountNone(running: map<nat, real>, n: nat)
    requires forall i | 0 <= i < n :: i !in running
    ensures RunCount(running, n) == 0
  {
    if n > 0 { CountNone(running, n - 1); }
  }

  lemma {:induction false} NothingDone(entries: seq<Target>, order: seq<Event>, weighted: seq<real>, n: nat)
    requires n <= |entries| && |weighted| == |entries|
    ensures DoneSum(entries, order, weighted, 0, n) == 0.0
  {
    if n > 0 { NothingDone(entries, order, weighted, n - 1); }
  }

  lemma SweepStart(entries: seq<Target>, order: seq<Event>, weighted: seq<real>)
    requires order != [] && |weighted| == |entries|
    ensures Swept(entries, order, 0, map[], 0.0, 0.0, weighted)
  {
    CountNone(map[], |entries|);
    NothingDone(entries, order, weighted, |entries|);
  }

  lemma NothingRuns(entries: seq<Target>, order: seq<Event>, running: map<nat, real>)
    requires RunningOk(entries, order, 0, running)
    ensures |running| == 0
  {
    CountNone(running, |entries|);
  }

  lemma NotRunning(entries: seq<Target>, order: seq<Event>, p: nat, i: nat, running: map<nat, real>)
    requires p < |order| && i < |entries| && RunningOk(entries, order, p, running) && i !in running
    requires !Seen(order, p, EventFor(entries, i, true))
    ensures !Seen(order, p, EventFor(entries, i, false))
  {
    hide Seen;
  }

  lemma {:induction false} AllDone(entries: seq<Target>, order: seq<Event>, weighted: seq<real>, n: nat)
    requires Schedule(entries, order) && order != [] && n <= |entries| && |weighted| == |entries|
    requires forall i | 0 <= i < n :: weighted[i] == Share(entries, order, i, |order| - 1)
    ensures DoneSum(entries, order, weighted, |order|, n) == ShareSum(entries, order, n, |order| - 1)
  {
    if n > 0 {
      AllDone(entries, order, weighted, n - 1);
      assert Seen(order, |order|, EventFor(entries, n - 1, true));
    }
  }

  /** At the end nothing runs. */
  lemma RunningEndsEmpty(entries: seq<Target>, order: seq<Event>, running: map<nat, real>)
    requires Schedule(entries, order) && RunningOk(entries, order, |order|, running)
    ensures |running| == 0
  {
    hide Seen;
    forall i | 0 <= i < |entries| ensures i !in running {
      assert Seen(order, |order|, EventFor(entries, i, true));
    }
    CountNone(running, |entries|);
  }

  /** At the end every target has exactly its charge, which is at most its duration. */
  lemma FinalWeight(entries: seq<Target>, order: seq<Event>, running: map<nat, real>, time: real,
                    weighted: seq<real>, i: nat)
    requires Schedule(entries, order) && order != [] && |weighted| == |entries| && i < |entries|
    requires RunningOk(entries, order, |order|, running)
    requires WeightsOk(entries, order, |order|, |order| - 1, running, time, weighted)
    ensures entries[i].start <= entries[i].end
    ensures weighted[i] == Share(entries, order, i, |order| - 1)
    ensures 0.0 <= weighted[i] <= entries[i].end - entries[i].start
  {
    hide Share, Seen, RunCount;
    assert Seen(order, |order|, EventFor(entries, i, true));
    ShareAtMostDuration(entries, order, i, |order| - 1);
  }

  /** At the end the accumulated total is the busy time. */
  lemma FinalTotal(entries: seq<Target>, order: seq<Event>, weighted: seq<real>)
    requires Schedule(entries, order) && order != [] && |weighted| == |entries|
    requires forall i | 0 <= i < |entries| :: weighted[i] == Share(entries, order, i, |order| - 1)
    ensures DoneSum(entries, order, weighted, |order|, |entries|) == Busy(entries, order, |order| - 1)
  {
    hide *;
    AllDone(entries, order, weighted, |entries|);
    SharesAreBusyTime(entries, order, |order| - 1);
  }

  // ----- the loop

  /** The loop state after `p` events. */
  ghost predicate Swept(entries: seq<Target>, order: seq<Event>, p: nat, running: map<nat, real>,
                        time: real, total: real, weighted: seq<real>)
  {
    && 0 < |order| && p <= |order| && |weighted| == |entries|
    && RunningOk(entries, order, p, running)
    && WeightsOk(entries, order, p, if p == 0 then 0 else p - 1, running, time, weighted)
    && total == DoneSum(entries, order, weighted, p, |entries|)
  }

  /** The weighted clock after the gap before event `p`. */
  function Tick(order: seq<Event>, p: nat, running: map<nat, real>, time: real): real
    requires p < |order|
  {
    if p > 0 && |running| > 0 then time + PerTask(order[p].time - order[p - 1].time, |running|) else time
  }

  lemma SweptGap(entries: seq<Target>, order: seq<Event>, p: nat, running: map<nat, real>,
                 time: real, total: real, weighted: seq<real>)
    requires Schedule(entries, order) && p < |order| && Swept(entries, order, p, running, time, total, weighted)
    ensures p == 0 ==> |running| == 0
    ensures forall i | i in running :: i < |entries|
    ensures WeightsOk(entries, order, p, p, running, Tick(order, p, running, time), weighted)
  {
    hide WeightsOk, DoneSum, Schedule;
    if p > 0 {
      GapStep(entries, order, p, running, time, Tick(order, p, running, time), weighted);
    } else {
      NothingRuns(entries, order, running);
    }
  }

  lemma SweptStart(entries: seq<Target>, order: seq<Event>, p: nat, running: map<nat, real>,
                   time: real, total: real, weighted: seq<real>, running': map<nat, real>, time': real)
    requires Schedule(entries, order) && p < |order| && Swept(entries, order, p, running, time, total, weighted)
    requires !order[p].stop
    requires time' == Tick(order, p, running, time) && running' == running[order[p].target := time']
    ensures Swept(entries, order, p + 1, running', time', total, weighted)
  {
    SweptGap(entries, order, p, running, time, total, weighted);
    hide RunningOk, WeightsOk, DoneSum, Schedule, Seen, Tick;
    EventInside(entries, order, p);
    StartStep(entries, order, p, order[p].target, running, time', weighted, running');
    DoneSumStep(entries, order, weighted, 0.0, p, order[p].target, |entries|);
  }

  lemma SweptStop(entries: seq<Target>, order: seq<Event>, p: nat, running: map<nat, real>,
                  time: real, total: real, weighted: seq<real>,
                  running': map<nat, real>, time': real, w: real, weighted': seq<real>)
    requires Schedule(entries, order) && p < |order| && Swept(entries, order, p, running, time, total, weighted)
    requires order[p].stop && order[p].target in running && order[p].target < |entries|
    requires time' == Tick(order, p, running, time) && w == time' - running[order[p].target]
    requires running' == running - {order[p].target} && weighted' == weighted[order[p].target := w]
    ensures Swept(entries, order, p + 1, running', time', total + w, weighted')
  {
    SweptGap(entries, order, p, running, time, total, weighted);
    hide RunningOk, WeightsOk, DoneSum, Schedule, Seen, Tick;
    EventInside(entries, order, p);
    StopStep(entries, order, p, order[p].target, running, time', weighted, w, running', weighted');
    DoneSumStep(entries, order, weighted, w, p, order[p].target, |entries|);
  }

  /** A stop whose target is not running belongs to a target that ends before it starts. */
  lemma SweptMissing(entries: seq<Target>, order: seq<Event>, p: nat, running: map<nat, real>,
                     time: real, total: real, weighted: seq<real>)
    requires Schedule(entries, order) && p < |order| && Swept(entries, order, p, running, time, total, weighted)
    requires order[p].stop && order[p].target !in running
    ensures order[p].target < |entries|
    ensures entries[order[p].target].end < entries[order[p].target].start
  {
    hide WeightsOk, DoneSum, Schedule, Seen;
    EventInside(entries, order, p);
    SeenBefore(entries, order, p, order[p].target);
    NotSeenYet(entries, order, p);
    NotRunning(entries, order, p, order[p].target, running);
  }

  lemma SweptEnd(entries: seq<Target>, order: seq<Event>, running: map<nat, real>,
                 time: real, total: real, weighted: seq<real>)
    requires Schedule(entries, order) && Swept(entries, order, |order|, running, time, total, weighted)
    ensures |running| == 0
    ensures forall i | 0 <= i < |entries| :: entries[i].start <= entries[i].end
    ensures forall i | 0 <= i < |entries| :: weighted[i] == Share(entries, order, i, |order| - 1)
    ensures forall i | 0 <= i < |entries| :: 0.0 <= weighted[i] <= entries[i].end - entries[i].start
    ensures total == Busy(entries, order, |order| - 1)
  {
    hide RunningOk, WeightsOk, DoneSum, Schedule, Share, Busy;
    forall i | 0 <= i < |entries|
      ensures entries[i].start <= entries[i].end && weighted[i] == Share(entries, order, i, |order| - 1)
      ensures 0.0 <= weighted[i] <= entries[i].end - entries[i].start
    {
      FinalWeight(entries, order, running, time, weighted, i);
    }
    RunningEndsEmpty(entries, order, running);
    FinalTotal(entries, order, weighted);
  }

  lemma SweptFirst(entries: seq<Target>, order: seq<Event>, p: nat, running: map<nat, real>,
                   time: real, total: real, weighted: seq<real>)
    requires Swept(entries, order, p, running, time, total, weighted)
    ensures p == 0 ==> |running| == 0
  {
    if p == 0 { NothingRuns(entries, order, running); }
  }

  datatype Result = NoEvents | MissingTask(target: nat) | Weighted(total: real)

  /**
   The event loop. It fails exactly on an empty list or on a target that ends before it starts;
   otherwise every target gets exactly its share, and the total is the busy time.
   */
  method Sweep(entries: seq<Target>, order: seq<Event>, weighted: array<real>) returns (r: Result)
    requires Schedule(entries, order) && weighted.Length == |entries|
    modifies weighted
    ensures r.NoEvents? <==> entries == []
    ensures r.MissingTask? ==> r.target < |entries| && entries[r.target].end < entries[r.target].start
    ensures r.Weighted? ==> forall i | 0 <= i < |entries| :: entries[i].start <= entries[i].end
    ensures r.Weighted? ==>
              && |order| > 0
              && (forall i | 0 <= i < |entries| :: weighted[i] == Share(entries, order, i, |order| - 1))
              && (forall i | 0 <= i < |entries| :: 0.0 <= weighted[i] <= entries[i].end - entries[i].start)
              && r.total == Busy(entries, order, |order| - 1)
  {
    hide *;
    SomeEvent(entries, order);
    if order == [] {
      return NoEvents;
    }
    var running: map<nat, real> := map[];
    var lastTime := order[0].time;
    var lastWeightedTime := 0.0;
    var weightedTotal := 0.0;
    SweepStart(entries, order, weighted[..]);
    var p := 0;
    while p < |order|
      invariant p <= |order| && (p > 0 ==> lastTime == order[p - 1].time)
      invariant Swept(entries, order, p, running, lastWeightedTime, weightedTotal, weighted[..])
    {
      var event := order[p];
      EventInside(entries, order, p);
      SweptFirst(entries, order, p, running, lastWeightedTime, weightedTotal, weighted[..]);
      ghost var before := lastWeightedTime;
      if |running| > 0 {
        lastWeightedTime := lastWeightedTime + PerTask(event.time - lastTime, |running|);
      }
      TickIs(order, p, running, lastTime, before, lastWeightedTime);
      if !event.stop {
        SweptStart(entries, order, p, running, before, weightedTotal, weighted[..],
                   running[event.target := lastWeightedTime], lastWeightedTime);
        running := running[event.target := lastWeightedTime];
      } else if event.target !in running {
        SweptMissing(entries, order, p, running, before, weightedTotal, weighted[..]);
        return MissingTask(event.target);
      } else {
        var weightedDuration := lastWeightedTime - running[event.target];
        SweptStop(entries, order, p, running, before, weightedTotal, weighted[..], running - {event.target},
                  lastWeightedTime, weightedDuration, weighted[..][event.target := weightedDuration]);
        StoreAt(weighted, event.target, weightedDuration);
        weightedTotal := weightedTotal + weightedDuration;
        running := running - {event.target};
      }
      lastTime := event.time;
      p := p + 1;
    }
    SweptEnd(entries, order, running, lastWeightedTime, weightedTotal, weighted[..]);
    assert |running| == 0;
    return Weighted(weightedTotal);
  }


  method StoreAt(a: array<real>, i: nat, x: real)
    requires i < a.Length
    modifies a
    ensures a[..] == old(a[..])[i := x]
  {
    a[i] := x;
  }

  lemma TickIs(order: seq<Event>, p: nat, running: map<nat, real>, lastTime: real, time: real, time': real)
    requires p < |order| && (if p == 0 then |running| == 0 else lastTime == order[p - 1].time)
    requires time' == if |running| > 0 then time + PerTask(order[p].time - lastTime, |running|) else time
    ensures time' == Tick(order, p, running, time)
  {
  }

  // ----- the whole report header

  function CpuTime(entries: seq<Target>): real {
    if entries == [] then 0.0
    else CpuTime(entries[..|entries| - 1]) + entries[|entries| - 1].end - entries[|entries| - 1].start
  }

  /** The first pass over the targets: earliest start, latest end and summed durations. */
  method Extent(entries: seq<Target>) returns (earliest: real, latest: real, cpu: real)
    ensures cpu == CpuTime(entries)
    ensures latest >= 0.0 && forall i | 0 <= i < |entries| :: entries[i].end <= latest
    ensures latest == 0.0 || exists i :: 0 <= i < |entries| && entries[i].end == latest
    ensures entries != [] && (forall i | 0 <= i < |entries| :: 0.0 <= entries[i].start) ==>
              && (forall i | 0 <= i < |entries| :: earliest <= entries[i].start)
              && (exists i :: 0 <= i < |entries| && entries[i].start == earliest)
  {
    earliest, latest, cpu := -1.0, 0.0, 0.0;
    var k := 0;
    while k < |entries|
      invariant k <= |entries| && cpu == CpuTime(entries[..k])
      invariant latest >= 0.0 && forall i | 0 <= i < k :: entries[i].end <= latest
      invariant latest == 0.0 || exists i :: 0 <= i < k && entries[i].end == latest
      invariant (forall i | 0 <= i < |entries| :: 0.0 <= entries[i].start) ==>
                  if k == 0 then earliest < 0.0
                  else
                    && 0.0 <= earliest
                    && (forall i | 0 <= i < k :: earliest <= entries[i].start)
                    && (exists i :: 0 <= i < k && entries[i].start == earliest)
    {
      var target := entries[k];
      if earliest < 0.0 || target.start < earliest { earliest := target.start; }
      if target.end > latest { latest := target.end; }
      cpu := cpu + (target.end - target.start);
      assert entries[..k + 1][..k] == entries[..k];
      k := k + 1;
    }
    assert entries[..k] == entries;
  }

  /** The first event is the earliest start and the last event is the latest end. */
  lemma EventExtent(entries: seq<Target>, order: seq<Event>, earliest: real, latest: real)
    requires Schedule(entries, order) && entries != [] && order != []
    requires forall i | 0 <= i < |entries| :: entries[i].start <= entries[i].end
    requires forall i | 0 <= i < |entries| :: earliest <= entries[i].start && entries[i].end <= latest
    requires exists i :: 0 <= i < |entries| && entries[i].start == earliest
    requires exists i :: 0 <= i < |entries| && entries[i].end == latest
    ensures order[0].time == earliest && order[|order| - 1].time == latest
  {
    hide Seen;
    var i :| 0 <= i < |entries| && entries[i].start == earliest;
    var j :| 0 <= j < |entries| && entries[j].end == latest;
    EventInside(entries, order, 0);
    EventInside(entries, order, |order| - 1);
    EventBetween(entries, order, EventFor(entries, i, false));
    EventBetween(entries, order, EventFor(entries, j, true));
  }

  lemma EventBetween(entries: seq<Target>, order: seq<Event>, e: Event)
    requires Schedule(entries, order) && Seen(order, |order|, e)
    ensures order[0].time <= e.time <= order[|order| - 1].time
  {
    var q :| 0 <= q < |order| && order[q] == e;
    assert 0 < q ==> Before(order[0], order[q]);
    assert q < |order| - 1 ==> Before(order[q], order[|order| - 1]);
  }

  /**
   What the report compares: the length of the build exceeds the weighted total by exactly the time
   during which nothing ran.
   */
  method Summarize(entries: seq<Target>, order: seq<Event>, weighted: array<real>)
    returns (r: Result, length: real, cpu: real)
    requires Ordering(entries, order) && weighted.Length == |entries|
    modifies weighted
    ensures r.NoEvents? <==> entries == []
    ensures r.MissingTask? <==> exists i :: 0 <= i < |entries| && entries[i].end < entries[i].start
    ensures cpu == CpuTime(entries)
    ensures r.Weighted? ==>
              order != [] && forall i | 0 <= i < |entries| :: weighted[i] == Share(entries, order, i, |order| - 1)
    ensures r.Weighted? && (forall i | 0 <= i < |entries| :: 0.0 <= entries[i].start) ==>
              && order != []
              && length == r.total + Idle(entries, order, |order| - 1)
              && 0.0 <= r.total <= length
  {
    OrderingIsSchedule(entries, order);
    hide Ordering, Schedule, Share, Busy, Idle, CpuTime;
    var earliest, latest;
    earliest, latest, cpu := Extent(entries);
    length := latest - earliest;
    r := Sweep(entries, order, weighted);
    if r.Weighted? && forall i | 0 <= i < |entries| :: 0.0 <= entries[i].start {
      LatestIsAnEnd(entries, latest);
      EventExtent(entries, order, earliest, latest);
      ScheduleSorted(entries, order);
      BusyPlusIdle(entries, order, |order| - 1);
    }
  }

  lemma LatestIsAnEnd(entries: seq<Target>, latest: real)
    requires entries != [] && forall i | 0 <= i < |entries| :: 0.0 <= entries[i].start <= entries[i].end <= latest
    requires latest == 0.0 || exists i :: 0 <= i < |entries| && entries[i].end == latest
    ensures exists i :: 0 <= i < |entries| && entries[i].end == latest
  {
    if latest == 0.0 { assert entries[0].end == latest; }
  }
}
