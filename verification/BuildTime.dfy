/** What the sweep adds up, counted independently: a log holds whole milliseconds, and the weighted
    durations sum to the number of milliseconds in which at least one build step was running. */
module BuildTime {
  import opened BuildSweep
  import opened BuildLog

  /** The log's milliseconds as the seconds the sweep works with. */
  function Seconds(ms: int): real {
    ms as real / 1000.0
  }

  function TasksOf(ts: seq<Target>): (tasks: seq<Task>)
    ensures |tasks| == |ts|
  {
    seq(|ts|, i requires 0 <= i < |ts| => Task(Seconds(ts[i].start), Seconds(ts[i].end)))
  }

  predicate ValidTargets(ts: seq<Target>) {
    forall i :: 0 <= i < |ts| ==> 0 <= ts[i].start <= ts[i].end
  }

  predicate During(t: Target, m: int) {
    t.start <= m < t.end
  }

  /** Some step runs during millisecond `m`. */
  predicate Runs(ts: seq<Target>, m: int) {
    exists i :: 0 <= i < |ts| && During(ts[i], m)
  }

  function Busy(ts: seq<Target>, from: int, to: int): set<int> {
    set m | from <= m < to && Runs(ts, m)
  }

  function Millis(ts: seq<Target>, e: Event): int
    requires e.task < |ts|
  {
    if e.stop then ts[e.task].end else ts[e.task].start
  }

  lemma {:induction false} SecondsOrder(a: int, b: int)
    ensures Seconds(a) <= Seconds(b) <==> a <= b
    ensures Seconds(b) - Seconds(a) == Seconds(b - a)
  {
  }

  lemma {:induction false} AllBusy(ts: seq<Target>, a: int, b: int)
    requires a <= b && forall m :: a <= m < b ==> Runs(ts, m)
    ensures |Busy(ts, a, b)| == b - a
    decreases b - a
  {
    if a < b {
      AllBusy(ts, a, b - 1);
      assert Runs(ts, b - 1);
      assert Busy(ts, a, b) == Busy(ts, a, b - 1) + {b - 1};
    } else {
      assert Busy(ts, a, b) == {};
    }
  }

  /** An event of a schedule and its time in milliseconds. */
  lemma {:induction false} EventTime(ts: seq<Target>, es: seq<Event>, k: nat)
    requires Schedule(TasksOf(ts), es) && k < |es|
    ensures es[k].task < |ts| && es[k].time == Seconds(Millis(ts, es[k]))
  {
    assert es[k] in es;
  }

  /** No step starts or stops strictly between two neighbouring events. */
  lemma {:induction false} NothingBetween(ts: seq<Target>, es: seq<Event>, k: nat, i: nat)
    requires Schedule(TasksOf(ts), es) && 0 < k < |es| && i < |ts| && es[k - 1].task < |ts| && es[k].task < |ts|
    ensures var a, b := Millis(ts, es[k - 1]), Millis(ts, es[k]);
      (ts[i].start <= a || ts[i].start >= b) && (ts[i].end <= a || ts[i].end >= b)
  {
    var tasks := TasksOf(ts);
    EventTime(ts, es, k - 1);
    EventTime(ts, es, k);
    forall e | e == StartOf(tasks, i) || e == StopOf(tasks, i)
      ensures e.time <= es[k - 1].time || e.time >= es[k].time
    {
      assert EventOf(tasks, e, |tasks|);
      var j := ScheduledAt(tasks, es, e);
      if j < k - 1 {
        InOrder(tasks, es, j, k - 1);
      } else if j > k {
        InOrder(tasks, es, k, j);
      }
    }
    assert StartOf(tasks, i).time == Seconds(ts[i].start) && StopOf(tasks, i).time == Seconds(ts[i].end);
    SecondsOrder(ts[i].start, Millis(ts, es[k - 1]));
    SecondsOrder(Millis(ts, es[k]), ts[i].start);
    SecondsOrder(ts[i].end, Millis(ts, es[k - 1]));
    SecondsOrder(Millis(ts, es[k]), ts[i].end);
  }

  /** A segment is busy all through or not at all. */
  lemma {:induction false} SegmentIsBusy(ts: seq<Target>, es: seq<Event>, k: nat)
    requires ValidTargets(ts) && Schedule(TasksOf(ts), es) && 0 < k < |es| && es[k - 1].task < |ts| && es[k].task < |ts|
    ensures var a, b := Millis(ts, es[k - 1]), Millis(ts, es[k]);
      a <= b && Segment(TasksOf(ts), es[k - 1].time, es[k].time) == Seconds(|Busy(ts, a, b)|)
  {
    hide Seconds, Schedule;
    var tasks := TasksOf(ts);
    var a, b := Millis(ts, es[k - 1]), Millis(ts, es[k]);
    EventTime(ts, es, k - 1);
    EventTime(ts, es, k);
    InOrder(tasks, es, k - 1, k);
    SecondsOrder(a, b);
    if Covered(tasks, Seconds(a), Seconds(b)) {
      var i :| 0 <= i < |tasks| && tasks[i].start <= Seconds(a) && Seconds(b) <= tasks[i].end;
      SecondsOrder(ts[i].start, a);
      SecondsOrder(b, ts[i].end);
      forall m | a <= m < b ensures Runs(ts, m) {
        assert During(ts[i], m);
      }
      AllBusy(ts, a, b);
    } else {
      forall m | a <= m < b ensures !Runs(ts, m) {
        forall i | 0 <= i < |ts| ensures !During(ts[i], m) {
          NothingBetween(ts, es, k, i);
          assert !(tasks[i].start <= Seconds(a) && Seconds(b) <= tasks[i].end);
          SecondsOrder(ts[i].start, a);
          SecondsOrder(b, ts[i].end);
        }
      }
      assert Busy(ts, a, b) == {};
      assert Seconds(0) == 0.0 by { SecondsOrder(0, 0); }
    }
  }

  lemma {:induction false} CoveredIsBusy(ts: seq<Target>, es: seq<Event>, k: nat)
    requires ValidTargets(ts) && Schedule(TasksOf(ts), es) && 0 < k <= |es|
    ensures es[0].task < |ts| && es[k - 1].task < |ts|
    ensures var lo, hi := Millis(ts, es[0]), Millis(ts, es[k - 1]);
      lo <= hi && CoveredLength(TasksOf(ts), es, k) == Seconds(|Busy(ts, lo, hi)|)
  {
    hide Segment, Schedule, Runs;
    EventTime(ts, es, 0);
    EventTime(ts, es, k - 1);
    var lo, hi := Millis(ts, es[0]), Millis(ts, es[k - 1]);
    if k == 1 {
      assert Busy(ts, lo, hi) == {};
    } else {
      CoveredIsBusy(ts, es, k - 1);
      SegmentIsBusy(ts, es, k - 1);
      var mid := Millis(ts, es[k - 2]);
      assert Busy(ts, lo, hi) == Busy(ts, lo, mid) + Busy(ts, mid, hi);
      assert Busy(ts, lo, mid) !! Busy(ts, mid, hi);
    }
  }

  /** All milliseconds in which some step runs. */
  ghost function BusyMillis(ts: seq<Target>): set<int> {
    set i, m | 0 <= i < |ts| && ts[i].start <= m < ts[i].end && During(ts[i], m) :: m
  }

  /** For every non-empty build read from a log, the time the sweep distributes is the number of
      milliseconds in which some step runs. */
  lemma {:induction false} SweptTimeIsBusyTime(ts: seq<Target>)
    requires ValidTargets(ts) && ts != []
    ensures var tasks := TasksOf(ts);
      var es := Sort(EventsOf(tasks, |tasks|));
      ValidTasks(tasks) && CoveredLength(tasks, es, |es|) == Seconds(|BusyMillis(ts)|)
  {
    hide CoveredLength, EventsOf, Sort;
    var tasks := TasksOf(ts);
    var es := Sort(EventsOf(tasks, |tasks|));
    SortedEventsSchedule(tasks);
    InsideSpan(ts, es, 0);
    CoveredIsBusy(ts, es, |es|);
    EventTime(ts, es, 0);
    EventTime(ts, es, |es| - 1);
    var lo, hi := Millis(ts, es[0]), Millis(ts, es[|es| - 1]);
    forall m ensures m in BusyMillis(ts) <==> m in Busy(ts, lo, hi) {
      if m in BusyMillis(ts) {
        var i :| 0 <= i < |ts| && During(ts[i], m);
        InsideSpan(ts, es, i);
        SecondsOrder(lo, ts[i].start);
        SecondsOrder(ts[i].end, hi);
        assert Runs(ts, m);
      }
    }
    assert BusyMillis(ts) == Busy(ts, lo, hi);
  }

  // ----- what one step is due, millisecond by millisecond

  /** Steps that run during millisecond `m`. */
  function Running(ts: seq<Target>, m: int): set<nat> {
    set i: nat | i < |ts| && During(ts[i], m)
  }

  /** Every millisecond of step `i` counted as one over the number of steps running in it. */
  function Weighted(ts: seq<Target>, i: nat, a: int, b: int): real
    requires i < |ts|
    decreases b - a
  {
    if a >= b then 0.0
    else Weighted(ts, i, a, b - 1) + if i in Running(ts, b - 1) then 1.0 / |Running(ts, b - 1)| as real else 0.0
  }

  lemma {:induction false} WeightedJoin(ts: seq<Target>, i: nat, a: int, b: int, c: int)
    requires i < |ts| && a <= b <= c
    ensures Weighted(ts, i, a, c) == Weighted(ts, i, a, b) + Weighted(ts, i, b, c)
    decreases c - b
  {
    hide Running;
    if b < c {
      WeightedJoin(ts, i, a, b, c - 1);
    }
  }

  lemma {:induction false} WeightedNothing(ts: seq<Target>, i: nat, a: int, b: int)
    requires i < |ts| && forall m :: a <= m < b ==> !During(ts[i], m)
    ensures Weighted(ts, i, a, b) == 0.0
    decreases b - a
  {
    if a < b {
      WeightedNothing(ts, i, a, b - 1);
      assert i !in Running(ts, b - 1);
    }
  }

  /** As long as the same steps run, `i` among them, it gains the same every millisecond. */
  lemma {:induction false} WeightedEvenly(ts: seq<Target>, i: nat, a: int, b: int, on: set<nat>)
    requires i < |ts| && a <= b && i in on && forall m :: a <= m < b ==> Running(ts, m) == on
    ensures Weighted(ts, i, a, b) == (b - a) as real / |on| as real
    decreases b - a
  {
    hide Running;
    var n := |on| as real;
    if a < b {
      WeightedEvenly(ts, i, a, b - 1, on);
      assert Running(ts, b - 1) == on;
      Quotients((b - 1 - a) as real, n);
    }
  }

  lemma {:induction false} Quotients(x: real, n: real)
    requires n > 0.0
    ensures x / n + 1.0 / n == (x + 1.0) / n && x / 1000.0 / n == x / n / 1000.0
  {
  }

  /** Between neighbouring events a step's equal part is its weighted milliseconds. */
  lemma {:induction false} PartIsWeighted(ts: seq<Target>, es: seq<Event>, k: nat, i: nat)
    requires ValidTargets(ts) && Schedule(TasksOf(ts), es) && 0 < k < |es| && i < |ts|
    requires es[k - 1].task < |ts| && es[k].task < |ts|
    ensures var a, b := Millis(ts, es[k - 1]), Millis(ts, es[k]);
      a <= b && Part(TasksOf(ts), es[k - 1].time, es[k].time, i) == Weighted(ts, i, a, b) / 1000.0
  {
    hide Schedule, Weighted;
    var tasks := TasksOf(ts);
    var a, b := Millis(ts, es[k - 1]), Millis(ts, es[k]);
    EventTime(ts, es, k - 1);
    EventTime(ts, es, k);
    InOrder(tasks, es, k - 1, k);
    SecondsOrder(a, b);
    var on := Crowd(tasks, es[k - 1].time, es[k].time);
    forall m, j: nat | a <= m < b && j < |ts| ensures During(ts[j], m) <==> j in on {
      NothingBetween(ts, es, k, j);
      SecondsOrder(ts[j].start, a);
      SecondsOrder(b, ts[j].end);
    }
    if i in on {
      forall m | a <= m < b ensures Running(ts, m) == on {
      }
      WeightedEvenly(ts, i, a, b, on);
      Quotients((b - a) as real, |on| as real);
    } else {
      WeightedNothing(ts, i, a, b);
    }
  }

  lemma {:induction false} DueIsWeightedSoFar(ts: seq<Target>, es: seq<Event>, k: nat, i: nat)
    requires ValidTargets(ts) && Schedule(TasksOf(ts), es) && 0 < k <= |es| && i < |ts|
    ensures es[0].task < |ts| && es[k - 1].task < |ts|
    ensures var lo, hi := Millis(ts, es[0]), Millis(ts, es[k - 1]);
      lo <= hi && Due(TasksOf(ts), es, k, i) == Weighted(ts, i, lo, hi) / 1000.0
  {
    hide Part, Schedule, Running;
    EventTime(ts, es, 0);
    EventTime(ts, es, k - 1);
    if k > 1 {
      DueIsWeightedSoFar(ts, es, k - 1, i);
      PartIsWeighted(ts, es, k - 1, i);
      WeightedJoin(ts, i, Millis(ts, es[0]), Millis(ts, es[k - 2]), Millis(ts, es[k - 1]));
    }
  }

  /** For every build read from a log and every step of it: the weighted duration the sweep must give it
      is the sum, over its milliseconds, of one over the number of steps running in each. */
  lemma {:induction false} DueIsWeightedTime(ts: seq<Target>, i: nat)
    requires ValidTargets(ts) && i < |ts|
    ensures var tasks := TasksOf(ts);
      var es := Sort(EventsOf(tasks, |tasks|));
      Due(tasks, es, |es|, i) == Weighted(ts, i, ts[i].start, ts[i].end) / 1000.0
  {
    hide Due, EventsOf, Sort, Running, Weighted;
    var tasks := TasksOf(ts);
    var es := Sort(EventsOf(tasks, |tasks|));
    SortedEventsSchedule(tasks);
    InsideSpan(ts, es, i);
    DueIsWeightedSoFar(ts, es, |es|, i);
    EventTime(ts, es, 0);
    EventTime(ts, es, |es| - 1);
    var lo, hi := Millis(ts, es[0]), Millis(ts, es[|es| - 1]);
    SecondsOrder(lo, ts[i].start);
    SecondsOrder(ts[i].end, hi);
    WeightedNothing(ts, i, lo, ts[i].start);
    WeightedNothing(ts, i, ts[i].end, hi);
    WeightedJoin(ts, i, lo, ts[i].start, ts[i].end);
    WeightedJoin(ts, i, lo, ts[i].end, hi);
  }

  /** Milliseconds between `from` and `to` in which no step runs. */
  function Quiet(ts: seq<Target>, from: int, to: int): set<int> {
    set m | from <= m < to && !Runs(ts, m)
  }

  lemma {:induction false} BusyOrQuiet(ts: seq<Target>, a: int, b: int)
    requires a <= b
    ensures |Busy(ts, a, b)| + |Quiet(ts, a, b)| == b - a
    decreases b - a
  {
    if a < b {
      BusyOrQuiet(ts, a, b - 1);
      OneMilliMore(ts, a, b - 1);
    } else {
      assert Busy(ts, a, b) == {} && Quiet(ts, a, b) == {};
    }
  }

  lemma {:induction false} OneMilliMore(ts: seq<Target>, a: int, m: int)
    requires a <= m
    ensures |Busy(ts, a, m + 1)| == |Busy(ts, a, m)| + if Runs(ts, m) then 1 else 0
    ensures |Quiet(ts, a, m + 1)| == |Quiet(ts, a, m)| + if Runs(ts, m) then 0 else 1
  {
    hide Runs;
    assert m !in Busy(ts, a, m) && m !in Quiet(ts, a, m);
    if Runs(ts, m) {
      assert Busy(ts, a, m + 1) == Busy(ts, a, m) + {m};
      assert Quiet(ts, a, m + 1) == Quiet(ts, a, m);
    } else {
      assert Busy(ts, a, m + 1) == Busy(ts, a, m);
      assert Quiet(ts, a, m + 1) == Quiet(ts, a, m) + {m};
    }
  }

  /** The warning about a build read from a log comes exactly when there are more than half a million
      milliseconds between its first start `lo` and its last stop `hi` in which no step runs. */
  lemma {:induction false} WarnsIffLongIdle(ts: seq<Target>, lo: int, hi: int)
    requires ValidTargets(ts) && ts != []
    requires (forall i :: 0 <= i < |ts| ==> lo <= ts[i].start) && (exists i :: 0 <= i < |ts| && ts[i].start == lo)
    requires (forall i :: 0 <= i < |ts| ==> ts[i].end <= hi) && (exists i :: 0 <= i < |ts| && ts[i].end == hi)
    ensures var tasks := TasksOf(ts);
      var es := Sort(EventsOf(tasks, |tasks|));
      && IdleLength(tasks, es, |es|) == Seconds(|Quiet(ts, lo, hi)|)
      && (IdleLength(tasks, es, |es|) > 500.0 <==> |Quiet(ts, lo, hi)| > 500000)
  {
    hide CoveredLength, IdleLength, EventsOf, Sort, Busy, Quiet;
    var tasks := TasksOf(ts);
    var es := Sort(EventsOf(tasks, |tasks|));
    SortedEventsSchedule(tasks);
    var i :| 0 <= i < |ts| && ts[i].start == lo;
    var j :| 0 <= j < |ts| && ts[j].end == hi;
    assert tasks[i].start == Seconds(lo) && tasks[j].end == Seconds(hi);
    SpanOfSchedule(tasks, es, Seconds(lo), Seconds(hi));
    EventTime(ts, es, 0);
    EventTime(ts, es, |es| - 1);
    SecondsOrder(Millis(ts, es[0]), lo);
    SecondsOrder(lo, Millis(ts, es[0]));
    SecondsOrder(Millis(ts, es[|es| - 1]), hi);
    SecondsOrder(hi, Millis(ts, es[|es| - 1]));
    CoveredIsBusy(ts, es, |es|);
    IdleIsTheRest(tasks, es, |es|);
    BusyOrQuiet(ts, lo, hi);
    SecondsOrder(|Busy(ts, lo, hi)|, hi - lo);
  }

  lemma {:induction false} InsideSpan(ts: seq<Target>, es: seq<Event>, i: nat)
    requires Schedule(TasksOf(ts), es) && i < |ts|
    ensures es != [] && es[0].time <= TasksOf(ts)[i].start && TasksOf(ts)[i].end <= es[|es| - 1].time
  {
    var tasks := TasksOf(ts);
    assert EventOf(tasks, StartOf(tasks, i), |tasks|) && EventOf(tasks, StopOf(tasks, i), |tasks|);
    var a := ScheduledAt(tasks, es, StartOf(tasks, i));
    var b := ScheduledAt(tasks, es, StopOf(tasks, i));
    assert 0 < a ==> Before(es[0], es[a]);
    assert b < |es| - 1 ==> Before(es[b], es[|es| - 1]);
  }
}
