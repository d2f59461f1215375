/** `SummarizeEntries`: one sweep over the start and stop events of a build shares every moment
    equally among the tasks running in it. Tasks are told apart by their index. */
module BuildSweep {
  import opened Sequences

  datatype Task = Task(start: real, end: real)
  {
    function Duration(): real {
      end - start
    }
  }

  /** Start of task `i`, or its stop. */
  datatype Event = Event(time: real, stop: bool, task: nat)

  predicate ValidTasks(tasks: seq<Task>) {
    forall i :: 0 <= i < |tasks| ==> 0.0 <= tasks[i].start <= tasks[i].end
  }

  function StartOf(tasks: seq<Task>, i: nat): Event
    requires i < |tasks|
  {
    Event(tasks[i].start, false, i)
  }

  function StopOf(tasks: seq<Task>, i: nat): Event
    requires i < |tasks|
  {
    Event(tasks[i].end, true, i)
  }

  /** Sort key: time, then "start" before "stop". */
  predicate Before(a: Event, b: Event) {
    a.time < b.time || (a.time == b.time && (!a.stop || b.stop))
  }

  predicate Sorted(es: seq<Event>) {
    forall i, j :: 0 <= i < j < |es| ==> Before(es[i], es[j])
  }

  /** Both events of the first `n` tasks in task order. */
  function EventsOf(tasks: seq<Task>, n: nat): seq<Event>
    requires n <= |tasks|
  {
    if n == 0 then [] else EventsOf(tasks, n - 1) + [StartOf(tasks, n - 1), StopOf(tasks, n - 1)]
  }

  /** Insert behind everything that may come before, as a stable sort does. */
  function Insert(es: seq<Event>, e: Event): seq<Event> {
    if es == [] || Before(es[|es| - 1], e) then es + [e]
    else Insert(es[..|es| - 1], e) + [es[|es| - 1]]
  }

  function Sort(es: seq<Event>): seq<Event> {
    if es == [] then [] else Insert(Sort(es[..|es| - 1]), es[|es| - 1])
  }

  ghost predicate Distinct(es: seq<Event>) {
    forall i, j :: 0 <= i < j < |es| ==> es[i] != es[j]
  }

  lemma {:induction false} InsertShape(es: seq<Event>, e: Event)
    requires Sorted(es) && Distinct(es) && e !in es
    ensures Sorted(Insert(es, e)) && Distinct(Insert(es, e))
    ensures forall x :: x in Insert(es, e) <==> x in es || x == e
    decreases |es|
  {
    if es != [] && !Before(es[|es| - 1], e) {
      var init, last := es[..|es| - 1], es[|es| - 1];
      InsertShape(init, e);
      assert es == init + [last];
      assert forall x :: x in init ==> Before(x, last) && x != last;
    }
  }

  /** Sorting keeps the events, each once. */
  lemma {:induction false} SortShape(es: seq<Event>)
    requires Distinct(es)
    ensures Sorted(Sort(es)) && Distinct(Sort(es))
    ensures forall x :: x in Sort(es) <==> x in es
  {
    if es != [] {
      hide Insert;
      var init, last := es[..|es| - 1], es[|es| - 1];
      SortShape(init);
      InsertShape(Sort(init), last);
      assert es == init + [last];
    }
  }

  // ----- schedules

  /** The two events of a task. */
  predicate EventOf(tasks: seq<Task>, e: Event, n: nat)
    requires n <= |tasks|
  {
    e.task < n && e == if e.stop then StopOf(tasks, e.task) else StartOf(tasks, e.task)
  }

  /** Sorted, and every task's two events occur exactly once each. */
  ghost predicate Schedule(tasks: seq<Task>, es: seq<Event>) {
    && Sorted(es) && Distinct(es)
    && (forall e :: e in es <==> EventOf(tasks, e, |tasks|))
  }

  lemma {:induction false} EventsAreAll(tasks: seq<Task>, n: nat)
    requires n <= |tasks|
    ensures Distinct(EventsOf(tasks, n))
    ensures forall e :: e in EventsOf(tasks, n) <==> EventOf(tasks, e, n)
  {
    if n > 0 {
      EventsAreAll(tasks, n - 1);
      var s, t := StartOf(tasks, n - 1), StopOf(tasks, n - 1);
      assert s !in EventsOf(tasks, n - 1) && t !in EventsOf(tasks, n - 1);
    }
  }

  /** The sorted event list is a schedule. */
  lemma {:induction false} SortedEventsSchedule(tasks: seq<Task>)
    ensures Schedule(tasks, Sort(EventsOf(tasks, |tasks|)))
  {
    hide EventsOf, Sort, Distinct, Sorted;
    EventsAreAll(tasks, |tasks|);
    SortShape(EventsOf(tasks, |tasks|));
  }

  // ----- time covered by at least one task

  /** Some task runs throughout `a .. b`. */
  predicate Covered(tasks: seq<Task>, a: real, b: real) {
    exists i :: 0 <= i < |tasks| && tasks[i].start <= a && b <= tasks[i].end
  }

  function Segment(tasks: seq<Task>, a: real, b: real): real {
    if Covered(tasks, a, b) then b - a else 0.0
  }

  /** Length of the union of all task intervals, summed over the segments between the first `k`
      event times. Inside a segment no task starts or stops. */
  function CoveredLength(tasks: seq<Task>, es: seq<Event>, k: nat): real
    requires k <= |es|
  {
    if k < 2 then 0.0 else CoveredLength(tasks, es, k - 1) + Segment(tasks, es[k - 2].time, es[k - 1].time)
  }

  // ----- what each task is due

  /** Tasks that run throughout `a .. b`. */
  function Crowd(tasks: seq<Task>, a: real, b: real): set<nat> {
    set i: nat | i < |tasks| && tasks[i].start <= a && b <= tasks[i].end
  }

  /** Task `i`'s equal part of `a .. b`, if it runs throughout. */
  function Part(tasks: seq<Task>, a: real, b: real, i: nat): real {
    if i in Crowd(tasks, a, b) then (b - a) / |Crowd(tasks, a, b)| as real else 0.0
  }

  /** The weighted duration of task `i`, from the intervals alone: its equal parts of the segments
      between the first `k` event times. */
  function Due(tasks: seq<Task>, es: seq<Event>, k: nat, i: nat): real
    requires k <= |es|
  {
    if k < 2 then 0.0 else Due(tasks, es, k - 1, i) + Part(tasks, es[k - 2].time, es[k - 1].time, i)
  }

  // ----- sums over tasks

  function SumTo(s: seq<real>, n: nat): real
    requires n <= |s|
  {
    if n == 0 then 0.0 else SumTo(s, n - 1) + s[n - 1]
  }

  /** `n * d` by repeated addition. */
  function Scale(n: nat, d: real): real {
    if n == 0 then 0.0 else Scale(n - 1, d) + d
  }

  lemma {:induction false} ScaleIsProduct(n: nat, d: real)
    ensures Scale(n, d) == n as real * d
  {
    if n > 0 {
      ScaleIsProduct(n - 1, d);
      assert n as real * d == (n - 1) as real * d + d;
    }
  }

  lemma {:induction false} ScaleShares(n: nat, x: real)
    requires n > 0
    ensures Scale(n, x / n as real) == x
  {
    ScaleIsProduct(n, x / n as real);
  }

  /** Members of `on` below `n`. */
  function Below(on: set<nat>, n: nat): nat {
    if n == 0 then 0 else Below(on, n - 1) + if n - 1 in on then 1 else 0
  }

  lemma {:induction false} BelowIsSize(on: set<nat>, n: nat)
    requires forall i :: i in on ==> i < n
    ensures Below(on, n) == |on|
  {
    if n > 0 {
      var rest := on - {n - 1};
      BelowIsSize(rest, n - 1);
      SameBelow(on, rest, n - 1);
      if n - 1 in on {
        assert on == rest + {n - 1};
      } else {
        assert on == rest;
      }
    } else {
      assert on == {};
    }
  }

  lemma {:induction false} SameBelow(a: set<nat>, b: set<nat>, n: nat)
    requires forall i: nat :: i < n ==> (i in a <==> i in b)
    ensures Below(a, n) == Below(b, n)
  {
    if n > 0 {
      SameBelow(a, b, n - 1);
    }
  }

  /** Raising `d` on the indices of a set raises the sum by the size of the set times `d`. */
  lemma {:induction false} SumRaised(s: seq<real>, t: seq<real>, on: set<nat>, d: real, n: nat)
    requires n <= |s| == |t|
    requires forall i :: 0 <= i < n ==> t[i] == s[i] + if i in on then d else 0.0
    ensures SumTo(t, n) == SumTo(s, n) + Scale(Below(on, n), d)
  {
    if n > 0 {
      SumRaised(s, t, on, d, n - 1);
    }
  }

  // ----- order of events

  lemma {:induction false} ScheduledAt(tasks: seq<Task>, es: seq<Event>, e: Event) returns (j: nat)
    requires Schedule(tasks, es) && EventOf(tasks, e, |tasks|)
    ensures j < |es| && es[j] == e
  {
    assert e in es;
    j :| 0 <= j < |es| && es[j] == e;
  }

  /** A stop is never processed before its start. */
  lemma {:induction false} StartFirst(tasks: seq<Task>, es: seq<Event>, k: nat)
    requires ValidTasks(tasks) && Schedule(tasks, es) && k < |es| && es[k].stop
    ensures es[k].task < |tasks| && es[k] == StopOf(tasks, es[k].task)
    ensures StartOf(tasks, es[k].task) in es[..k]
  {
    assert es[k] in es;
    var i := es[k].task;
    var j := ScheduledAt(tasks, es, StartOf(tasks, i));
    assert k < j ==> Before(es[k], es[j]);
    assert es[..k][j] == es[j];
  }

  /** Between event `k - 1` and a strictly later event `k`, the running tasks are those whose
      interval contains the segment. */
  lemma {:induction false} RunningMeansCovering(tasks: seq<Task>, es: seq<Event>, k: nat, i: nat)
    requires ValidTasks(tasks) && Schedule(tasks, es) && 0 < k < |es| && es[k - 1].time < es[k].time && i < |tasks|
    ensures StartOf(tasks, i) in es[..k] && StopOf(tasks, i) !in es[..k]
       <==> tasks[i].start <= es[k - 1].time && es[k].time <= tasks[i].end
  {
    var a := ScheduledAt(tasks, es, StartOf(tasks, i));
    var b := ScheduledAt(tasks, es, StopOf(tasks, i));
    InPrefix(es, k, a);
    InPrefix(es, k, b);
    assert a < k - 1 ==> Before(es[a], es[k - 1]);
    assert k < a ==> Before(es[k], es[a]);
    assert b < k - 1 ==> Before(es[b], es[k - 1]);
    assert k < b ==> Before(es[k], es[b]);
  }

  lemma {:induction false} InPrefix(es: seq<Event>, k: nat, j: nat)
    requires Distinct(es) && k <= |es| && j < |es|
    ensures es[j] in es[..k] <==> j < k
  {
    if j < k {
      assert es[..k][j] == es[j];
    }
  }

  // ----- the sweep

  /** What a task has been credited with so far: its final share once it stopped, the weighted time
      since its start while it runs. */
  function Credit(running: map<nat, real>, shares: seq<real>, now: real, i: nat): real
    requires i < |shares|
  {
    if i in running then now - running[i] else shares[i]
  }

  function Credits(running: map<nat, real>, shares: seq<real>, now: real): (r: seq<real>)
    ensures |r| == |shares|
  {
    seq(|shares|, i requires 0 <= i < |shares| => Credit(running, shares, now, i))
  }

  /** State after the first `k` events: who runs, and that everybody's credit is between zero and
      the time they have been running, and adds up to the time covered so far. */
  ghost predicate SweepInv(tasks: seq<Task>, es: seq<Event>, k: nat, running: map<nat, real>, shares: seq<real>,
                           now: real, last: real)
    requires k <= |es|
  {
    && |shares| == |tasks|
    && (k > 0 ==> last == es[k - 1].time)
    && (forall i: nat :: i in running <==> i < |tasks| && StartOf(tasks, i) in es[..k] && StopOf(tasks, i) !in es[..k])
    && (forall i: nat :: i in running ==> 0.0 <= now - running[i] <= last - tasks[i].start)
    && (forall i :: 0 <= i < |tasks| && StopOf(tasks, i) in es[..k] ==> 0.0 <= shares[i] <= tasks[i].Duration())
    && (forall i :: 0 <= i < |tasks| && StopOf(tasks, i) !in es[..k] ==> shares[i] == 0.0)
    && SumTo(Credits(running, shares, now), |tasks|) == CoveredLength(tasks, es, k)
  }

  /** Weighted time gained until the next event. */
  function Gain(n: nat, span: real): real {
    if n > 0 then span / n as real else 0.0
  }

  /** Time passes: every running task gains the same share and together they gain the segment if
      it is covered. */
  lemma {:induction false} TimePasses(tasks: seq<Task>, es: seq<Event>, k: nat, running: map<nat, real>,
                                      shares: seq<real>, now: real)
    requires ValidTasks(tasks) && Schedule(tasks, es) && 0 < k < |es|
    requires SweepInv(tasks, es, k, running, shares, now, es[k - 1].time)
    ensures var gain := Gain(|running|, es[k].time - es[k - 1].time);
      && SumTo(Credits(running, shares, now + gain), |tasks|) == CoveredLength(tasks, es, k + 1)
      && 0.0 <= gain && (running != map[] ==> gain <= es[k].time - es[k - 1].time)
  {
    hide SumTo, Schedule;
    var t, last := es[k].time, es[k - 1].time;
    var span := t - last;
    assert Before(es[k - 1], es[k]) by { InOrder(tasks, es, k - 1, k); }
    var gain := Gain(|running|, span);
    BelowIsSize(running.Keys, |tasks|);
    assert |running.Keys| == |running|;
    SumRaised(Credits(running, shares, now), Credits(running, shares, now + gain), running.Keys, gain, |tasks|);
    if |running| > 0 {
      ScaleShares(|running|, span);
      GainBounds(|running|, span);
    }
    if span > 0.0 {
      assert running != map[] <==> Covered(tasks, last, t) by {
        CoveredMeansRunning(tasks, es, k, running);
      }
    }
  }

  lemma {:induction false} InOrder(tasks: seq<Task>, es: seq<Event>, i: nat, j: nat)
    requires Schedule(tasks, es) && i < j < |es|
    ensures Before(es[i], es[j])
  {
  }

  lemma {:induction false} GainBounds(n: nat, span: real)
    requires n > 0 && span >= 0.0
    ensures 0.0 <= span / n as real <= span
  {
    var q := span / n as real;
    assert q * n as real == span;
    if q < 0.0 {
      NegativeTimes(q, n as real);
    } else {
      assert q * (n as real - 1.0) >= 0.0;
    }
  }

  lemma {:induction false} NegativeTimes(q: real, n: real)
    requires q < 0.0 && n > 0.0
    ensures q * n < 0.0
  {
  }

  lemma {:induction false} CoveredMeansRunning(tasks: seq<Task>, es: seq<Event>, k: nat, running: map<nat, real>)
    requires ValidTasks(tasks) && Schedule(tasks, es) && 0 < k < |es| && es[k - 1].time < es[k].time
    requires forall i: nat ::
      i in running <==> i < |tasks| && StartOf(tasks, i) in es[..k] && StopOf(tasks, i) !in es[..k]
    ensures running != map[] <==> Covered(tasks, es[k - 1].time, es[k].time)
  {
    forall i: nat | i < |tasks|
      ensures i in running <==> tasks[i].start <= es[k - 1].time && es[k].time <= tasks[i].end {
      RunningMeansCovering(tasks, es, k, i);
    }
    if Covered(tasks, es[k - 1].time, es[k].time) {
      var i: nat :| i < |tasks| && tasks[i].start <= es[k - 1].time && es[k].time <= tasks[i].end;
      assert i in running;
    }
  }

  lemma {:induction false} PrefixStep(es: seq<Event>, k: nat)
    requires k < |es|
    ensures forall e :: e in es[..k + 1] <==> e in es[..k] || e == es[k]
  {
    assert es[..k + 1] == es[..k] + [es[k]];
  }

  /** Event `k` has not been processed before, and if it is a start its task has not stopped. */
  lemma {:induction false} EventIsNew(tasks: seq<Task>, es: seq<Event>, k: nat)
    requires ValidTasks(tasks) && Schedule(tasks, es) && k < |es|
    ensures es[k].task < |tasks| && es[k] !in es[..k] && EventOf(tasks, es[k], |tasks|)
    ensures es[k].time >= tasks[es[k].task].start
    ensures StopOf(tasks, es[k].task) !in es[..k]
  {
    assert es[k] in es;
    var i := es[k].task;
    var a := ScheduledAt(tasks, es, StartOf(tasks, i));
    var b := ScheduledAt(tasks, es, StopOf(tasks, i));
    InPrefix(es, k, a);
    InPrefix(es, k, b);
    assert b < a ==> Before(es[b], es[a]);
  }

  lemma {:induction false} SameSum(s: seq<real>, t: seq<real>, n: nat)
    requires n <= |s| == |t| && forall i :: 0 <= i < n ==> s[i] == t[i]
    ensures SumTo(s, n) == SumTo(t, n)
  {
    if n > 0 {
      SameSum(s, t, n - 1);
    }
  }

  /** After time has passed, processing the event itself moves no credit. */
  lemma {:induction false} EventProcessed(tasks: seq<Task>, es: seq<Event>, k: nat, running: map<nat, real>,
                                          shares: seq<real>, now: real)
    requires ValidTasks(tasks) && Schedule(tasks, es) && k < |es| && |shares| == |tasks|
    requires forall i: nat ::
      i in running <==> i < |tasks| && StartOf(tasks, i) in es[..k] && StopOf(tasks, i) !in es[..k]
    requires forall i: nat :: i in running ==> 0.0 <= now - running[i] <= es[k].time - tasks[i].start
    requires forall i :: 0 <= i < |tasks| && StopOf(tasks, i) in es[..k] ==> 0.0 <= shares[i] <= tasks[i].Duration()
    requires forall i :: 0 <= i < |tasks| && StopOf(tasks, i) !in es[..k] ==> shares[i] == 0.0
    requires SumTo(Credits(running, shares, now), |tasks|) == CoveredLength(tasks, es, k + 1)
    ensures var i := es[k].task;
      i < |tasks| &&
      if es[k].stop then
        i in running
        && SweepInv(tasks, es, k + 1, running - {i}, shares[i := now - running[i]], now, es[k].time)
      else SweepInv(tasks, es, k + 1, running[i := now], shares, now, es[k].time)
  {
    hide SumTo, Schedule, CoveredLength;
    EventIsNew(tasks, es, k);
    PrefixStep(es, k);
    var i := es[k].task;
    if es[k].stop {
      StartFirst(tasks, es, k);
      SameSum(Credits(running, shares, now), Credits(running - {i}, shares[i := now - running[i]], now), |tasks|);
    } else {
      SameSum(Credits(running, shares, now), Credits(running[i := now], shares, now), |tasks|);
    }
  }

  lemma {:induction false} NoCredit(shares: seq<real>, n: nat)
    requires n <= |shares| && forall i :: 0 <= i < n ==> shares[i] == 0.0
    ensures SumTo(shares, n) == 0.0
  {
    if n > 0 {
      NoCredit(shares, n - 1);
    }
  }

  lemma {:induction false} SweepStarts(tasks: seq<Task>, es: seq<Event>, shares: seq<real>, last: real)
    requires |shares| == |tasks| && forall i :: 0 <= i < |shares| ==> shares[i] == 0.0
    ensures SweepInv(tasks, es, 0, map[], shares, 0.0, last)
  {
    NoCredit(Credits(map[], shares, 0.0), |tasks|);
  }

  /** One iteration keeps the invariant, and a stop always finds its task running. */
  lemma {:induction false} SweepStep(tasks: seq<Task>, es: seq<Event>, k: nat, running: map<nat, real>,
                                     shares: seq<real>, now: real, last: real)
    requires ValidTasks(tasks) && Schedule(tasks, es) && k < |es|
    requires SweepInv(tasks, es, k, running, shares, now, last) && (k == 0 ==> last == es[0].time)
    ensures var now' := now + Gain(|running|, es[k].time - last);
      var i := es[k].task;
      i < |tasks| &&
      if es[k].stop then
        i in running
        && SweepInv(tasks, es, k + 1, running - {i}, shares[i := now' - running[i]], now', es[k].time)
      else SweepInv(tasks, es, k + 1, running[i := now'], shares, now', es[k].time)
  {
    hide SumTo, Schedule, CoveredLength;
    if k == 0 {
      assert running == map[];
      FirstEvents(tasks, es);
    } else {
      InOrder(tasks, es, k - 1, k);
      TimePasses(tasks, es, k, running, shares, now);
    }
    var now' := now + Gain(|running|, es[k].time - last);
    EventProcessed(tasks, es, k, running, shares, now');
  }

  lemma {:induction false} FirstEvents(tasks: seq<Task>, es: seq<Event>)
    requires es != []
    ensures CoveredLength(tasks, es, 0) == CoveredLength(tasks, es, 1) == 0.0
  {
  }

  /** Everybody has been credited with what they are due so far. */
  ghost predicate FairlyShared(tasks: seq<Task>, es: seq<Event>, k: nat, running: map<nat, real>, shares: seq<real>,
                               now: real)
    requires k <= |es|
  {
    |shares| == |tasks| && forall i :: 0 <= i < |tasks| ==> Credit(running, shares, now, i) == Due(tasks, es, k, i)
  }

  /** Until the next event every running task gains its equal part, and nobody else gains anything. */
  lemma {:induction false} PartGained(tasks: seq<Task>, es: seq<Event>, k: nat, running: map<nat, real>,
                                      shares: seq<real>, now: real, i: nat)
    requires ValidTasks(tasks) && Schedule(tasks, es) && 0 < k < |es| && i < |tasks|
    requires SweepInv(tasks, es, k, running, shares, now, es[k - 1].time)
    ensures Part(tasks, es[k - 1].time, es[k].time, i)
         == if i in running then Gain(|running|, es[k].time - es[k - 1].time) else 0.0
  {
    hide Schedule, SumTo;
    var a, b := es[k - 1].time, es[k].time;
    assert a <= b by { InOrder(tasks, es, k - 1, k); }
    if a < b {
      forall j: nat | j < |tasks| ensures j in running <==> j in Crowd(tasks, a, b) {
        RunningMeansCovering(tasks, es, k, j);
      }
      assert running.Keys == Crowd(tasks, a, b);
      assert |running.Keys| == |running|;
    } else {
      ZeroShared(|running|);
      ZeroShared(|Crowd(tasks, a, b)|);
    }
  }

  lemma {:induction false} ZeroShared(n: nat)
    ensures n > 0 ==> 0.0 / n as real == 0.0
  {
    if n > 0 {
      GainBounds(n, 0.0);
    }
  }

  /** One iteration keeps the shares fair. */
  lemma {:induction false} FairStep(tasks: seq<Task>, es: seq<Event>, k: nat, running: map<nat, real>,
                                    shares: seq<real>, now: real, last: real)
    requires ValidTasks(tasks) && Schedule(tasks, es) && k < |es|
    requires SweepInv(tasks, es, k, running, shares, now, last) && (k == 0 ==> last == es[0].time)
    requires FairlyShared(tasks, es, k, running, shares, now)
    ensures var now' := now + Gain(|running|, es[k].time - last);
      var i := es[k].task;
      i < |tasks| &&
      if es[k].stop then
        i in running && FairlyShared(tasks, es, k + 1, running - {i}, shares[i := now' - running[i]], now')
      else FairlyShared(tasks, es, k + 1, running[i := now'], shares, now')
  {
    hide SweepInv, Schedule, Due, Credit, FairlyShared;
    EventFinds(tasks, es, k, running, shares, now, last);
    var now', i := now + Gain(|running|, es[k].time - last), es[k].task;
    assert |shares| == |tasks| by { FairLength(tasks, es, k, running, shares, now); }
    var running' := if es[k].stop then running - {i} else running[i := now'];
    var shares' := if es[k].stop then shares[i := now' - running[i]] else shares;
    forall j | 0 <= j < |tasks| ensures Credit(running', shares', now', j) == Due(tasks, es, k + 1, j) {
      CreditDue(tasks, es, k, running, shares, now, last, j);
      CreditStays(running, shares, now', i, j, es[k].stop);
    }
    FairSince(tasks, es, k + 1, running', shares', now');
  }

  lemma {:induction false} FairLength(tasks: seq<Task>, es: seq<Event>, k: nat, running: map<nat, real>,
                                      shares: seq<real>, now: real)
    requires k <= |es| && FairlyShared(tasks, es, k, running, shares, now)
    ensures |shares| == |tasks|
  {
  }

  lemma {:induction false} FairSince(tasks: seq<Task>, es: seq<Event>, k: nat, running: map<nat, real>,
                                     shares: seq<real>, now: real)
    requires k <= |es| && |shares| == |tasks|
    requires forall j :: 0 <= j < |tasks| ==> Credit(running, shares, now, j) == Due(tasks, es, k, j)
    ensures FairlyShared(tasks, es, k, running, shares, now)
  {
  }

  /** A stop finds its task running; a start finds it idle and without a share. */
  lemma {:induction false} EventFinds(tasks: seq<Task>, es: seq<Event>, k: nat, running: map<nat, real>,
                                      shares: seq<real>, now: real, last: real)
    requires ValidTasks(tasks) && Schedule(tasks, es) && k < |es|
    requires SweepInv(tasks, es, k, running, shares, now, last)
    ensures var i := es[k].task;
      i < |tasks| == |shares| && if es[k].stop then i in running else i !in running && shares[i] == 0.0
  {
    hide SumTo, Schedule, CoveredLength;
    EventIsNew(tasks, es, k);
    if es[k].stop {
      StartFirst(tasks, es, k);
    }
  }

  /** Starting or stopping task `i` moves no credit. */
  lemma {:induction false} CreditStays(running: map<nat, real>, shares: seq<real>, now: real, i: nat, j: nat,
                                       stop: bool)
    requires i < |shares| && j < |shares| && if stop then i in running else i !in running && shares[i] == 0.0
    ensures Credit(if stop then running - {i} else running[i := now],
                   if stop then shares[i := now - running[i]] else shares, now, j)
         == Credit(running, shares, now, j)
  {
  }

  lemma {:induction false} CreditDue(tasks: seq<Task>, es: seq<Event>, k: nat, running: map<nat, real>,
                                     shares: seq<real>, now: real, last: real, j: nat)
    requires ValidTasks(tasks) && Schedule(tasks, es) && k < |es| && j < |tasks|
    requires SweepInv(tasks, es, k, running, shares, now, last) && (k == 0 ==> last == es[0].time)
    requires FairlyShared(tasks, es, k, running, shares, now)
    ensures Credit(running, shares, now + Gain(|running|, es[k].time - last), j) == Due(tasks, es, k + 1, j)
  {
    hide SumTo, Schedule, Part, CoveredLength;
    if k > 0 {
      PartGained(tasks, es, k, running, shares, now, j);
    }
  }

  /** After the last event nobody runs and the credits are the shares. */
  lemma {:induction false} SweepEnds(tasks: seq<Task>, es: seq<Event>, running: map<nat, real>, shares: seq<real>,
                                     now: real, last: real)
    requires ValidTasks(tasks) && Schedule(tasks, es) && SweepInv(tasks, es, |es|, running, shares, now, last)
    ensures running == map[]
    ensures forall i :: 0 <= i < |tasks| ==> 0.0 <= shares[i] <= tasks[i].Duration()
    ensures SumTo(shares, |tasks|) == CoveredLength(tasks, es, |es|)
  {
    hide SumTo, CoveredLength, Sorted, Distinct;
    assert es[..|es|] == es;
    forall i | 0 <= i < |tasks| ensures StopOf(tasks, i) in es {
      assert EventOf(tasks, StopOf(tasks, i), |tasks|);
    }
    assert Credits(running, shares, now) == shares;
  }

  /** Everything between the first and the last event. */
  lemma {:induction false} CoveredAtMost(tasks: seq<Task>, es: seq<Event>, k: nat)
    requires Schedule(tasks, es) && 0 < k <= |es|
    ensures CoveredLength(tasks, es, k) <= es[k - 1].time - es[0].time
    ensures CoveredLength(tasks, es, k) == es[k - 1].time - es[0].time
       <==> forall j :: 1 <= j < k ==> Segment(tasks, es[j - 1].time, es[j].time) == es[j].time - es[j - 1].time
  {
    hide Schedule, Covered;
    if k > 1 {
      CoveredAtMost(tasks, es, k - 1);
      InOrder(tasks, es, k - 2, k - 1);
      assert 1 <= k - 1 < k;
    }
  }

  /** Length of the segments between the first `k` event times that no task covers. */
  function IdleLength(tasks: seq<Task>, es: seq<Event>, k: nat): real
    requires k <= |es|
  {
    if k < 2 then 0.0
    else
      var a, b := es[k - 2].time, es[k - 1].time;
      IdleLength(tasks, es, k - 1) + if Covered(tasks, a, b) then 0.0 else b - a
  }

  /** Covered and idle time make up the whole span. */
  lemma {:induction false} IdleIsTheRest(tasks: seq<Task>, es: seq<Event>, k: nat)
    requires Schedule(tasks, es) && 0 < k <= |es|
    ensures CoveredLength(tasks, es, k) + IdleLength(tasks, es, k) == es[k - 1].time - es[0].time
    ensures IdleLength(tasks, es, k) >= 0.0
  {
    hide Schedule, Covered;
    if k > 1 {
      IdleIsTheRest(tasks, es, k - 1);
      InOrder(tasks, es, k - 2, k - 1);
    }
  }

  /** The schedule spans exactly from the earliest start to the latest stop. */
  lemma {:induction false} SpanOfSchedule(tasks: seq<Task>, es: seq<Event>, earliest: real, latest: real)
    requires ValidTasks(tasks) && Schedule(tasks, es) && tasks != []
    requires (forall i :: 0 <= i < |tasks| ==> earliest <= tasks[i].start)
    requires (exists i :: 0 <= i < |tasks| && tasks[i].start == earliest)
    requires (forall i :: 0 <= i < |tasks| ==> tasks[i].end <= latest)
    requires (exists i :: 0 <= i < |tasks| && tasks[i].end == latest)
    ensures es != [] && es[0].time == earliest && es[|es| - 1].time == latest
  {
    var i :| 0 <= i < |tasks| && tasks[i].start == earliest;
    var j :| 0 <= j < |tasks| && tasks[j].end == latest;
    var a := ScheduledAt(tasks, es, StartOf(tasks, i));
    var b := ScheduledAt(tasks, es, StopOf(tasks, j));
    assert es[0] in es && es[|es| - 1] in es;
    assert 0 < a ==> Before(es[0], es[a]);
    assert b < |es| - 1 ==> Before(es[b], es[|es| - 1]);
  }

  /** The event list with the earliest start and the latest stop. */
  method CollectEvents(tasks: seq<Task>) returns (events: seq<Event>, earliest: real, latest: real)
    requires ValidTasks(tasks) && tasks != []
    ensures events == EventsOf(tasks, |tasks|)
    ensures (forall i :: 0 <= i < |tasks| ==> earliest <= tasks[i].start)
    ensures (exists i :: 0 <= i < |tasks| && tasks[i].start == earliest)
    ensures (forall i :: 0 <= i < |tasks| ==> tasks[i].end <= latest)
    ensures (exists i :: 0 <= i < |tasks| && tasks[i].end == latest)
  {
    earliest, latest, events := -1.0, 0.0, [];
    for i := 0 to |tasks|
      invariant events == EventsOf(tasks, i)
      invariant if i == 0 then earliest == -1.0 else 0.0 <= earliest
      invariant forall j :: 0 <= j < i ==> earliest <= tasks[j].start && tasks[j].end <= latest
      invariant i > 0 ==> exists j :: 0 <= j < i && tasks[j].start == earliest
      invariant latest >= 0.0 && (latest == 0.0 || exists j :: 0 <= j < i && tasks[j].end == latest)
    {
      if earliest < 0.0 || tasks[i].start < earliest {
        earliest := tasks[i].start;
      }
      if tasks[i].end > latest {
        latest := tasks[i].end;
      }
      events := events + [StartOf(tasks, i), StopOf(tasks, i)];
    }
    if latest == 0.0 {
      assert tasks[0].end == latest;
    }
  }

  /** The loop over all start and stop events. */
  method Sweep(tasks: seq<Task>, es: seq<Event>) returns (shares: seq<real>, total: real)
    requires ValidTasks(tasks) && Schedule(tasks, es) && es != []
    ensures |shares| == |tasks| && forall i :: 0 <= i < |tasks| ==> 0.0 <= shares[i] <= tasks[i].Duration()
    ensures forall i :: 0 <= i < |tasks| ==> shares[i] == Due(tasks, es, |es|, i)
    ensures total == SumTo(shares, |tasks|) == CoveredLength(tasks, es, |es|)
  {
    hide CoveredLength, SumTo, Schedule, SweepInv, Part, Due, FairlyShared;
    var running: map<nat, real>, last, now := map[], es[0].time, 0.0;
    shares, total := Repeat(0.0, |tasks|), 0.0;
    SweepStarts(tasks, es, shares, last);
    FairStarts(tasks, es, shares);
    TotalStarts(shares);
    for k := 0 to |es|
      invariant SweepInv(tasks, es, k, running, shares, now, last) && (k == 0 ==> last == es[0].time)
      invariant FairlyShared(tasks, es, k, running, shares, now)
      invariant |shares| == |tasks| && total == SumTo(shares, |tasks|)
      invariant forall i :: i in running ==> i < |shares| && shares[i] == 0.0
    {
      SweepStep(tasks, es, k, running, shares, now, last);
      FairStep(tasks, es, k, running, shares, now, last);
      var e := es[k];
      if |running| > 0 {
        now := now + (e.time - last) / |running| as real;
      }
      if !e.stop {
        running := running[e.task := now];
      } else {
        var share := now - running[e.task];
        SumUpdated(shares, e.task, share, |tasks|);
        shares := shares[e.task := share];
        total := total + share;
        running := running - {e.task};
      }
      last := e.time;
      RunningUnshared(tasks, es, k + 1, running, shares, now, last);
    }
    SweepEnds(tasks, es, running, shares, now, last);
    FairEnds(tasks, es, running, shares, now);
    assert |running| == 0;
  }

  lemma {:induction false} FairStarts(tasks: seq<Task>, es: seq<Event>, shares: seq<real>)
    requires |shares| == |tasks| && forall i :: 0 <= i < |shares| ==> shares[i] == 0.0
    ensures FairlyShared(tasks, es, 0, map[], shares, 0.0)
  {
  }

  lemma {:induction false} FairEnds(tasks: seq<Task>, es: seq<Event>, running: map<nat, real>, shares: seq<real>,
                                    now: real)
    requires FairlyShared(tasks, es, |es|, running, shares, now) && running == map[]
    ensures forall i :: 0 <= i < |tasks| ==> shares[i] == Due(tasks, es, |es|, i)
  {
    assert forall i :: 0 <= i < |tasks| ==> Credit(running, shares, now, i) == shares[i];
  }

  /** The summary up to the warning behind its final assertion. Each share is what its task is due and
      lies between zero and the task's duration, the shares add up to the length of the union of the
      task intervals, what is missing to the printed length is the time in which nothing ran, and the
      warning comes exactly when that idle time is more than 500 seconds. */
  method SummarizeEntries(tasks: seq<Task>) returns (shares: seq<real>, total: real, length: real, warns: bool)
    requires ValidTasks(tasks) && tasks != []
    ensures |shares| == |tasks| && forall i :: 0 <= i < |tasks| ==> 0.0 <= shares[i] <= tasks[i].Duration()
    ensures var es := Sort(EventsOf(tasks, |tasks|));
      forall i :: 0 <= i < |tasks| ==> shares[i] == Due(tasks, es, |es|, i)
    ensures var es := Sort(EventsOf(tasks, |tasks|));
      && es != [] && total == SumTo(shares, |tasks|) == CoveredLength(tasks, es, |es|)
      && length == es[|es| - 1].time - es[0].time && length - total == IdleLength(tasks, es, |es|) >= 0.0
      && (total == length
          <==> forall j :: 1 <= j < |es| ==> Segment(tasks, es[j - 1].time, es[j].time) == es[j].time - es[j - 1].time)
      && (warns <==> IdleLength(tasks, es, |es|) > 500.0)
  {
    hide Sort, Segment, CoveredLength, IdleLength, SumTo, Schedule, EventsOf, Due;
    var events, earliest, latest := CollectEvents(tasks);
    length := latest - earliest;
    var es := Sort(events);
    SortedEventsSchedule(tasks);
    SpanOfSchedule(tasks, es, earliest, latest);
    shares, total := Sweep(tasks, es);
    CoveredAtMost(tasks, es, |es|);
    IdleIsTheRest(tasks, es, |es|);
    var difference := length - total;
    warns := (if difference < 0.0 then -difference else difference) > 500.0;
  }

  lemma {:induction false} TotalStarts(shares: seq<real>)
    requires forall i :: 0 <= i < |shares| ==> shares[i] == 0.0
    ensures SumTo(shares, |shares|) == 0.0
  {
    NoCredit(shares, |shares|);
  }

  lemma {:induction false} RunningUnshared(tasks: seq<Task>, es: seq<Event>, k: nat, running: map<nat, real>,
                                           shares: seq<real>, now: real, last: real)
    requires k <= |es| && SweepInv(tasks, es, k, running, shares, now, last)
    ensures |shares| == |tasks| && forall i :: i in running ==> i < |shares| && shares[i] == 0.0
  {
  }

  lemma {:induction false} SumUpdated(s: seq<real>, i: nat, x: real, n: nat)
    requires i < |s| && n <= |s|
    ensures SumTo(s[i := x], n) == SumTo(s, n) + if i < n then x - s[i] else 0.0
  {
    if n > 0 {
      SumUpdated(s, i, x, n - 1);
    }
  }
}
