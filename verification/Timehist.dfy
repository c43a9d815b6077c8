/**
 `perf sched timehist`: each switch charges the time since the previous switch on that CPU to the
 thread that ran, and the time before that to what the thread was waiting for.
 Filtering and idle-hist mode are off; times are positive.
 */
module Timehist {
  import opened Sums
  import opened RbTree

  /** Every CPU has an idle thread of its own. */
  datatype Who = Idle(cpu: nat) | Task(tid: nat)

  const TASK_RUNNING := 0
  const TASK_UNINTERRUPTIBLE := 2

  datatype Runtime = Runtime(
    lastTime: int, dtRun: int, dtSleep: int, dtIowait: int, dtPreempt: int, dtDelay: int, ready: int,
    runs: nat, totalRun: int, totalSleep: int, totalIowait: int, totalPreempt: int, totalDelay: int, lastState: int)

  /** The times the user asked for; 0 is no limit. */
  datatype Window = Window(start: nat, end: nat)

  datatype Event =
    | Switch(cpu: nat, prevPid: nat, pid: nat, tid: nat, nextPid: nat, state: int, time: nat)
    | Wakeup(pid: nat, time: nat)

  datatype Hist = Hist(threads: map<Who, Runtime>, lastTime: map<nat, int>, histStart: int, histEnd: int)

  function Zero(): Runtime { Runtime(0, 0, 0, 0, 0, 0, 0, 0, 0, 0, 0, 0, 0, 0) }
  function Empty(): Hist { Hist(map[], map[], 0, 0) }

  /** The thread a switch is about; some samples carry tid 0 with a pid. */
  function ThreadOf(e: Event): Who
    requires e.Switch?
  {
    if e.prevPid == 0 then Idle(e.cpu) else Task(if e.tid != 0 then e.tid else e.pid)
  }

  function NextOf(e: Event): Who
    requires e.Switch?
  {
    if e.nextPid == 0 then Idle(e.cpu) else Task(e.nextPid)
  }

  function RuntimeOf(s: Hist, who: Who): Runtime { Get(s.threads, who, Zero()) }
  function TimeOf(s: Hist, cpu: nat): int { Get(s.lastTime, cpu, 0) }

  // The accounting.

  /** How long the thread was off the CPU, and why. */
  function Waited(r: Runtime, tprev: int): Runtime {
    if r.lastTime > tprev || r.lastTime == 0 then r.(dtSleep := 0, dtIowait := 0, dtPreempt := 0)
    else
      var wait := tprev - r.lastTime;
      if r.lastState == TASK_RUNNING then r.(dtSleep := 0, dtIowait := 0, dtPreempt := wait)
      else if r.lastState == TASK_UNINTERRUPTIBLE then r.(dtSleep := 0, dtIowait := wait, dtPreempt := 0)
      else r.(dtSleep := wait, dtIowait := 0, dtPreempt := 0)
  }

  function Deltas(r: Runtime, t: int, tprev: int): Runtime {
    if tprev == 0 then r.(dtDelay := 0, dtSleep := 0, dtIowait := 0, dtPreempt := 0, dtRun := 0)
    else
      Waited(r, tprev).(
        dtRun := t - tprev,
        dtDelay := if r.ready != 0 && r.ready <= tprev then tprev - r.ready else 0)
  }

  function UpdateStats(r: Runtime, t: int, tprev: int): Runtime {
    var d := Deltas(r, t, tprev);
    d.(runs := d.runs + 1, totalRun := d.totalRun + d.dtRun, totalDelay := d.totalDelay + d.dtDelay,
       totalSleep := d.totalSleep + d.dtSleep, totalIowait := d.totalIowait + d.dtIowait,
       totalPreempt := d.totalPreempt + d.dtPreempt)
  }

  /** A sample outside the window is skipped. */
  predicate Skipped(w: Window, tprev: int, time: nat) {
    || (w.start != 0 && w.start > time)
    || (w.end != 0 && ClipStart(w, tprev) > w.end)
  }

  function ClipStart(w: Window, tprev: int): int { if tprev != 0 && w.start > tprev then w.start else tprev }
  function ClipEnd(w: Window, time: nat): nat { if w.end != 0 && time > w.end then w.end else time }

  function Account(w: Window, r: Runtime, tprev: int, time: nat): Runtime {
    if Skipped(w, tprev, time) then r else UpdateStats(r, ClipEnd(w, time), ClipStart(w, tprev))
  }

  /** What every sample of a thread leaves behind, skipped or not. */
  function SchedOut(r: Runtime, e: Event): Runtime
    requires e.Switch?
  {
    r.(lastTime := e.time, lastState := e.state, ready := 0)
  }

  /** The time that bounds the reported history: clipped only when the sample is counted. */
  function HistTime(w: Window, tprev: int, time: nat): nat {
    if Skipped(w, tprev, time) then time else ClipEnd(w, time)
  }

  function Change(w: Window, s: Hist, e: Event): Hist
    requires e.Switch?
  {
    var who, tprev := ThreadOf(e), TimeOf(s, e.cpu);
    var t := HistTime(w, tprev, e.time);
    Hist(s.threads[who := SchedOut(Account(w, RuntimeOf(s, who), tprev, e.time), e)],
         s.lastTime[e.cpu := e.time],
         if s.histStart == 0 && t >= w.start then t else s.histStart,
         if w.end == 0 || t <= w.end then t else s.histEnd)
  }

  /** The first wakeup since the thread was switched out counts. */
  function Wake(s: Hist, e: Event): Hist
    requires e.Wakeup?
  {
    var r := RuntimeOf(s, Task(e.pid));
    s.(threads := s.threads[Task(e.pid) := if r.ready == 0 then r.(ready := e.time) else r])
  }

  function Step(w: Window, s: Hist, e: Event): Hist {
    if e.Switch? then Change(w, s, e) else Wake(s, e)
  }

  function Run(w: Window, trace: seq<Event>): Hist {
    if trace == [] then Empty() else Step(w, Run(w, trace[..|trace| - 1]), trace[|trace| - 1])
  }

  // CPU time inside the window is conserved.

  predicate PositiveTimes(trace: seq<Event>) {
    forall e | e in trace :: e.time > 0
  }

  datatype Span = Span(first: nat, last: nat)

  /** When each CPU was first and last seen to switch. */
  function Spans(trace: seq<Event>): map<nat, Span> {
    if trace == [] then map[]
    else
      var m, e := Spans(trace[..|trace| - 1]), trace[|trace| - 1];
      if e.Wakeup? then m
      else m[e.cpu := Span(if e.cpu in m then m[e.cpu].first else e.time, e.time)]
  }

  /** The switches of each CPU are in order. */
  ghost predicate OrderedPerCpu(trace: seq<Event>) {
    trace == [] ||
    (OrderedPerCpu(trace[..|trace| - 1]) &&
     (var m, e := Spans(trace[..|trace| - 1]), trace[|trace| - 1];
      e.Switch? && e.cpu in m ==> m[e.cpu].last <= e.time))
  }

  function Max(a: int, b: int): int { if a > b then a else b }
  function Min(a: int, b: int): int { if a < b then a else b }

  /** How much of the span lies in the window. */
  function Overlap(w: Window, a: int, b: int): int {
    Max(0, (if w.end == 0 then b else Min(b, w.end)) - Max(a, w.start))
  }

  function OverlapOf(w: Window): Span -> int {
    (s: Span) => Overlap(w, s.first, s.last)
  }

  function RunOf(r: Runtime): int { r.totalRun }

  /** A switch charges exactly the part of its CPU's last stretch that lies in the window. */
  lemma ChargeIsOverlap(w: Window, r: Runtime, first: nat, tprev: nat, time: nat)
    requires 0 < first <= tprev <= time
    ensures Account(w, r, tprev, time).totalRun - r.totalRun == Overlap(w, first, time) - Overlap(w, first, tprev)
  {
  }

  lemma FirstChargesNothing(w: Window, r: Runtime, tprev: int, time: nat)
    requires tprev == 0 < time
    ensures Account(w, r, tprev, time).totalRun == r.totalRun && Overlap(w, time, time) == 0
  {
  }

  lemma {:induction false} SpansAreSeen(w: Window, trace: seq<Event>, cpu: nat)
    requires PositiveTimes(trace) && OrderedPerCpu(trace)
    ensures cpu in Spans(trace) <==> TimeOf(Run(w, trace), cpu) != 0
    ensures cpu in Spans(trace) ==> Spans(trace)[cpu].last == TimeOf(Run(w, trace), cpu)
    ensures cpu in Spans(trace) ==> 0 < Spans(trace)[cpu].first <= Spans(trace)[cpu].last
  {
    if trace != [] {
      assert trace[|trace| - 1] in trace;
      SpansAreSeen(w, trace[..|trace| - 1], cpu);
    }
  }

  /** The run time that switches on one CPU charged, to whichever threads. */
  function Charged(w: Window, trace: seq<Event>, cpu: nat): int {
    if trace == [] then 0
    else
      var s, e := Run(w, trace[..|trace| - 1]), trace[|trace| - 1];
      Charged(w, trace[..|trace| - 1], cpu) +
      if e.Switch? && e.cpu == cpu
      then RuntimeOf(Change(w, s, e), ThreadOf(e)).totalRun - RuntimeOf(s, ThreadOf(e)).totalRun
      else 0
  }

  /** Each CPU charges the part of its observed time that lies in the window. */
  lemma {:induction false} ChargedPerCpu(w: Window, trace: seq<Event>, cpu: nat)
    requires PositiveTimes(trace) && OrderedPerCpu(trace)
    ensures Charged(w, trace, cpu) ==
            if cpu in Spans(trace) then Overlap(w, Spans(trace)[cpu].first, Spans(trace)[cpu].last) else 0
  {
    hide Account, Overlap;
    if trace != [] {
      var before, e := trace[..|trace| - 1], trace[|trace| - 1];
      assert e in trace;
      ChargedPerCpu(w, before, cpu);
      if e.Switch? && e.cpu == cpu {
        var s, m := Run(w, before), Spans(before);
        SpansAreSeen(w, before, cpu);
        if cpu in m {
          ChargeIsOverlap(w, RuntimeOf(s, ThreadOf(e)), m[cpu].first, m[cpu].last, e.time);
        } else {
          FirstChargesNothing(w, RuntimeOf(s, ThreadOf(e)), TimeOf(s, cpu), e.time);
        }
      }
    }
  }

  /** The run time of all threads together is the observed time of all CPUs that lies in the window. */
  lemma {:induction false} RunTimeConserved(w: Window, trace: seq<Event>)
    requires PositiveTimes(trace) && OrderedPerCpu(trace)
    ensures SumMap(RunOf, Run(w, trace).threads) == SumMap(OverlapOf(w), Spans(trace))
  {
    hide SumMap, Account, Overlap;
    if trace == [] {
      NothingCharged(w);
    } else {
      var before, e := trace[..|trace| - 1], trace[|trace| - 1];
      assert e in trace;
      RunTimeConserved(w, before);
      var s, m := Run(w, before), Spans(before);
      if e.Wakeup? {
        SumMapPut(RunOf, s.threads, Task(e.pid), Wake(s, e).threads[Task(e.pid)]);
      } else {
        var who := ThreadOf(e);
        SpansAreSeen(w, before, e.cpu);
        SumMapPut(RunOf, s.threads, who, Change(w, s, e).threads[who]);
        SumMapPut<nat, Span>(OverlapOf(w), m, e.cpu, Spans(trace)[e.cpu]);
        if e.cpu in m {
          ChargeIsOverlap(w, RuntimeOf(s, who), m[e.cpu].first, m[e.cpu].last, e.time);
        } else {
          FirstChargesNothing(w, RuntimeOf(s, who), TimeOf(s, e.cpu), e.time);
        }
      }
    }
  }

  lemma NothingCharged(w: Window)
    ensures SumMap<Who, Runtime>(RunOf, map[]) == 0 && SumMap<nat, Span>(OverlapOf(w), map[]) == 0
  {
  }
}
