/**
 What timehist's totals say about one thread: with no window, the time it is charged for running and
 for the three kinds of waiting covers its timeline from the first accounted instant to its last
 switch-out, apart from the stretches listed by Missed.
 */
module TimehistTimeline {
  import opened Timehist

  const NO_WINDOW := Window(0, 0)

  function Accounted(r: Runtime): int {
    r.totalRun + r.totalSleep + r.totalIowait + r.totalPreempt
  }

  /**
   By the fields of the sample: the idle thread of a CPU leaves it with pid 0, a task with its thread id,
   or with its process id in a sample that has thread id 0.
   */
  predicate SwitchesOut(e: Event, who: Who) {
    e.Switch? &&
    match who
    case Idle(cpu) => e.prevPid == 0 && e.cpu == cpu
    case Task(tid) => e.prevPid != 0 && if e.tid != 0 then e.tid == tid else e.pid == tid
  }

  lemma ThreadIs(e: Event, who: Who)
    ensures SwitchesOut(e, who) <==> e.Switch? && ThreadOf(e) == who
  {
  }

  /** When the thread was last switched out, 0 if never. */
  function LastOut(trace: seq<Event>, who: Who): nat {
    if trace == [] then 0
    else if SwitchesOut(trace[|trace| - 1], who) then trace[|trace| - 1].time
    else LastOut(trace[..|trace| - 1], who)
  }

  /** When the CPU last switched, 0 if never. */
  function LastSwitch(trace: seq<Event>, cpu: nat): nat {
    if trace == [] then 0
    else if trace[|trace| - 1].Switch? && trace[|trace| - 1].cpu == cpu then trace[|trace| - 1].time
    else LastSwitch(trace[..|trace| - 1], cpu)
  }

  /** Both are what the tool remembers, whatever the window. */
  lemma {:induction false} TimesRemembered(w: Window, trace: seq<Event>, who: Who, cpu: nat)
    ensures RuntimeOf(Run(w, trace), who).lastTime == LastOut(trace, who)
    ensures TimeOf(Run(w, trace), cpu) == LastSwitch(trace, cpu)
  {
    hide Account;
    if trace != [] {
      TimesRemembered(w, trace[..|trace| - 1], who, cpu);
    }
  }

  /**
   The first accounted instant of a thread: when its CPU last switched before the thread's first
   switch-out or, if the CPU had not switched yet, that switch-out itself.
   */
  function Origin(trace: seq<Event>, who: Who): nat {
    if trace == [] then 0
    else
      var before, e := trace[..|trace| - 1], trace[|trace| - 1];
      if SwitchesOut(e, who) && LastOut(before, who) == 0
      then if LastSwitch(before, e.cpu) == 0 then e.time else LastSwitch(before, e.cpu)
      else Origin(before, who)
  }

  /**
   Time not accounted: all since the last switch-out when the CPU was not seen before; less than
   nothing when the CPU's previous switch lies before the thread's last switch-out elsewhere.
   */
  function Missed(trace: seq<Event>, who: Who): int {
    if trace == [] then 0
    else
      var before, e := trace[..|trace| - 1], trace[|trace| - 1];
      Missed(before, who) +
      if !SwitchesOut(e, who) || LastOut(before, who) == 0 then 0
      else if LastSwitch(before, e.cpu) == 0 then e.time - LastOut(before, who)
      else if LastSwitch(before, e.cpu) < LastOut(before, who) then LastSwitch(before, e.cpu) - LastOut(before, who)
      else 0
  }

  /** What one switch-out adds to the thread's totals. */
  lemma SwitchAccounts(r: Runtime, tprev: int, time: nat)
    requires tprev >= 0
    ensures Accounted(Account(NO_WINDOW, r, tprev, time)) - Accounted(r) ==
            if tprev == 0 then 0
            else if r.lastTime > tprev || r.lastTime == 0 then time - tprev
            else time - r.lastTime
  {
  }

  lemma OutKeepsTotals(r: Runtime, e: Event)
    requires e.Switch?
    ensures Accounted(SchedOut(r, e)) == Accounted(r)
  {
  }

  lemma WakeKeepsTotals(s: Hist, e: Event, who: Who)
    requires e.Wakeup?
    ensures Accounted(RuntimeOf(Wake(s, e), who)) == Accounted(RuntimeOf(s, who))
  {
    hide Accounted;
    var r := RuntimeOf(s, who);
    assert Accounted(r.(ready := e.time)) == Accounted(r) by { ReadyKeepsTotals(r, e.time); }
  }

  lemma ReadyKeepsTotals(r: Runtime, ready: int)
    ensures Accounted(r.(ready := ready)) == Accounted(r)
  {
  }

  /** What an event does to the totals of a thread. */
  lemma TotalsMove(s: Hist, e: Event, who: Who)
    ensures SwitchesOut(e, who) ==>
              Accounted(RuntimeOf(Step(NO_WINDOW, s, e), who)) ==
              Accounted(Account(NO_WINDOW, RuntimeOf(s, who), TimeOf(s, e.cpu), e.time))
    ensures !SwitchesOut(e, who) ==>
              Accounted(RuntimeOf(Step(NO_WINDOW, s, e), who)) == Accounted(RuntimeOf(s, who))
  {
    hide Account, Accounted, SchedOut, ThreadOf, Wake;
    ThreadIs(e, who);
    if e.Wakeup? {
      WakeKeepsTotals(s, e, who);
    } else {
      OutKeepsTotals(Account(NO_WINDOW, RuntimeOf(s, ThreadOf(e)), TimeOf(s, e.cpu), e.time), e);
    }
  }

  /** The exact balance of every thread in every trace, well formed or not. */
  lemma {:induction false} TimelineBalances(trace: seq<Event>, who: Who)
    requires PositiveTimes(trace)
    ensures Accounted(RuntimeOf(Run(NO_WINDOW, trace), who)) ==
            LastOut(trace, who) - Origin(trace, who) - Missed(trace, who)
    ensures LastOut(trace, who) == 0 ==> Missed(trace, who) == 0 && Origin(trace, who) == 0
  {
    hide Account, Step, Accounted, RuntimeOf, TimeOf;
    if trace == [] {
      NothingAccounted(who);
    } else {
      var before, e := trace[..|trace| - 1], trace[|trace| - 1];
      assert e in trace;
      TimelineBalances(before, who);
      var s := Run(NO_WINDOW, before);
      TotalsMove(s, e, who);
      if SwitchesOut(e, who) {
        TimesRemembered(NO_WINDOW, before, who, e.cpu);
        SwitchAccounts(RuntimeOf(s, who), TimeOf(s, e.cpu), e.time);
      }
    }
  }

  lemma NothingAccounted(who: Who)
    ensures Accounted(RuntimeOf(Empty(), who)) == 0
  {
  }

  // Well-formed traces.

  function EndTime(trace: seq<Event>): nat {
    if trace == [] then 0 else trace[|trace| - 1].time
  }

  /** The thread each CPU seen so far switched to last. */
  function OnCpu(trace: seq<Event>): map<nat, Who> {
    if trace == [] then map[]
    else
      var e := trace[|trace| - 1];
      if e.Switch? then OnCpu(trace[..|trace| - 1])[e.cpu := NextOf(e)] else OnCpu(trace[..|trace| - 1])
  }

  predicate Mentioned(trace: seq<Event>, who: Who) {
    exists e | e in trace :: e.Switch? && (SwitchesOut(e, who) || NextOf(e) == who)
  }

  /**
   A CPU switches away from the thread it switched to, or from one it ran since before the trace; a thread
   is on one CPU at a time.
   */
  ghost predicate Consistent(before: seq<Event>, e: Event)
    requires e.Switch?
  {
    && (if e.cpu in OnCpu(before) then SwitchesOut(e, OnCpu(before)[e.cpu])
        else forall who | SwitchesOut(e, who) :: !Mentioned(before, who))
    && (forall c | c in OnCpu(before) && c != e.cpu :: OnCpu(before)[c] != NextOf(e))
  }

  ghost predicate WellFormed(trace: seq<Event>) {
    trace == [] ||
    (var before, e := trace[..|trace| - 1], trace[|trace| - 1];
     WellFormed(before) && 0 < e.time && EndTime(before) <= e.time && (e.Switch? ==> Consistent(before, e)))
  }

  lemma {:induction false} TimesOrdered(trace: seq<Event>, who: Who, cpu: nat)
    requires WellFormed(trace)
    ensures PositiveTimes(trace)
    ensures LastOut(trace, who) <= EndTime(trace) && LastSwitch(trace, cpu) <= EndTime(trace)
    ensures cpu in OnCpu(trace) <==> LastSwitch(trace, cpu) != 0
    ensures !Mentioned(trace, who) ==> LastOut(trace, who) == 0
    ensures cpu in OnCpu(trace) ==> Mentioned(trace, OnCpu(trace)[cpu])
  {
    hide Consistent;
    if trace != [] {
      var before, e := trace[..|trace| - 1], trace[|trace| - 1];
      TimesOrdered(before, who, cpu);
      assert trace == before + [e];
      assert forall x | x in before :: x in trace;
      assert e in trace;
    }
  }

  /** No two CPUs run the same thread. */
  lemma {:induction false} OneCpuEach(trace: seq<Event>, c: nat, d: nat)
    requires WellFormed(trace) && c != d && c in OnCpu(trace) && d in OnCpu(trace)
    ensures OnCpu(trace)[c] != OnCpu(trace)[d]
  {
    var before, e := trace[..|trace| - 1], trace[|trace| - 1];
    if e.Wakeup? || (c != e.cpu && d != e.cpu) {
      OneCpuEach(before, c, d);
    }
  }

  lemma OneLeaves(e: Event, a: Who, b: Who)
    requires SwitchesOut(e, a) && SwitchesOut(e, b)
    ensures a == b
  {
    ThreadIs(e, a);
    ThreadIs(e, b);
  }

  /** The thread on a CPU was switched out before it got there. */
  lemma {:induction false} OutBeforeIn(trace: seq<Event>, c: nat)
    requires WellFormed(trace) && c in OnCpu(trace)
    ensures LastOut(trace, OnCpu(trace)[c]) <= LastSwitch(trace, c)
  {
    var before, e := trace[..|trace| - 1], trace[|trace| - 1];
    TimesOrdered(trace, OnCpu(trace)[c], c);
    if e.Wakeup? {
      OutBeforeIn(before, c);
    } else if c != e.cpu {
      OutBeforeIn(before, c);
      if SwitchesOut(e, OnCpu(trace)[c]) {
        if e.cpu in OnCpu(before) {
          OneCpuEach(before, c, e.cpu);
          OneLeaves(e, OnCpu(before)[c], OnCpu(before)[e.cpu]);
        } else {
          TimesOrdered(before, OnCpu(trace)[c], c);
        }
      }
    }
  }

  lemma {:induction false} NothingMissed(trace: seq<Event>, who: Who)
    requires WellFormed(trace)
    ensures Missed(trace, who) == 0
  {
    if trace != [] {
      var before, e := trace[..|trace| - 1], trace[|trace| - 1];
      NothingMissed(before, who);
      if SwitchesOut(e, who) {
        TimesOrdered(before, who, e.cpu);
        if e.cpu in OnCpu(before) {
          OneLeaves(e, who, OnCpu(before)[e.cpu]);
          OutBeforeIn(before, e.cpu);
        }
      }
    }
  }

  /** In a well-formed trace the totals partition each thread's timeline exactly. */
  lemma TimelinePartitioned(trace: seq<Event>, who: Who)
    requires WellFormed(trace)
    ensures Accounted(RuntimeOf(Run(NO_WINDOW, trace), who)) == LastOut(trace, who) - Origin(trace, who)
  {
    TimesOrdered(trace, who, 0);
    TimelineBalances(trace, who);
    NothingMissed(trace, who);
  }

  // From the start of the first accounted run.

  /** When the thread was first switched out, 0 if never. */
  function FirstOut(trace: seq<Event>, who: Who): nat {
    if trace == [] then 0
    else
      var before, e := trace[..|trace| - 1], trace[|trace| - 1];
      if LastOut(before, who) == 0 && SwitchesOut(e, who) then e.time else FirstOut(before, who)
  }

  /** When the first run that was accounted to the thread began, 0 if there is none. */
  function FirstRun(trace: seq<Event>, who: Who): nat {
    if trace == [] then 0
    else
      var before, e := trace[..|trace| - 1], trace[|trace| - 1];
      if FirstRun(before, who) == 0 && SwitchesOut(e, who) then LastSwitch(before, e.cpu) else FirstRun(before, who)
  }

  /** The thread's first switch-out was on a CPU that had switched before. */
  predicate SeenFirst(trace: seq<Event>, who: Who) {
    trace != [] &&
    var before, e := trace[..|trace| - 1], trace[|trace| - 1];
    if LastOut(before, who) == 0 && SwitchesOut(e, who) then LastSwitch(before, e.cpu) != 0 else SeenFirst(before, who)
  }

  lemma {:induction false} OriginIs(trace: seq<Event>, who: Who)
    requires PositiveTimes(trace) && LastOut(trace, who) != 0
    ensures Origin(trace, who) == if SeenFirst(trace, who) then FirstRun(trace, who) else FirstOut(trace, who)
    ensures SeenFirst(trace, who) ==> FirstRun(trace, who) != 0
  {
    hide SwitchesOut;
    var before := trace[..|trace| - 1];
    if LastOut(before, who) != 0 {
      OriginIs(before, who);
    } else {
      NoRunYet(before, who);
    }
  }

  lemma {:induction false} NoRunYet(trace: seq<Event>, who: Who)
    requires PositiveTimes(trace) && LastOut(trace, who) == 0
    ensures FirstRun(trace, who) == 0
  {
    if trace != [] {
      assert trace[|trace| - 1] in trace;
      NoRunYet(trace[..|trace| - 1], who);
    }
  }

  /**
   The totals count from the start of the first accounted run exactly when that run was the first
   one, or followed it at once: a first run whose start was not seen is left out, the wait after it is not.
   */
  lemma PartitionedFromFirstRun(trace: seq<Event>, who: Who)
    requires WellFormed(trace) && FirstRun(trace, who) != 0
    ensures Accounted(RuntimeOf(Run(NO_WINDOW, trace), who)) == LastOut(trace, who) - FirstRun(trace, who)
            <==> SeenFirst(trace, who) || FirstOut(trace, who) == FirstRun(trace, who)
  {
    hide Run;
    TimelinePartitioned(trace, who);
    TimesOrdered(trace, who, 0);
    if LastOut(trace, who) == 0 { NoRunYet(trace, who); }
    OriginIs(trace, who);
  }

  lemma Extended(t: seq<Event>, e: Event, who: Who)
    requires e.Switch?
    ensures WellFormed(t + [e]) <==> WellFormed(t) && 0 < e.time && EndTime(t) <= e.time && Consistent(t, e)
    ensures OnCpu(t + [e]) == OnCpu(t)[e.cpu := NextOf(e)] && EndTime(t + [e]) == e.time
    ensures forall c :: LastSwitch(t + [e], c) == if c == e.cpu then e.time else LastSwitch(t, c)
    ensures !SwitchesOut(e, who) ==>
              LastOut(t + [e], who) == LastOut(t, who) && Origin(t + [e], who) == Origin(t, who)
              && FirstRun(t + [e], who) == FirstRun(t, who)
    ensures SwitchesOut(e, who) ==>
              && LastOut(t + [e], who) == e.time
              && Origin(t + [e], who) ==
                 (if LastOut(t, who) != 0 then Origin(t, who)
                  else if LastSwitch(t, e.cpu) == 0 then e.time else LastSwitch(t, e.cpu))
              && FirstRun(t + [e], who) == if FirstRun(t, who) == 0 then LastSwitch(t, e.cpu) else FirstRun(t, who)
  {
    assert (t + [e])[..|t + [e]| - 1] == t;
  }

  /**
   Thread 6 of process 5 is switched out at 10 before its CPU was known, asleep until 20, out again at
   30: 20 accounted, 10 since the run began, and nothing for the process.
   */
  lemma FirstRunUnseen(a: Event, b: Event, c: Event)
    requires a == Switch(0, 6, 5, 6, 0, 1, 10) && b == Switch(0, 0, 0, 0, 6, 0, 20) && c == Switch(0, 6, 5, 6, 0, 1, 30)
    ensures var trace := [a] + [b] + [c];
            && WellFormed(trace) && FirstRun(trace, Task(6)) == 20 && LastOut(trace, Task(6)) == 30
            && Accounted(RuntimeOf(Run(NO_WINDOW, trace), Task(6))) == 20
            && Accounted(RuntimeOf(Run(NO_WINDOW, trace), Task(5))) == 0
  {
    hide WellFormed, LastSwitch, LastOut, Origin, FirstRun, Run, Accounted, RuntimeOf, OnCpu, EndTime;
    var none: seq<Event> := [];
    assert none + [a] == [a];
    NothingYet(Task(6));
    Extended(none, a, Task(6));
    Extended([a], b, Task(6));
    Extended([a] + [b], c, Task(6));
    TimelinePartitioned([a] + [b] + [c], Task(6));
    NothingYet(Task(5));
    Extended(none, a, Task(5));
    Extended([a], b, Task(5));
    Extended([a] + [b], c, Task(5));
    TimelinePartitioned([a] + [b] + [c], Task(5));
  }

  lemma NothingYet(who: Who)
    ensures WellFormed([]) && OnCpu([]) == map[] && EndTime([]) == 0
    ensures LastOut([], who) == 0 && Origin([], who) == 0 && FirstRun([], who) == 0
    ensures forall c :: LastSwitch([], c) == 0
  {
  }

  // The delay is part of the wait.

  /** A pending wakeup is younger than the switch-out before it. */
  lemma {:induction false} ReadyAfterOut(trace: seq<Event>, who: Who)
    requires WellFormed(trace)
    ensures var ready := RuntimeOf(Run(NO_WINDOW, trace), who).ready;
            ready == 0 || LastOut(trace, who) <= ready <= EndTime(trace)
  {
    hide Account, Consistent;
    if trace != [] {
      var before := trace[..|trace| - 1];
      ReadyAfterOut(before, who);
      TimesOrdered(before, who, 0);
    }
  }

  function Wait(r: Runtime): int { r.dtSleep + r.dtIowait + r.dtPreempt }

  /** After its first switch-out, a thread's delay at a switch-out is never longer than its wait. */
  lemma DelayWithinWait(trace: seq<Event>, who: Who)
    requires WellFormed(trace) && trace != [] && SwitchesOut(trace[|trace| - 1], who)
    requires LastOut(trace[..|trace| - 1], who) != 0
    ensures var r := RuntimeOf(Run(NO_WINDOW, trace), who);
            0 <= r.dtDelay <= Wait(r)
  {
    hide Account;
    var before, e := trace[..|trace| - 1], trace[|trace| - 1];
    var s := Run(NO_WINDOW, before);
    TimesOrdered(before, who, e.cpu);
    ThreadIs(e, who);
    if e.cpu in OnCpu(before) {
      OneLeaves(e, who, OnCpu(before)[e.cpu]);
      OutBeforeIn(before, e.cpu);
    }
    TimesRemembered(NO_WINDOW, before, who, e.cpu);
    ReadyAfterOut(before, who);
    DelayOf(RuntimeOf(s, who), TimeOf(s, e.cpu), e.time);
  }

  lemma DelayOf(r: Runtime, tprev: int, time: nat)
    requires 0 < r.lastTime <= tprev && (r.ready == 0 || r.lastTime <= r.ready)
    ensures var a := Account(NO_WINDOW, r, tprev, time);
            0 <= a.dtDelay <= Wait(a)
  {
  }
}
