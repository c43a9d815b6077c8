/** Each of timehist's totals, for any window, as a sum over the switches of the trace. */
module TimehistTotals {
  import opened Timehist
  import opened TimehistTimeline

  /** Why a thread waited: it was preempted, or it blocked, or it slept. */
  datatype Why = Preempted | Blocked | Asleep

  function WhyOf(state: int): Why {
    if state == 0 then Preempted else if state == 2 then Blocked else Asleep
  }

  /** The state the thread was last switched out in. */
  function LastState(trace: seq<Event>, who: Who): int {
    if trace == [] then 0
    else if SwitchesOut(trace[|trace| - 1], who) then trace[|trace| - 1].state
    else LastState(trace[..|trace| - 1], who)
  }

  /** When the thread was first woken since its last switch-out, 0 if it was not. */
  function WokenAt(trace: seq<Event>, who: Who): nat {
    if trace == [] then 0
    else
      var before, e := trace[..|trace| - 1], trace[|trace| - 1];
      if SwitchesOut(e, who) then 0
      else if e.Wakeup? && Task(e.pid) == who && WokenAt(before, who) == 0 then e.time
      else WokenAt(before, who)
  }

  lemma {:induction false} StateRemembered(w: Window, trace: seq<Event>, who: Who)
    ensures RuntimeOf(Run(w, trace), who).lastState == LastState(trace, who)
    ensures RuntimeOf(Run(w, trace), who).ready == WokenAt(trace, who)
  {
    hide Account;
    if trace != [] {
      StateRemembered(w, trace[..|trace| - 1], who);
    }
  }

  datatype Totals = Totals(runs: nat, run: int, preempted: int, blocked: int, asleep: int, delay: int)

  function Plus(a: Totals, b: Totals): Totals {
    Totals(a.runs + b.runs, a.run + b.run, a.preempted + b.preempted, a.blocked + b.blocked, a.asleep + b.asleep,
        a.delay + b.delay)
  }

  function TotalsOf(r: Runtime): Totals {
    Totals(r.runs, r.totalRun, r.totalPreempt, r.totalIowait, r.totalSleep, r.totalDelay)
  }

  /**
   What a switch-out at `time` stands for: the thread came on its CPU at `in_`, had left one at
   `out` for the reason `why`, and was woken at `woken`; 0 is not known.
   */
  function Stretch(out: nat, why: Why, woken: nat, in_: int, time: nat): Totals {
    if in_ == 0 then Totals(1, 0, 0, 0, 0, 0)
    else
      var wait := if out == 0 || out > in_ then 0 else in_ - out;
      Totals(1, time - in_,
             if why.Preempted? then wait else 0, if why.Blocked? then wait else 0, if why.Asleep? then wait else 0,
             if woken == 0 || woken > in_ then 0 else in_ - woken)
  }

  /** When the thread came on its CPU, but not before the window; 0 if that was not seen. */
  function CameOn(w: Window, before: seq<Event>, e: Event): nat
    requires e.Switch?
  {
    if LastSwitch(before, e.cpu) == 0 then 0 else Max(LastSwitch(before, e.cpu), w.start)
  }

  /** When it left, but not after the window. */
  function LeftAt(w: Window, e: Event): nat {
    if w.end == 0 then e.time else Min(e.time, w.end)
  }

  /** The switch is not before the window, and the thread did not come on its CPU after it. */
  predicate Inside(w: Window, before: seq<Event>, e: Event)
    requires e.Switch?
  {
    w.start <= e.time && (w.end == 0 || CameOn(w, before, e) <= w.end)
  }

  predicate Counts(w: Window, before: seq<Event>, e: Event, who: Who) {
    SwitchesOut(e, who) && Inside(w, before, e)
  }

  lemma ClipsAre(w: Window, before: seq<Event>, e: Event)
    requires e.Switch?
    ensures var tprev := LastSwitch(before, e.cpu);
            && (Inside(w, before, e) <==> !Skipped(w, tprev, e.time))
            && ClipStart(w, tprev) == CameOn(w, before, e) && ClipEnd(w, e.time) == LeftAt(w, e)
  {
  }

  function Expected(w: Window, trace: seq<Event>, who: Who): Totals {
    if trace == [] then Totals(0, 0, 0, 0, 0, 0)
    else
      var before, e := trace[..|trace| - 1], trace[|trace| - 1];
      if !Counts(w, before, e, who) then Expected(w, before, who)
      else
        Plus(Expected(w, before, who),
             Stretch(LastOut(before, who), WhyOf(LastState(before, who)), WokenAt(before, who),
                     CameOn(w, before, e), LeftAt(w, e)))
  }

  lemma AccountIsStretch(w: Window, r: Runtime, tprev: nat, time: nat)
    requires r.lastTime >= 0 && r.ready >= 0
    ensures TotalsOf(Account(w, r, tprev, time)) ==
            if Skipped(w, tprev, time) then TotalsOf(r)
            else Plus(TotalsOf(r), Stretch(r.lastTime, WhyOf(r.lastState), r.ready, ClipStart(w, tprev),
              ClipEnd(w, time)))
  {
  }

  lemma OutKeeps(r: Runtime, e: Event)
    requires e.Switch?
    ensures TotalsOf(SchedOut(r, e)) == TotalsOf(r)
  {
  }

  lemma WakeKeeps(s: Hist, e: Event, who: Who)
    requires e.Wakeup?
    ensures TotalsOf(RuntimeOf(Wake(s, e), who)) == TotalsOf(RuntimeOf(s, who))
  {
  }

  /** For every window, trace and thread: all totals are the sums of what the counted switches stand for. */
  lemma {:induction false} TotalsAre(w: Window, trace: seq<Event>, who: Who)
    ensures TotalsOf(RuntimeOf(Run(w, trace), who)) == Expected(w, trace, who)
  {
    hide Account, TotalsOf, Plus, Stretch, SchedOut, Wake, ThreadOf, SwitchesOut, Inside, Skipped;
    if trace == [] {
      NoTotals(who);
    } else {
      var before, e := trace[..|trace| - 1], trace[|trace| - 1];
      var s := Run(w, before);
      TotalsAre(w, before, who);
      ThreadIs(e, who);
      if e.Wakeup? {
        WakeKeeps(s, e, who);
      } else if ThreadOf(e) == who {
        ClipsAre(w, before, e);
        TimesRemembered(w, before, who, e.cpu);
        StateRemembered(w, before, who);
        AccountIsStretch(w, RuntimeOf(s, who), TimeOf(s, e.cpu), e.time);
        OutKeeps(Account(w, RuntimeOf(s, who), TimeOf(s, e.cpu), e.time), e);
      }
    }
  }

  lemma NoTotals(who: Who)
    ensures TotalsOf(RuntimeOf(Empty(), who)) == Totals(0, 0, 0, 0, 0, 0)
  {
  }

  // Waits reach back before the window.

  function WaitOf(x: Totals): int { x.preempted + x.blocked + x.asleep }

  /** The thread waited from `out` until it came on its CPU at `in_`. */
  predicate Waited(out: nat, in_: int) {
    0 < out <= in_
  }

  /** How much of the waits of the counted switches lies in the window. */
  function WaitInside(w: Window, trace: seq<Event>, who: Who): int {
    if trace == [] then 0
    else
      var before, e := trace[..|trace| - 1], trace[|trace| - 1];
      WaitInside(w, before, who) +
      if Counts(w, before, e, who) && Waited(LastOut(before, who), CameOn(w, before, e))
      then CameOn(w, before, e) - Max(LastOut(before, who), w.start) else 0
  }

  /** How much of them lies before it. */
  function WaitBefore(w: Window, trace: seq<Event>, who: Who): int {
    if trace == [] then 0
    else
      var before, e := trace[..|trace| - 1], trace[|trace| - 1];
      WaitBefore(w, before, who) +
      if Counts(w, before, e, who) && Waited(LastOut(before, who), CameOn(w, before, e))
      then Max(0, w.start - LastOut(before, who)) else 0
  }

  /** Some counted switch ends a wait that began before the window. */
  predicate WaitsAcrossStart(w: Window, trace: seq<Event>, who: Who) {
    trace != [] &&
    var before, e := trace[..|trace| - 1], trace[|trace| - 1];
    || WaitsAcrossStart(w, before, who)
    || (Counts(w, before, e, who) && Waited(LastOut(before, who), CameOn(w, before, e)) &&
        LastOut(before, who) < w.start)
  }

  /**
   Only the run is clipped to the window: the wait totals are the waits inside it plus what reaches
   back before it, which is nothing if and only if no counted wait began before the window.
   */
  lemma {:induction false} WaitsUnclipped(w: Window, trace: seq<Event>, who: Who)
    ensures WaitOf(Expected(w, trace, who)) == WaitInside(w, trace, who) + WaitBefore(w, trace, who)
    ensures WaitBefore(w, trace, who) >= 0
    ensures WaitBefore(w, trace, who) == 0 <==> !WaitsAcrossStart(w, trace, who)
  {
    hide Inside, LastOut, LastSwitch, LastState, WokenAt, SwitchesOut, WhyOf, LeftAt;
    if trace != [] {
      WaitsUnclipped(w, trace[..|trace| - 1], who);
    }
  }

  /** A counted run lies in the window. */
  lemma RunInside(w: Window, before: seq<Event>, e: Event, who: Who)
    requires Counts(w, before, e, who) && CameOn(w, before, e) != 0
    ensures w.start <= CameOn(w, before, e) && (w.end != 0 ==>
        CameOn(w, before, e) <= w.end && LeftAt(w, e) <= w.end)
  {
  }

  lemma WaitsLonger(w: Window, t: seq<Event>, e: Event, who: Who)
    requires e.Switch?
    ensures var counts := Counts(w, t, e, who) && Waited(LastOut(t, who), CameOn(w, t, e));
            && WaitInside(w, t + [e], who) ==
               WaitInside(w, t, who) + (if counts then CameOn(w, t, e) - Max(LastOut(t, who), w.start) else 0)
            && WaitBefore(w, t + [e], who) ==
               WaitBefore(w, t, who) + if counts then Max(0, w.start - LastOut(t, who)) else 0
  {
    hide Counts, Waited, CameOn;
    assert (t + [e])[..|t + [e]| - 1] == t;
  }

  /** Out at 10, back at 20, out at 30, seen from 15 on: half of the wait of 10 lies before the window. */
  lemma WaitReachesBack(a: Event, b: Event, c: Event)
    requires a == Switch(0, 6, 5, 6, 0, 1, 10) && b == Switch(0, 0, 0, 0, 6, 0, 20) && c == Switch(0, 6, 5, 6, 0, 1, 30)
    ensures var w, trace := Window(15, 0), [a] + [b] + [c];
            && WaitBefore(w, trace, Task(6)) == 5 && WaitInside(w, trace, Task(6)) == 5
            && WaitOf(TotalsOf(RuntimeOf(Run(w, trace), Task(6)))) == 10
  {
    hide WaitInside, WaitBefore, LastOut, LastSwitch, Run, RuntimeOf, TotalsOf, Expected, WellFormed, Origin,
        FirstRun, OnCpu;
    var w, none: seq<Event> := Window(15, 0), [];
    assert none + [a] == [a];
    NothingYet(Task(6));
    NoWaits(w, Task(6));
    Extended(none, a, Task(6));
    Extended([a], b, Task(6));
    WaitsLonger(w, none, a, Task(6));
    WaitsLonger(w, [a], b, Task(6));
    WaitsLonger(w, [a] + [b], c, Task(6));
    TotalsAre(w, [a] + [b] + [c], Task(6));
    WaitsUnclipped(w, [a] + [b] + [c], Task(6));
  }

  lemma NoWaits(w: Window, who: Who)
    ensures WaitInside(w, [], who) == 0 && WaitBefore(w, [], who) == 0
  {
  }

  // What the last switch shows, and the time the history covers.

  function Shown(r: Runtime): Totals {
    Totals(1, r.dtRun, r.dtPreempt, r.dtIowait, r.dtSleep, r.dtDelay)
  }

  lemma AccountShows(w: Window, r: Runtime, tprev: nat, time: nat)
    requires r.lastTime >= 0 && r.ready >= 0 && !Skipped(w, tprev, time)
    ensures Shown(Account(w, r, tprev, time)) ==
            Stretch(r.lastTime, WhyOf(r.lastState), r.ready, ClipStart(w, tprev), ClipEnd(w, time))
  {
  }

  lemma OutShows(r: Runtime, e: Event)
    requires e.Switch?
    ensures Shown(SchedOut(r, e)) == Shown(r)
  {
  }

  /** The line printed for a counted switch shows the stretch it stands for. */
  lemma LastShown(w: Window, before: seq<Event>, e: Event, who: Who)
    requires Counts(w, before, e, who)
    ensures Shown(RuntimeOf(Step(w, Run(w, before), e), who)) ==
            Stretch(LastOut(before, who), WhyOf(LastState(before, who)), WokenAt(before, who),
                    CameOn(w, before, e), LeftAt(w, e))
  {
    hide Account, Shown, Stretch, SchedOut, ThreadOf, Run, Skipped;
    var s := Run(w, before);
    ThreadIs(e, who);
    ClipsAre(w, before, e);
    TimesRemembered(w, before, who, e.cpu);
    StateRemembered(w, before, who);
    AccountShows(w, RuntimeOf(s, who), TimeOf(s, e.cpu), e.time);
    OutShows(Account(w, RuntimeOf(s, who), TimeOf(s, e.cpu), e.time), e);
  }

  /** The time of a switch as the history sees it: one inside the window ends no later than the window. */
  function SeenAt(w: Window, before: seq<Event>, e: Event): nat
    requires e.Switch?
  {
    if Inside(w, before, e) then LeftAt(w, e) else e.time
  }

  /** The first such time that is not before the window, 0 if there is none. */
  function HistoryStart(w: Window, trace: seq<Event>): nat {
    if trace == [] then 0
    else
      var before, e := trace[..|trace| - 1], trace[|trace| - 1];
      if HistoryStart(w, before) == 0 && e.Switch? && w.start <= SeenAt(w, before, e) then SeenAt(w, before, e)
      else HistoryStart(w, before)
  }

  /** The last such time that is not after the window, 0 if there is none. */
  function HistoryEnd(w: Window, trace: seq<Event>): nat {
    if trace == [] then 0
    else
      var before, e := trace[..|trace| - 1], trace[|trace| - 1];
      if e.Switch? && (w.end == 0 || SeenAt(w, before, e) <= w.end) then SeenAt(w, before, e)
      else HistoryEnd(w, before)
  }

  lemma {:induction false} HistoryCovers(w: Window, trace: seq<Event>)
    ensures Run(w, trace).histStart == HistoryStart(w, trace) && Run(w, trace).histEnd == HistoryEnd(w, trace)
  {
    hide Account, Inside, Skipped, LeftAt, ClipEnd, ThreadOf, SchedOut;
    if trace != [] {
      var before, e := trace[..|trace| - 1], trace[|trace| - 1];
      HistoryCovers(w, before);
      if e.Switch? {
        ClipsAre(w, before, e);
        TimesRemembered(w, before, Idle(0), e.cpu);
      }
    }
  }
}
