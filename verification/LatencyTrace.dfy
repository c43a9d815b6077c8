/**
 The latency atoms of a thread, told from the events alone: an atom begins when the thread leaves its CPU
 or is first heard of; the thread becomes runnable, comes back, and the time between is its latency.
 */
module LatencyTrace {
  import opened Sums
  import opened Options
  import opened Latency

  // The reference.

  /** The event begins an atom of the thread. */
  predicate Begins(before: seq<Event>, e: Event, tid: int) {
    Accepted(before, e) && Mentions(e, tid) && (TakesOut(e, tid) || !HeardOf(before, tid))
  }

  /** It leaves the thread runnable: preempted, or first seen running; or it wakes a thread not heard of. */
  predicate BeginsRunnable(e: Event, tid: int) {
    if TakesOut(e, tid) then e.prevState == 0 || (e.prevState > 11 && e.beyond == 'R') else true
  }

  function OutTime(trace: seq<Event>, tid: int): nat {
    if trace == [] then 0
    else
      var before, e := trace[..|trace| - 1], trace[|trace| - 1];
      if Begins(before, e, tid) then e.time else OutTime(before, tid)
  }

  /** Since when the thread is runnable: from the beginning, or from the first wakeup not before it. */
  function Runnable(trace: seq<Event>, tid: int): Option<nat> {
    if trace == [] then None
    else
      var before, e := trace[..|trace| - 1], trace[|trace| - 1];
      if Begins(before, e, tid) then if BeginsRunnable(e, tid) then Some(e.time) else None
      else if e.Wakeup? && e.pid == tid && Runnable(before, tid) == None && OutTime(before, tid) <= e.time
      then Some(e.time)
      else Runnable(before, tid)
  }

  predicate SwitchesIn(before: seq<Event>, e: Event, tid: int) {
    Accepted(before, e) && e.Switch? && e.next == tid
  }

  /** The next accepted switch to the thread since it is runnable. */
  function CameIn(trace: seq<Event>, tid: int): Option<nat> {
    if trace == [] then None
    else
      var before, e := trace[..|trace| - 1], trace[|trace| - 1];
      var came := if Begins(before, e, tid) then None else CameIn(before, tid);
      if SwitchesIn(before, e, tid) && Runnable(trace, tid) != None && came == None then Some(e.time) else came
  }

  /** The run time reported since the atom began. */
  function RanSince(trace: seq<Event>, tid: int): nat {
    if trace == [] then 0
    else
      var before, e := trace[..|trace| - 1], trace[|trace| - 1];
      (if Begins(before, e, tid) then 0 else RanSince(before, tid)) +
      if e.Runtime? && e.pid == tid then e.runtime else 0
  }

  /** A thread asleep, waiting for a CPU, back on one, or back before it was even runnable. */
  function StateOf(runnable: Option<nat>, came: Option<nat>): AtomState {
    if runnable == None then Sleeping
    else if came == None then WaitCpu
    else if runnable.value <= came.value then SchedIn
    else Ignored
  }

  /** The last atom of the thread. */
  function Now(trace: seq<Event>, tid: int): Atom {
    var runnable, came := Runnable(trace, tid), CameIn(trace, tid);
    var state := StateOf(runnable, came);
    Atom(state, OutTime(trace, tid), if runnable == None then 0 else runnable.value,
         if state.SchedIn? then came.value else 0, RanSince(trace, tid))
  }

  /** All its atoms: each as it was when the next one began. */
  function History(trace: seq<Event>, tid: int): seq<Atom> {
    if trace == [] then []
    else
      var before, e := trace[..|trace| - 1], trace[|trace| - 1];
      var h := History(before, tid);
      if Begins(before, e, tid) then h + [Now(trace, tid)]
      else if h == [] then []
      else h[..|h| - 1] + [Now(trace, tid)]
  }

  // The handlers do the same.

  lemma Steps(before: seq<Event>, e: Event, tid: int)
    ensures var trace := before + [e];
            && OutTime(trace, tid) == (if Begins(before, e, tid) then e.time else OutTime(before, tid))
            && Runnable(trace, tid) ==
               (if Begins(before, e, tid) then if BeginsRunnable(e, tid) then Some(e.time) else None
                else if e.Wakeup? && e.pid == tid && Runnable(before, tid) == None && OutTime(before, tid) <= e.time
                then Some(e.time)
                else Runnable(before, tid))
            && CameIn(trace, tid) ==
               (var came := if Begins(before, e, tid) then None else CameIn(before, tid);
                if SwitchesIn(before, e, tid) && Runnable(trace, tid) != None && came == None then Some(e.time)
                else came)
            && RanSince(trace, tid) ==
               (if Begins(before, e, tid) then 0 else RanSince(before, tid)) +
               (if e.Runtime? && e.pid == tid then e.runtime else 0)
            && History(trace, tid) ==
               (var h := History(before, tid);
                if Begins(before, e, tid) then h + [Now(trace, tid)]
                else if h == [] then []
                else h[..|h| - 1] + [Now(trace, tid)])
  {
    hide Begins, BeginsRunnable, SwitchesIn, Now;
    assert (before + [e])[..|before + [e]| - 1] == before;
  }

  /** What happens to the last atom: it begins, and the thread is woken, comes back or has run. */
  function BegunAs(runnable: bool, time: nat): Atom {
    if runnable then Atom(WaitCpu, time, time, 0, 0) else Atom(Sleeping, time, 0, 0, 0)
  }

  function Woken(x: Atom, time: nat): Atom {
    if x.state.Sleeping? && x.outTime <= time then x.(state := WaitCpu, wakeTime := time) else x
  }

  function Back(x: Atom, time: nat): Atom {
    if !x.state.WaitCpu? then x
    else if x.wakeTime <= time then x.(state := SchedIn, inTime := time)
    else x.(state := Ignored)
  }

  function Met(x: Atom, e: Event, tid: int): Atom {
    match e
    case Switch(_, _, next, _, _, time) => if next == tid then Back(x, time) else x
    case Runtime(_, runtime, _) => x.(runtime := x.runtime + runtime)
    case Wakeup(_, time) => Woken(x, time)
  }

  lemma NowIs(before: seq<Event>, e: Event, tid: int)
    ensures var x := if Begins(before, e, tid) then BegunAs(BeginsRunnable(e, tid), e.time) else Now(before, tid);
            Now(before + [e], tid) == if Accepted(before, e) && Mentions(e, tid) then Met(x, e, tid) else x
  {
    hide OutTime, Runnable, CameIn, RanSince, HeardOf, LastSwitch;
    Steps(before, e, tid);
    CameRunnable(before, tid);
  }

  /** Only a runnable thread comes in. */
  lemma {:induction false} CameRunnable(trace: seq<Event>, tid: int)
    ensures CameIn(trace, tid) != None ==> Runnable(trace, tid) != None
  {
    hide Begins, BeginsRunnable, SwitchesIn;
    if trace != [] { CameRunnable(trace[..|trace| - 1], tid); }
  }

  function LastOf(a: seq<Atom>): Atom
    requires a != []
  {
    a[|a| - 1]
  }

  function WithLast(a: seq<Atom>, x: Atom): seq<Atom>
    requires a != []
  {
    a[..|a| - 1] + [x]
  }

  lemma OutList(a: Atoms, e: Event)
    requires e.Switch?
    ensures AddSchedOut(a, SchedOutState(e.prevState, e.beyond), e.time).list ==
            a.list + [BegunAs(BeginsRunnable(e, e.prev), e.time)]
  {
  }

  lemma InList(a: Atoms, time: nat)
    requires a.list != []
    ensures AddSchedIn(a, time).list == WithLast(a.list, Back(LastOf(a.list), time))
  {
  }

  lemma SwitchList(s: Sched, e: Event, tid: int)
    requires Latency.Inv(s) && e.Switch? && !Backwards(s, e) && Mentions(e, tid)
    ensures var a, b := AtomsOf(s, tid).list, AtomsOf(Step(s, e), tid).list;
            var x := BegunAs(BeginsRunnable(e, tid), e.time);
            if TakesOut(e, tid) || tid !in s.threads then b == a + [Met(x, e, tid)]
            else a != [] && b == WithLast(a, Met(LastOf(a), e, tid))
  {
    hide AtomsOk, AddSchedOut, AddSchedIn, SchedOutState, Back, BegunAs;
    var a := AtomsOf(s, tid);
    if e.prev == tid {
      OutList(a, e);
      var b := AddSchedOut(a, SchedOutState(e.prevState, e.beyond), e.time);
      if e.next == tid { InList(b, e.time); }
    } else if tid in s.threads {
      InList(a, e.time);
    } else {
      FirstList(tid, 'R', e.time);
      InList(AddSchedOut(Fresh(tid), 'R', e.time), e.time);
    }
  }

  lemma FirstList(tid: int, c: char, time: nat)
    ensures AddSchedOut(Fresh(tid), c, time).list == [BegunAs(c == 'R', time)]
  {
  }

  lemma OtherList(s: Sched, e: Event, tid: int)
    requires Latency.Inv(s) && !e.Switch? && Mentions(e, tid)
    ensures var a, b := AtomsOf(s, tid).list, AtomsOf(Step(s, e), tid).list;
            if tid !in s.threads then b == [Met(BegunAs(true, e.time), e, tid)]
            else a != [] && b == WithLast(a, Met(LastOf(a), e, tid))
  {
    hide AtomsOk;
  }

  lemma UnmovedList(s: Sched, e: Event, tid: int)
    requires Latency.Inv(s) && (!Mentions(e, tid) || (e.Switch? && Backwards(s, e)))
    ensures AtomsOf(Step(s, e), tid) == AtomsOf(s, tid)
  {
    hide AtomsOk, AddSchedOut, AddSchedIn;
  }

  /**
   For every trace and thread, the atoms are those of the events: each with its state, and the times at
   which the thread left, became runnable and came back.
   */
  lemma {:induction false} AtomsTold(trace: seq<Event>, tid: int)
    ensures AtomsOf(Run(trace), tid).list == History(trace, tid)
    ensures HeardOf(trace, tid) ==> History(trace, tid) != [] && LastOf(History(trace, tid)) == Now(trace, tid)
    ensures tid in Run(trace).threads <==> HeardOf(trace, tid)
  {
    hide Step, Latency.Inv, Now, Met, BegunAs, BeginsRunnable, Mentions, TakesOut;
    if trace == [] {
      NothingTold(tid);
    } else {
      var before, e := trace[..|trace| - 1], trace[|trace| - 1];
      assert before + [e] == trace;
      var s := Run(before);
      AtomsTold(before, tid);
      AtomsCounted(trace, tid);
      Steps(before, e, tid);
      NowIs(before, e, tid);
      if e.Switch? { LastSwitchedIs(before, e.cpu); }
      if !Accepted(before, e) || !Mentions(e, tid) {
        UnmovedList(s, e, tid);
      } else if e.Switch? {
        SwitchList(s, e, tid);
      } else {
        OtherList(s, e, tid);
        NotOut(e, tid);
      }
    }
  }

  lemma NotOut(e: Event, tid: int)
    requires !e.Switch?
    ensures !TakesOut(e, tid) && BeginsRunnable(e, tid)
  {
  }

  lemma NothingTold(tid: int)
    ensures AtomsOf(Run([]), tid).list == []
  {
  }

  // The numbers.

  /** A latency and the time at which it ended. */
  datatype Measure = Measure(lat: nat, at: nat)

  /** The switch ends a wait: the thread is runnable, not later than that, and has not come in since. */
  predicate Measures(before: seq<Event>, e: Event, tid: int) {
    var runnable := Runnable(before + [e], tid);
    && SwitchesIn(before, e, tid) && (Begins(before, e, tid) || CameIn(before, tid) == None)
    && runnable != None && runnable.value <= e.time
  }

  function Measured(trace: seq<Event>, tid: int): seq<Measure> {
    if trace == [] then []
    else
      var before, e := trace[..|trace| - 1], trace[|trace| - 1];
      Measured(before, tid) +
      if Measures(before, e, tid) then [Measure(e.time - Runnable(before + [e], tid).value, e.time)] else []
  }

  function LatIn(m: Measure): int { m.lat }

  /** The greatest latency and the first time it was reached, 0 if there is none above 0. */
  predicate FirstMax(ms: seq<Measure>, max: nat, at: nat) {
    && (forall i | 0 <= i < |ms| :: ms[i].lat <= max)
    && if max == 0 then at == 0
       else exists i | 0 <= i < |ms| :: ms[i] == Measure(max, at) && forall j | 0 <= j < i :: ms[j].lat < max
  }

  predicate Figures(a: Atoms, ms: seq<Measure>) {
    a.nbAtoms == |ms| && a.totalLat == SumOf(LatIn, ms) && FirstMax(ms, a.maxLat, a.maxLatAt)
  }

  lemma MoreMax(ms: seq<Measure>, max: nat, at: nat, m: Measure)
    requires FirstMax(ms, max, at)
    ensures FirstMax(ms + [m], if m.lat > max then m.lat else max, if m.lat > max then m.at else at)
  {
    var all := ms + [m];
    if m.lat > max {
      assert all[|ms|] == m;
    } else if max > 0 {
      var i :| 0 <= i < |ms| && ms[i] == Measure(max, at) && forall j | 0 <= j < i :: ms[j].lat < max;
      assert all[i] == Measure(max, at) && forall j | 0 <= j < i :: all[j].lat < max;
    }
  }

  /** An atom that waits for a CPU and became runnable by then. */
  predicate EndsWait(x: Atom, time: nat) {
    x.state.WaitCpu? && x.wakeTime <= time
  }

  lemma InFigures(a: Atoms, time: nat, ms: seq<Measure>)
    requires a.list != [] && Figures(a, ms)
    ensures var x := LastOf(a.list);
            Figures(AddSchedIn(a, time),
                    ms + if EndsWait(x, time) then [Measure(time - x.wakeTime, time)] else [])
  {
    hide SumOf;
    var x := LastOf(a.list);
    if EndsWait(x, time) {
      var m := Measure(time - x.wakeTime, time);
      SumAppend(LatIn, ms, m);
      MoreMax(ms, a.maxLat, a.maxLatAt, m);
    } else {
      assert ms + [] == ms;
    }
  }

  lemma SwitchFigures(s: Sched, e: Event, tid: int, ms: seq<Measure>)
    requires Latency.Inv(s) && e.Switch? && !Backwards(s, e) && Mentions(e, tid) && Figures(AtomsOf(s, tid), ms)
    ensures var begins, a := TakesOut(e, tid) || tid !in s.threads, AtomsOf(s, tid).list;
            && (!begins ==> a != [])
            && var x := if begins then BegunAs(BeginsRunnable(e, tid), e.time) else LastOf(a);
               Figures(AtomsOf(Step(s, e), tid),
                       ms + if e.next == tid && EndsWait(x, e.time) then [Measure(e.time - x.wakeTime, e.time)] else [])
  {
    hide AtomsOk, AddSchedOut, AddSchedIn, SchedOutState, BegunAs, Figures, EndsWait;
    var a := AtomsOf(s, tid);
    assert ms + [] == ms;
    if e.prev == tid {
      OutList(a, e);
      OutFigures(a, SchedOutState(e.prevState, e.beyond), e.time, ms);
      if e.next == tid { InFigures(AddSchedOut(a, SchedOutState(e.prevState, e.beyond), e.time), e.time, ms); }
    } else if tid in s.threads {
      InFigures(a, e.time, ms);
    } else {
      FirstList(tid, 'R', e.time);
      OutFigures(Fresh(tid), 'R', e.time, ms);
      InFigures(AddSchedOut(Fresh(tid), 'R', e.time), e.time, ms);
    }
  }

  lemma OutFigures(a: Atoms, c: char, time: nat, ms: seq<Measure>)
    requires Figures(a, ms)
    ensures Figures(AddSchedOut(a, c, time), ms)
  {
  }

  lemma OtherFigures(s: Sched, e: Event, tid: int, ms: seq<Measure>)
    requires Latency.Inv(s) && !e.Switch? && Mentions(e, tid) && Figures(AtomsOf(s, tid), ms)
    ensures Figures(AtomsOf(Step(s, e), tid), ms)
  {
    hide AtomsOk, SumOf, FirstMax;
  }

  /** A thread that waits for a CPU is one that is runnable and has not come in. */
  lemma NowWaits(before: seq<Event>, e: Event, tid: int)
    requires SwitchesIn(before, e, tid)
    ensures var x := if Begins(before, e, tid) then BegunAs(BeginsRunnable(e, tid), e.time) else Now(before, tid);
            && (EndsWait(x, e.time) <==> Measures(before, e, tid))
            && (EndsWait(x, e.time) ==> Runnable(before + [e], tid) == Some(x.wakeTime))
  {
    hide OutTime, Runnable, CameIn, RanSince, Begins, BeginsRunnable;
    Steps(before, e, tid);
  }

  /** For every trace the count, total and maximum of a thread are those of the waits that its events end. */
  lemma {:induction false} FiguresTold(trace: seq<Event>, tid: int)
    ensures Figures(AtomsOf(Run(trace), tid), Measured(trace, tid))
  {
    hide Step, Latency.Inv, Now, BegunAs, BeginsRunnable, Figures, EndsWait, Runnable, CameIn, History, AtomsOf;
    if trace == [] {
      NoFigures(tid);
    } else {
      var before, e := trace[..|trace| - 1], trace[|trace| - 1];
      var s, ms := Run(before), Measured(before, tid);
      FiguresTold(before, tid);
      AtomsTold(before, tid);
      assert ms + [] == ms;
      if e.Switch? { LastSwitchedIs(before, e.cpu); }
      if !Accepted(before, e) || !Mentions(e, tid) {
        UnmovedList(s, e, tid);
      } else if e.Switch? {
        SwitchFigures(s, e, tid, ms);
        if e.next == tid { NowWaits(before, e, tid); }
      } else {
        OtherFigures(s, e, tid, ms);
      }
    }
  }

  lemma NoFigures(tid: int)
    ensures Figures(AtomsOf(Run([]), tid), [])
  {
  }

  // The wakeups that count as timestamps.

  /** The wakeup finds its thread asleep, or not heard of. */
  predicate FindsAsleep(before: seq<Event>, e: Event) {
    e.Wakeup? && (!HeardOf(before, e.pid) || Runnable(before, e.pid) == None)
  }

  /** And it is older than the thread's sleep. */
  predicate OutOfOrder(before: seq<Event>, e: Event) {
    FindsAsleep(before, e) && HeardOf(before, e.pid) && e.time < OutTime(before, e.pid)
  }

  function Stamps(trace: seq<Event>): nat {
    if trace == [] then 0
    else
      Stamps(trace[..|trace| - 1]) + if FindsAsleep(trace[..|trace| - 1], trace[|trace| - 1]) then 1 else 0
  }

  function Unordered(trace: seq<Event>): nat {
    if trace == [] then 0
    else
      Unordered(trace[..|trace| - 1]) + if OutOfOrder(trace[..|trace| - 1], trace[|trace| - 1]) then 1 else 0
  }

  lemma StepStamps(s: Sched, e: Event)
    requires Latency.Inv(s)
    ensures var t := Step(s, e);
            var asleep := e.Wakeup? && (e.pid !in s.threads || Last(s.threads[e.pid]).state.Sleeping?);
            var late := asleep && e.pid in s.threads && e.time < Last(s.threads[e.pid]).outTime;
            && t.timestamps == s.timestamps + (if asleep then 1 else 0)
            && t.unordered == s.unordered + if late then 1 else 0
  {
    hide AtomsOk, AddSchedIn, AddRuntime;
  }

  lemma {:induction false} StampsTold(trace: seq<Event>)
    ensures Run(trace).timestamps == Stamps(trace) && Run(trace).unordered == Unordered(trace)
  {
    hide Step, AtomsOk, Runnable, CameIn, History, HeardOf, OutTime, RanSince;
    if trace != [] {
      var before, e := trace[..|trace| - 1], trace[|trace| - 1];
      StampsTold(before);
      StepStamps(Run(before), e);
      if e.Wakeup? { AtomsTold(before, e.pid); }
    }
  }

  /** Out asleep at 10, woken at 20, in at 30: one latency of 10. */
  lemma OneLatency(a: Event, b: Event, c: Event)
    requires a == Switch(0, 1, 0, 1, 'R', 10) && b == Wakeup(1, 20) && c == Switch(0, 0, 1, 0, 'R', 30)
    ensures Measured([a] + [b] + [c], 1) == [Measure(10, 30)]
    ensures Figures(AtomsOf(Run([a] + [b] + [c]), 1), [Measure(10, 30)])
  {
    hide Runnable, CameIn, OutTime, Measured, Figures, HeardOf, LastSwitch, History, Run;
    var none: seq<Event> := [];
    assert none + [a] == [a];
    NothingMeasured(1);
    MeasuredMore(none, a, 1);
    MeasuredMore([a], b, 1);
    MeasuredMore([a] + [b], c, 1);
    Steps(none, a, 1);
    Steps([a], b, 1);
    Steps([a] + [b], c, 1);
    FiguresTold([a] + [b] + [c], 1);
  }

  lemma NothingMeasured(tid: int)
    ensures Measured([], tid) == [] && !HeardOf([], tid) && forall cpu: nat :: LastSwitch([], cpu) == 0
  {
  }

  lemma MeasuredMore(before: seq<Event>, e: Event, tid: int)
    ensures Measured(before + [e], tid) ==
            Measured(before, tid) +
            if Measures(before, e, tid) then [Measure(e.time - Runnable(before + [e], tid).value, e.time)] else []
    ensures HeardOf(before + [e], tid) <==> HeardOf(before, tid) || (Accepted(before, e) && Mentions(e, tid))
    ensures forall cpu: nat :: LastSwitch(before + [e], cpu) ==
              if e.Switch? && e.cpu == cpu then e.time else LastSwitch(before, cpu)
  {
    hide Measures, Runnable, Mentions, Accepted;
    assert (before + [e])[..|before + [e]| - 1] == before;
  }
}
