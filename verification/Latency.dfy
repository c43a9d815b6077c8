/**
 `perf sched latency`: each thread has a list of work atoms, and every scheduler event appends to the
 list or advances its last atom. Profiling covers all CPUs.
 */
module Latency {
  import opened Sums
  import opened RbTree

  const STATE_CHARS := "RSDTtZXxKWP"

  datatype AtomState = Sleeping | WaitCpu | SchedIn | Ignored
  datatype Atom = Atom(state: AtomState, outTime: nat, wakeTime: nat, inTime: nat, runtime: nat)
  datatype Atoms = Atoms(
    tid: int, list: seq<Atom>, maxLat: nat, maxLatAt: nat, totalLat: nat, nbAtoms: nat, totalRuntime: nat,
        numMerged: nat)

  /** `beyond` is the character that a previous state outside the table of characters happens to select. */
  datatype Event =
    | Switch(cpu: nat, prev: int, next: int, prevState: nat, beyond: char, time: nat)
    | Runtime(pid: int, runtime: nat, time: nat)
    | Wakeup(pid: int, time: nat)

  datatype Sched = Sched(threads: map<int, Atoms>, lastSwitched: map<nat, nat>, timestamps: nat, unordered: nat)

  function Fresh(tid: int): Atoms { Atoms(tid, [], 0, 0, 0, 0, 0, 0) }
  function Empty(): Sched { Sched(map[], map[], 0, 0) }
  function AtomsOf(s: Sched, tid: int): Atoms { Get(s.threads, tid, Fresh(tid)) }

  /** The character of a previous state: the string's, its final NUL, or whatever lies `beyond` the string. */
  function SchedOutState(prevState: nat, beyond: char): char {
    if prevState < |STATE_CHARS| then STATE_CHARS[prevState]
    else if prevState == |STATE_CHARS| then 0 as char
    else beyond
  }

  /** The read leaves the string exactly for a state above 11, such as those of an exiting task. */
  lemma ReadsBeyond(prevState: nat)
    ensures (exists c, d :: SchedOutState(prevState, c) != SchedOutState(prevState, d)) <==> prevState > 11
  {
    if prevState > 11 {
      assert SchedOutState(prevState, 'R') != SchedOutState(prevState, 'S');
    }
  }

  // One thread.

  function Last(a: Atoms): Atom
    requires a.list != []
  {
    a.list[|a.list| - 1]
  }

  function SetLast(a: Atoms, atom: Atom): Atoms
    requires a.list != []
  {
    a.(list := a.list[|a.list| - 1 := atom])
  }

  function AddSchedOut(a: Atoms, runState: char, time: nat): Atoms {
    var atom := if runState == 'R' then Atom(WaitCpu, time, time, 0, 0) else Atom(Sleeping, time, 0, 0, 0);
    a.(list := a.list + [atom])
  }

  function AddRuntime(a: Atoms, delta: nat): Atoms
    requires a.list != []
  {
    SetLast(a, Last(a).(runtime := Last(a).runtime + delta)).(totalRuntime := a.totalRuntime + delta)
  }

  function AddSchedIn(a: Atoms, time: nat): Atoms {
    if a.list == [] || !Last(a).state.WaitCpu? then a
    else if time < Last(a).wakeTime then SetLast(a, Last(a).(state := Ignored))
    else
      var delta := time - Last(a).wakeTime;
      var b := SetLast(a, Last(a).(state := SchedIn, inTime := time)).(totalLat := a.totalLat + delta,
        nbAtoms := a.nbAtoms + 1);
      if delta > a.maxLat then b.(maxLat := delta, maxLatAt := time) else b
  }

  function AddWakeup(a: Atoms, time: nat): Atoms
    requires a.list != []
  {
    if !Last(a).state.Sleeping? || Last(a).outTime > time then a
    else SetLast(a, Last(a).(state := WaitCpu, wakeTime := time))
  }

  /** A thread heard of for the first time starts with an atom of its own. */
  function Started(s: Sched, tid: int, runState: char, time: nat): (a: Atoms)
    ensures tid !in s.threads ==> a.list != []
  {
    if tid in s.threads then s.threads[tid] else AddSchedOut(Fresh(tid), runState, time)
  }

  // The events.

  /** A switch whose time is before the CPU's last switch is refused. */
  predicate Backwards(s: Sched, e: Event)
    requires e.Switch?
  {
    Get(s.lastSwitched, e.cpu, 0) > e.time
  }

  function SwitchedOut(s: Sched, e: Event): Sched
    requires e.Switch?
  {
    s.(threads := s.threads[e.prev := AddSchedOut(AtomsOf(s, e.prev), SchedOutState(e.prevState, e.beyond), e.time)])
  }

  function SwitchedIn(s: Sched, e: Event): Sched
    requires e.Switch?
  {
    s.(threads := s.threads[e.next := AddSchedIn(Started(s, e.next, 'R', e.time), e.time)])
  }

  predicate NonEmpty(s: Sched) {
    forall tid | tid in s.threads :: s.threads[tid].list != []
  }

  function Step(s: Sched, e: Event): Sched
    requires NonEmpty(s)
  {
    match e
    case Switch(cpu, _, _, _, _, time) =>
      var s' := s.(lastSwitched := s.lastSwitched[cpu := time]);
      if Backwards(s, e) then s' else SwitchedIn(SwitchedOut(s', e), e)
    case Runtime(pid, runtime, time) =>
      s.(threads := s.threads[pid := AddRuntime(Started(s, pid, 'R', time), runtime)])
    case Wakeup(pid, time) =>
      var a := Started(s, pid, 'S', time);
      var s' := s.(threads := s.threads[pid := AddWakeup(a, time)]);
      if !Last(a).state.Sleeping? then s'
      else s'.(timestamps := s.timestamps + 1, unordered := s.unordered + if Last(a).outTime > time then 1 else 0)
  }

  // What the numbers of a thread stand for.

  function IsIn(atom: Atom): int { if atom.state.SchedIn? then 1 else 0 }
  function LatOf(atom: Atom): int { if atom.state.SchedIn? then atom.inTime - atom.wakeTime else 0 }
  function RunOf(atom: Atom): int { atom.runtime }

  predicate AtomOk(atom: Atom) {
    && (atom.state.WaitCpu? ==> atom.outTime <= atom.wakeTime)
    && (atom.state.SchedIn? ==> atom.outTime <= atom.wakeTime <= atom.inTime)
  }

  /** The numbers of a thread are sums over its atoms. */
  predicate SumsOk(a: Atoms) {
    && a.nbAtoms == SumOf(IsIn, a.list)
    && a.totalLat == SumOf(LatOf, a.list)
    && a.totalRuntime == SumOf(RunOf, a.list)
  }

  /** The longest latency is reached, at the time noted, by some atom unless there was none at all. */
  predicate MaxOk(a: Atoms) {
    && (forall i | 0 <= i < |a.list| :: LatOf(a.list[i]) <= a.maxLat)
    && (a.maxLat == 0 ==> a.maxLatAt == 0)
    && (a.maxLat > 0 ==> exists i | 0 <= i < |a.list| :: LatOf(a.list[i]) == a.maxLat && a.list[i].inTime == a.maxLatAt)
  }

  predicate TimesOk(a: Atoms) {
    forall i | 0 <= i < |a.list| :: AtomOk(a.list[i])
  }

  predicate AtomsOk(a: Atoms) {
    SumsOk(a) && MaxOk(a) && TimesOk(a)
  }

  lemma LastSums(a: Atoms, atom: Atom, f: Atom -> int)
    requires a.list != []
    ensures SumOf(f, SetLast(a, atom).list) == SumOf(f, a.list) - f(Last(a)) + f(atom)
  {
    SumUpdate(f, a.list, |a.list| - 1, atom);
  }

  lemma FreshOk(tid: int)
    ensures AtomsOk(Fresh(tid))
  {
  }

  lemma SchedOutOk(a: Atoms, runState: char, time: nat)
    requires AtomsOk(a)
    ensures AtomsOk(AddSchedOut(a, runState, time))
  {
    var b := AddSchedOut(a, runState, time);
    SumAppend(IsIn, a.list, Last(b));
    SumAppend(LatOf, a.list, Last(b));
    SumAppend(RunOf, a.list, Last(b));
    AppendMaxOk(a, Last(b));
  }

  lemma AppendMaxOk(a: Atoms, atom: Atom)
    requires MaxOk(a) && LatOf(atom) == 0
    ensures MaxOk(a.(list := a.list + [atom]))
  {
    if a.maxLat > 0 {
      var i :| 0 <= i < |a.list| && LatOf(a.list[i]) == a.maxLat && a.list[i].inTime == a.maxLatAt;
      assert (a.list + [atom])[i] == a.list[i];
    }
  }

  /** A change of the last atom that keeps its latency, or gives it one that does not exceed the maximum. */
  lemma ReplaceMaxOk(a: Atoms, atom: Atom)
    requires MaxOk(a) && a.list != []
    requires LatOf(atom) <= a.maxLat
    requires LatOf(Last(a)) > 0 ==> LatOf(atom) == LatOf(Last(a)) && atom.inTime == Last(a).inTime
    ensures MaxOk(SetLast(a, atom))
  {
    if a.maxLat > 0 {
      var i :| 0 <= i < |a.list| && LatOf(a.list[i]) == a.maxLat && a.list[i].inTime == a.maxLatAt;
      assert LatOf(SetLast(a, atom).list[i]) == a.maxLat;
    }
  }

  lemma RuntimeOk(a: Atoms, delta: nat)
    requires AtomsOk(a) && a.list != []
    ensures AtomsOk(AddRuntime(a, delta))
  {
    var atom := Last(a).(runtime := Last(a).runtime + delta);
    LastSums(a, atom, IsIn);
    LastSums(a, atom, LatOf);
    LastSums(a, atom, RunOf);
    assert LatOf(Last(a)) <= a.maxLat;
    ReplaceMaxOk(a, atom);
  }

  lemma WakeupOk(a: Atoms, time: nat)
    requires AtomsOk(a) && a.list != []
    ensures AtomsOk(AddWakeup(a, time))
  {
    var atom := Last(a).(state := WaitCpu, wakeTime := time);
    LastSums(a, atom, IsIn);
    LastSums(a, atom, LatOf);
    LastSums(a, atom, RunOf);
    if Last(a).state.Sleeping? { ReplaceMaxOk(a, atom); }
  }

  lemma SchedInOk(a: Atoms, time: nat)
    requires AtomsOk(a)
    ensures AtomsOk(AddSchedIn(a, time))
  {
    if a.list != [] && Last(a).state.WaitCpu? {
      var atom := if time < Last(a).wakeTime then Last(a).(state := Ignored)
        else Last(a).(state := SchedIn, inTime := time);
      LastSums(a, atom, IsIn);
      LastSums(a, atom, LatOf);
      LastSums(a, atom, RunOf);
      if LatOf(atom) <= a.maxLat {
        ReplaceMaxOk(a, atom);
      } else {
        NewMaxOk(a, atom);
      }
    }
  }

  lemma NewMaxOk(a: Atoms, atom: Atom)
    requires MaxOk(a) && a.list != [] && LatOf(atom) > a.maxLat
    ensures MaxOk(SetLast(a, atom).(maxLat := LatOf(atom), maxLatAt := atom.inTime))
  {
    assert LatOf(SetLast(a, atom).list[|a.list| - 1]) == LatOf(atom);
  }

  // Every run.

  predicate Inv(s: Sched) {
    && NonEmpty(s)
    && forall tid | tid in s.threads :: s.threads[tid].tid == tid && AtomsOk(s.threads[tid])
  }

  lemma StartedOk(s: Sched, tid: int, runState: char, time: nat)
    requires Inv(s)
    ensures var a := Started(s, tid, runState, time); AtomsOk(a) && a.list != [] && a.tid == tid
  {
    FreshOk(tid);
    SchedOutOk(Fresh(tid), runState, time);
  }

  lemma SwitchKeeps(s: Sched, e: Event)
    requires Inv(s) && e.Switch?
    ensures Inv(SwitchedOut(s, e)) && Inv(SwitchedIn(s, e))
  {
    hide AtomsOk;
    FreshOk(e.prev);
    SchedOutOk(AtomsOf(s, e.prev), SchedOutState(e.prevState, e.beyond), e.time);
    StartedOk(s, e.next, 'R', e.time);
    SchedInOk(Started(s, e.next, 'R', e.time), e.time);
  }

  /** No event finds an empty list, and the numbers always fit the atoms. */
  lemma StepKeeps(s: Sched, e: Event)
    requires Inv(s)
    ensures Inv(Step(s, e))
  {
    hide AtomsOk, SwitchedIn, SwitchedOut, AddRuntime, AddWakeup, Started;
    match e
    case Switch(cpu, _, _, _, _, time) =>
      var s' := s.(lastSwitched := s.lastSwitched[cpu := time]);
      SwitchKeeps(s', e);
      SwitchKeeps(SwitchedOut(s', e), e);
    case Runtime(pid, runtime, time) =>
      StartedOk(s, pid, 'R', time);
      RuntimeOk(Started(s, pid, 'R', time), runtime);
      RuntimeKeepsTid(Started(s, pid, 'R', time), runtime);
    case Wakeup(pid, time) =>
      StartedOk(s, pid, 'S', time);
      WakeupOk(Started(s, pid, 'S', time), time);
      WakeupKeepsTid(Started(s, pid, 'S', time), time);
  }

  lemma RuntimeKeepsTid(a: Atoms, delta: nat)
    requires a.list != []
    ensures AddRuntime(a, delta).tid == a.tid && AddRuntime(a, delta).list != []
  {
  }

  lemma WakeupKeepsTid(a: Atoms, time: nat)
    requires a.list != []
    ensures AddWakeup(a, time).tid == a.tid && AddWakeup(a, time).list != []
  {
  }

  function Run(trace: seq<Event>): (s: Sched)
    ensures Inv(s)
  {
    if trace == [] then Empty()
    else
      var s := Run(trace[..|trace| - 1]);
      StepKeeps(s, trace[|trace| - 1]);
      Step(s, trace[|trace| - 1])
  }

  /** For any order of events, the reported numbers are the count, sums and maximum over the thread's atoms. */
  lemma LatencyNumbers(trace: seq<Event>, tid: int)
    requires tid in Run(trace).threads
    ensures var a := Run(trace).threads[tid];
            && a.list != []
            && a.nbAtoms == SumOf(IsIn, a.list) && a.totalLat == SumOf(LatOf, a.list)
            && a.totalRuntime == SumOf(RunOf, a.list) && MaxOk(a)
            && (forall x | x in a.list && x.state.SchedIn? :: x.outTime <= x.wakeTime <= x.inTime)
  {
  }

  // What an event can change.

  /** The same atom, except that it may have run longer. */
  predicate SameTimes(x: Atom, y: Atom) {
    x.state == y.state && x.outTime == y.outTime && x.wakeTime == y.wakeTime && x.inTime == y.inTime
  }

  /** Only the last atom differs or is followed by new ones, and a finished one keeps its times. */
  predicate Extends(a: Atoms, b: Atoms) {
    && |a.list| <= |b.list|
    && (forall i | 0 <= i < |a.list| - 1 :: a.list[i] == b.list[i])
    && (a.list != [] && (Last(a).state.SchedIn? || Last(a).state.Ignored?) ==> SameTimes(Last(a), b.list[|a.list| - 1]))
    && (a.list != [] && |b.list| > |a.list| ==> b.list[|a.list| - 1] == Last(a))
  }

  lemma OutExtends(a: Atoms, runState: char, time: nat)
    ensures Extends(a, AddSchedOut(a, runState, time)) && AddSchedOut(a, runState, time).tid == a.tid
  {
  }

  lemma InExtends(a: Atoms, time: nat)
    ensures Extends(a, AddSchedIn(a, time)) && |AddSchedIn(a, time).list| == |a.list| &&
        AddSchedIn(a, time).tid == a.tid
  {
  }

  /** In every run only the last atom of a list ever changes, and one whose wait is over keeps its times. */
  lemma OnlyLastChanges(s: Sched, e: Event, tid: int)
    requires Inv(s) && tid in s.threads
    ensures tid in Step(s, e).threads
    ensures |s.threads[tid].list| <= |Step(s, e).threads[tid].list|
    ensures forall i | 0 <= i < |s.threads[tid].list| - 1 :: s.threads[tid].list[i] == Step(s, e).threads[tid].list[i]
    ensures var x := Last(s.threads[tid]);
            x.state.SchedIn? || x.state.Ignored? ==>
                SameTimes(x, Step(s, e).threads[tid].list[|s.threads[tid].list| - 1])
  {
    hide AtomsOk, AddSchedOut, AddSchedIn;
    if e.Switch? {
      OutExtends(s.threads[tid], SchedOutState(e.prevState, e.beyond), e.time);
      InExtends(s.threads[tid], e.time);
      InExtends(AddSchedOut(s.threads[tid], SchedOutState(e.prevState, e.beyond), e.time), e.time);
    }
  }

  // Run time is conserved.

  function RuntimeFor(tid: int): Event -> int {
    (e: Event) => if e.Runtime? && e.pid == tid then e.runtime else 0
  }

  lemma StepRuntime(s: Sched, e: Event, tid: int)
    requires Inv(s)
    ensures AtomsOf(Step(s, e), tid).totalRuntime == AtomsOf(s, tid).totalRuntime + RuntimeFor(tid)(e)
  {
    hide AtomsOk;
  }

  /** A thread's run time is the sum of the run times reported for it. */
  lemma {:induction false} RuntimeConserved(trace: seq<Event>, tid: int)
    ensures AtomsOf(Run(trace), tid).totalRuntime == SumOf(RuntimeFor(tid), trace)
  {
    hide Step, AtomsOk;
    if trace != [] {
      RuntimeConserved(trace[..|trace| - 1], tid);
      StepRuntime(Run(trace[..|trace| - 1]), trace[|trace| - 1], tid);
    }
  }

  // Where the times of an atom come from.

  predicate Mentions(e: Event, tid: int) {
    match e
    case Switch(_, prev, next, _, _, _) => prev == tid || next == tid
    case Runtime(pid, _, _) => pid == tid
    case Wakeup(pid, _) => pid == tid
  }

  predicate TakesOut(e: Event, tid: int) {
    e.Switch? && e.prev == tid
  }

  /** The event made the thread runnable: a wakeup, a preemption, or the first sign of a running thread. */
  predicate MakesRunnable(e: Event, tid: int) {
    match e
    case Switch(_, prev, next, prevState, beyond, _) =>
      (prev == tid && SchedOutState(prevState, beyond) == 'R') || next == tid
    case Runtime(pid, _, _) => pid == tid
    case Wakeup(pid, _) => pid == tid
  }

  predicate MentionedAt(trace: seq<Event>, tid: int, t: nat) {
    exists e | e in trace :: Mentions(e, tid) && e.time == t
  }

  predicate OutAt(trace: seq<Event>, tid: int, t: nat) {
    exists e | e in trace :: TakesOut(e, tid) && e.time == t
  }

  predicate RunnableAt(trace: seq<Event>, tid: int, t: nat) {
    exists e | e in trace :: MakesRunnable(e, tid) && e.time == t
  }

  predicate InAt(trace: seq<Event>, tid: int, t: nat) {
    exists e | e in trace :: e.Switch? && e.next == tid && e.time == t
  }

  /** Atom `i` of a thread: the first one may begin when the thread is first heard of. */
  predicate AtomFrom(trace: seq<Event>, tid: int, i: int, x: Atom) {
    && (if i == 0 then MentionedAt(trace, tid, x.outTime) else OutAt(trace, tid, x.outTime))
    && (x.state.WaitCpu? || x.state.SchedIn? ==> RunnableAt(trace, tid, x.wakeTime))
    && (x.state.SchedIn? ==> InAt(trace, tid, x.inTime))
  }

  predicate AtomsFrom(trace: seq<Event>, tid: int, a: Atoms) {
    forall i | 0 <= i < |a.list| :: AtomFrom(trace, tid, i, a.list[i])
  }

  lemma FromLonger(before: seq<Event>, trace: seq<Event>, tid: int, a: Atoms)
    requires AtomsFrom(before, tid, a) && forall e | e in before :: e in trace
    ensures AtomsFrom(trace, tid, a)
  {
    forall i | 0 <= i < |a.list| ensures AtomFrom(trace, tid, i, a.list[i]) {
      assert AtomFrom(before, tid, i, a.list[i]);
    }
  }

  lemma OutFrom(trace: seq<Event>, tid: int, a: Atoms, runState: char, e: Event)
    requires AtomsFrom(trace, tid, a) && e in trace && Mentions(e, tid) && (runState == 'R' ==> MakesRunnable(e, tid))
    requires a.list == [] || TakesOut(e, tid)
    ensures AtomsFrom(trace, tid, AddSchedOut(a, runState, e.time))
  {
  }

  lemma InFrom(trace: seq<Event>, tid: int, a: Atoms, e: Event)
    requires AtomsFrom(trace, tid, a) && e in trace && e.Switch? && e.next == tid
    ensures AtomsFrom(trace, tid, AddSchedIn(a, e.time))
  {
  }

  lemma StepFrom(trace: seq<Event>, s: Sched, e: Event, tid: int)
    requires Inv(s) && e in trace && AtomsFrom(trace, tid, AtomsOf(s, tid))
    ensures AtomsFrom(trace, tid, AtomsOf(Step(s, e), tid))
  {
    hide AtomsOk, AtomsFrom, AddSchedOut, AddSchedIn, AddRuntime, AddWakeup, SchedOutState;
    assert AtomsFrom(trace, tid, Fresh(tid)) by { NoneFrom(trace, tid); }
    if Mentions(e, tid) {
      match e {
        case Switch(_, prev, next, prevState, beyond, time) =>
          var a, c := AtomsOf(s, tid), SchedOutState(prevState, beyond);
          if prev == tid { OutFrom(trace, tid, a, c, e); }
          if next == tid {
            OutFrom(trace, tid, Fresh(tid), 'R', e);
            InFrom(trace, tid, if prev == tid then AddSchedOut(a, c, time) else Started(s, tid, 'R', time), e);
          }
        case Runtime(_, runtime, time) =>
          OutFrom(trace, tid, Fresh(tid), 'R', e);
          RuntimeFrom(trace, tid, Started(s, tid, 'R', time), runtime);
        case Wakeup(_, time) =>
          OutFrom(trace, tid, Fresh(tid), 'S', e);
          WakeupFrom(trace, tid, Started(s, tid, 'S', time), e);
      }
    }
  }

  lemma NoneFrom(trace: seq<Event>, tid: int)
    ensures AtomsFrom(trace, tid, Fresh(tid))
  {
  }

  lemma RuntimeFrom(trace: seq<Event>, tid: int, a: Atoms, delta: nat)
    requires AtomsFrom(trace, tid, a) && a.list != []
    ensures AtomsFrom(trace, tid, AddRuntime(a, delta))
  {
  }

  lemma WakeupFrom(trace: seq<Event>, tid: int, a: Atoms, e: Event)
    requires AtomsFrom(trace, tid, a) && a.list != [] && e in trace && e.Wakeup? && e.pid == tid
    ensures AtomsFrom(trace, tid, AddWakeup(a, e.time))
  {
  }

  /**
   In every run each atom but a thread's first begins when a switch takes the thread out, and its
   wake-up and in times are those of events that make the thread runnable and bring it in.
   */
  lemma {:induction false} AtomsComeFromTrace(trace: seq<Event>, tid: int)
    ensures AtomsFrom(trace, tid, AtomsOf(Run(trace), tid))
  {
    hide Step, AtomsOk, AtomsFrom;
    if trace == [] {
      NoneFrom(trace, tid);
    } else {
      var before, e := trace[..|trace| - 1], trace[|trace| - 1];
      assert e in trace;
      AtomsComeFromTrace(before, tid);
      FromLonger(before, trace, tid, AtomsOf(Run(before), tid));
      StepFrom(trace, Run(before), e, tid);
    }
  }

  // How many atoms there are.

  /** The time of the CPU's last switch, refused ones included. */
  function LastSwitch(trace: seq<Event>, cpu: nat): nat {
    if trace == [] then 0
    else
      var e := trace[|trace| - 1];
      if e.Switch? && e.cpu == cpu then e.time else LastSwitch(trace[..|trace| - 1], cpu)
  }

  /** After `before`, only a switch that goes back in its CPU's time is refused. */
  predicate Accepted(before: seq<Event>, e: Event) {
    e.Switch? ==> LastSwitch(before, e.cpu) <= e.time
  }

  /** The accepted switches away from the thread. */
  function Outs(trace: seq<Event>, tid: int): nat {
    if trace == [] then 0
    else
      var before, e := trace[..|trace| - 1], trace[|trace| - 1];
      Outs(before, tid) + if Accepted(before, e) && TakesOut(e, tid) then 1 else 0
  }

  predicate HeardOf(trace: seq<Event>, tid: int) {
    trace != [] &&
    (var before, e := trace[..|trace| - 1], trace[|trace| - 1];
     HeardOf(before, tid) || (Accepted(before, e) && Mentions(e, tid)))
  }

  /** The first accepted event of the thread is not a switch away from it. */
  predicate StartsOtherwise(trace: seq<Event>, tid: int) {
    trace != [] &&
    (var before, e := trace[..|trace| - 1], trace[|trace| - 1];
     if HeardOf(before, tid) then StartsOtherwise(before, tid)
     else Accepted(before, e) && Mentions(e, tid) && !TakesOut(e, tid))
  }

  lemma {:induction false} LastSwitchedIs(trace: seq<Event>, cpu: nat)
    ensures Get(Run(trace).lastSwitched, cpu, 0) == LastSwitch(trace, cpu)
  {
    hide Inv, SwitchedIn, SwitchedOut, Started, AddRuntime, AddWakeup;
    if trace != [] {
      var before, e := trace[..|trace| - 1], trace[|trace| - 1];
      LastSwitchedIs(before, cpu);
      StepSwitched(Run(before), e, cpu);
    }
  }

  lemma StepSwitched(s: Sched, e: Event, cpu: nat)
    requires Inv(s)
    ensures Get(Step(s, e).lastSwitched, cpu, 0) ==
            if e.Switch? && e.cpu == cpu then e.time else Get(s.lastSwitched, cpu, 0)
  {
    hide AtomsOk, AddSchedOut, AddSchedIn, AddRuntime, AddWakeup;
  }

  /** A refused switch leaves the threads alone; any other event makes the threads it names known. */
  lemma StepAtoms(s: Sched, e: Event, tid: int)
    requires Inv(s)
    ensures var here := !(e.Switch? && Backwards(s, e)) && Mentions(e, tid);
            && (tid in Step(s, e).threads <==> tid in s.threads || here)
            && |AtomsOf(Step(s, e), tid).list| == |AtomsOf(s, tid).list| +
              if here && (TakesOut(e, tid) || tid !in s.threads) then 1 else 0
  {
    hide AtomsOk, SchedOutState;
  }

  /**
   For every trace: a thread is known exactly when an accepted event names it, and has one atom for each
   accepted switch away from it, and one more if it was first heard of otherwise.
   */
  lemma {:induction false} AtomsCounted(trace: seq<Event>, tid: int)
    ensures tid in Run(trace).threads <==> HeardOf(trace, tid)
    ensures |AtomsOf(Run(trace), tid).list| == Outs(trace, tid) + if StartsOtherwise(trace, tid) then 1 else 0
  {
    hide Step, Inv;
    if trace != [] {
      var before, e := trace[..|trace| - 1], trace[|trace| - 1];
      AtomsCounted(before, tid);
      if e.Switch? { LastSwitchedIs(before, e.cpu); }
      StepAtoms(Run(before), e, tid);
      if !HeardOf(before, tid) { OutsUnheard(before, tid); }
    }
  }

  lemma {:induction false} OutsUnheard(trace: seq<Event>, tid: int)
    requires !HeardOf(trace, tid)
    ensures Outs(trace, tid) == 0 && !StartsOtherwise(trace, tid)
  {
    if trace != [] { OutsUnheard(trace[..|trace| - 1], tid); }
  }
}
