/**
 Building the replay program from a trace: wakeup, switch and fork events become atoms, and a
 wakeup is linked to the wakee's last atom when that is a SLEEP nobody has woken yet.

 The functions say what each event does to the state; class `Builder` does the same in place.
 */
module ReplayBuild {
  import opened Options
  import opened ReplayProgram

  const MAX_CPUS := 4096

  datatype Task = Task(pid: nat, comm: string, atoms: seq<Atom>)

  /** `nrWakeups` counts the links made so far and so is also the number of semaphores. */
  datatype Build = Build(
    tasks: seq<Task>, pids: map<nat, nat>, lastSwitched: seq<nat>,
    nrRuns: nat, nrSleeps: nat, nrWakeups: nat, nrOptimized: nat, targetless: nat, multitarget: nat)

  datatype Event =
    | WakeupEvent(time: nat, tid: nat, pid: nat, comm: string)
    | SwitchEvent(time: nat, cpu: int, prevPid: nat, prevComm: string, nextPid: nat, nextComm: string)
    | ForkEvent(parentTid: nat, parentComm: string, childTid: nat, childComm: string)

  function Empty(): Build {
    Build([], map[], seq(MAX_CPUS, _ => 0), 0, 0, 0, 0, 0, 0)
  }

  ghost predicate Valid(b: Build) {
    && |b.lastSwitched| == MAX_CPUS
    && (forall pid | pid in b.pids :: b.pids[pid] < |b.tasks|)
    && (forall i | 0 <= i < |b.tasks| :: b.tasks[i].atoms != [])
  }

  // What each event does.

  function NewAtom(t: Task, kind: Kind, time: nat, duration: nat, sem: Option<nat>, wakee: Option<nat>): Atom {
    Atom(kind, time, duration, |t.atoms|, sem, false, wakee)
  }

  function Append(tasks: seq<Task>, t: nat, a: Atom): (r: seq<Task>)
    requires t < |tasks|
    ensures |r| == |tasks|
  {
    tasks[t := tasks[t].(atoms := tasks[t].atoms + [a])]
  }

  function AddRun(b: Build, t: nat, time: nat, duration: nat): Build
    requires t < |b.tasks| && b.tasks[t].atoms != []
  {
    var atoms := b.tasks[t].atoms;
    var last := |atoms| - 1;
    if atoms[last].kind == Run then
      b.(tasks := b.tasks[t := b.tasks[t].(atoms :=
          atoms[last := atoms[last].(duration := atoms[last].duration + duration)])],
         nrOptimized := b.nrOptimized + 1)
    else
      b.(tasks := Append(b.tasks, t, NewAtom(b.tasks[t], Run, time, duration, None, None)), nrRuns := b.nrRuns + 1)
  }

  function AddSleep(b: Build, t: nat, time: nat): Build
    requires t < |b.tasks|
  {
    b.(tasks := Append(b.tasks, t, NewAtom(b.tasks[t], Sleep, time, 0, None, None)), nrSleeps := b.nrSleeps + 1)
  }

  /** The last atom of `t` becomes a wait on `sem`. */
  function LinkLast(tasks: seq<Task>, t: nat, sem: nat): (r: seq<Task>)
    requires t < |tasks| && tasks[t].atoms != []
    ensures |r| == |tasks|
  {
    var atoms := tasks[t].atoms;
    var last := |atoms| - 1;
    tasks[t := tasks[t].(atoms := atoms[last := atoms[last].(sem := Some(sem), specificWait := true)])]
  }

  function AddWakeup(b: Build, waker: nat, time: nat, wakee: nat): Build
    requires waker < |b.tasks| && wakee < |b.tasks|
    requires b.tasks[wakee].atoms != []
  {
    var tasks := Append(b.tasks, waker, NewAtom(b.tasks[waker], Wakeup, time, 0, None, Some(wakee)));
    var target := tasks[wakee].atoms[|tasks[wakee].atoms| - 1];
    if target.kind != Sleep then b.(tasks := tasks, targetless := b.targetless + 1)
    else if target.sem.Some? then b.(tasks := tasks, multitarget := b.multitarget + 1)
    else
      var linked := Append(b.tasks, waker, NewAtom(b.tasks[waker], Wakeup, time, 0, Some(b.nrWakeups), Some(wakee)));
      b.(tasks := LinkLast(linked, wakee, b.nrWakeups), nrWakeups := b.nrWakeups + 1)
  }

  /** A new task starts out asleep. */
  function Register(b: Build, pid: nat, comm: string): Build {
    if pid in b.pids then b
    else
      b.(tasks := b.tasks + [Task(pid, comm, [Atom(Sleep, 0, 0, 0, None, false, None)])],
         pids := b.pids[pid := |b.tasks|], nrSleeps := b.nrSleeps + 1)
  }

  /** A switch is ignored on a bad CPU and rejected when the clock of its CPU went back. */
  predicate Accepted(b: Build, e: Event)
    requires |b.lastSwitched| == MAX_CPUS
  {
    e.SwitchEvent? && 0 <= e.cpu < MAX_CPUS && (b.lastSwitched[e.cpu] != 0 ==> b.lastSwitched[e.cpu] <= e.time)
  }

  ghost function ProcessWakeup(b: Build, time: nat, tid: nat, pid: nat, comm: string): Build
    requires Valid(b)
  {
    var b1 := Register(Register(b, tid, "<unknown>"), pid, comm);
    AddWakeup(b1, b1.pids[tid], time, b1.pids[pid])
  }

  ghost function AddSwitch(b: Build, t: nat, time: nat, delta: nat): Build
    requires t < |b.tasks| && b.tasks[t].atoms != []
  {
    AddSleep(AddRun(b, t, time, delta), t, time)
  }

  ghost function ProcessSwitch(b: Build, e: Event): Build
    requires Valid(b) && e.SwitchEvent?
  {
    if !Accepted(b, e) then b
    else
      var b1 := Register(Register(b, e.prevPid, e.prevComm), e.nextPid, e.nextComm);
      AddSwitch(b1.(lastSwitched := b1.lastSwitched[e.cpu := e.time]), b1.pids[e.prevPid], e.time, Delta(b, e))
  }

  /** How long the switched-out task ran, 0 for the first switch seen on a CPU. */
  function Delta(b: Build, e: Event): nat
    requires |b.lastSwitched| == MAX_CPUS && Accepted(b, e)
  {
    if b.lastSwitched[e.cpu] != 0 then e.time - b.lastSwitched[e.cpu] else 0
  }

  ghost function Process(b: Build, e: Event): Build
    requires Valid(b)
  {
    match e
    case WakeupEvent(time, tid, pid, comm) => ProcessWakeup(b, time, tid, pid, comm)
    case SwitchEvent(_, _, _, _, _, _) => ProcessSwitch(b, e)
    case ForkEvent(ptid, pcomm, ctid, ccomm) => Register(Register(b, ptid, pcomm), ctid, ccomm)
  }

  /** Between events no task ends in a RUN, so a new RUN is never merged into an old one. */
  ghost predicate NoRunLast(b: Build)
    requires Valid(b)
  {
    forall i | 0 <= i < |b.tasks| :: b.tasks[i].atoms[|b.tasks[i].atoms| - 1].kind != Run
  }

  lemma RegisterKeeps(b: Build, pid: nat, comm: string)
    requires Valid(b)
    ensures var r := Register(b, pid, comm);
            Valid(r) && pid in r.pids && (NoRunLast(b) ==> NoRunLast(r)) && r.nrOptimized == b.nrOptimized
  {
  }

  lemma WakeupKeeps(b: Build, waker: nat, time: nat, wakee: nat)
    requires Valid(b) && waker < |b.tasks| && wakee < |b.tasks|
    ensures var r := AddWakeup(b, waker, time, wakee);
            Valid(r) && (NoRunLast(b) ==> NoRunLast(r)) && r.nrOptimized == b.nrOptimized
  {
  }

  lemma SwitchKeeps(b: Build, t: nat, time: nat, delta: nat)
    requires Valid(b) && t < |b.tasks|
    ensures var r := AddSwitch(b, t, time, delta);
            Valid(r) && (NoRunLast(b) ==> NoRunLast(r) && r.nrOptimized == b.nrOptimized)
  {
  }

  lemma ProcessKeeps(b: Build, e: Event)
    requires Valid(b)
    ensures Valid(Process(b, e))
    ensures NoRunLast(b) ==> NoRunLast(Process(b, e)) && Process(b, e).nrOptimized == b.nrOptimized
  {
    match e
    case WakeupEvent(time, tid, pid, comm) =>
      var b0 := Register(b, tid, "<unknown>");
      RegisterKeeps(b, tid, "<unknown>");
      RegisterKeeps(b0, pid, comm);
      var b1 := Register(b0, pid, comm);
      WakeupKeeps(b1, b1.pids[tid], time, b1.pids[pid]);
    case SwitchEvent(_, _, _, _, _, _) =>
      if Accepted(b, e) {
        var b0 := Register(b, e.prevPid, e.prevComm);
        RegisterKeeps(b, e.prevPid, e.prevComm);
        RegisterKeeps(b0, e.nextPid, e.nextComm);
        var b1 := Register(b0, e.nextPid, e.nextComm);
        SwitchKeeps(b1.(lastSwitched := b1.lastSwitched[e.cpu := e.time]), b1.pids[e.prevPid], e.time, Delta(b, e));
      }
    case ForkEvent(ptid, pcomm, ctid, ccomm) =>
      RegisterKeeps(b, ptid, pcomm);
      RegisterKeeps(Register(b, ptid, pcomm), ctid, ccomm);
  }

  ghost function Built(trace: seq<Event>): (b: Build)
    ensures Valid(b)
  {
    if trace == [] then Empty()
    else
      var b0 := Built(trace[..|trace| - 1]);
      ProcessKeeps(b0, trace[|trace| - 1]);
      Process(b0, trace[|trace| - 1])
  }

  /** Each of the first `i` tasks wakes the next one, in a circle. */
  ghost function CrossWakeups(b: Build, i: nat): (r: Build)
    requires Valid(b) && i <= |b.tasks|
    ensures Valid(r) && |r.tasks| == |b.tasks|
  {
    if i == 0 then b
    else
      var r := CrossWakeups(b, i - 1);
      AddWakeup(r, i - 1, 0, if i == |b.tasks| then 0 else i)
  }

  function AtomLists(tasks: seq<Task>): (r: seq<seq<Atom>>)
    ensures |r| == |tasks| && forall i | 0 <= i < |tasks| :: r[i] == tasks[i].atoms
  {
    seq(|tasks|, i requires 0 <= i < |tasks| => tasks[i].atoms)
  }

  ghost function ProgramOf(b: Build): Program {
    Program(AtomLists(b.tasks), b.nrWakeups)
  }

  /** The program that is replayed: the trace, then the cross-task wakeups. */
  ghost function BuiltProgram(trace: seq<Event>): Program {
    var b := Built(trace);
    ProgramOf(CrossWakeups(b, |b.tasks|))
  }

  // Every built program is well linked. Ranks are creation times, except that a linked SLEEP
  // ranks just after its WAKEUP; they grow along a task because only a last atom is ever linked.

  ghost predicate Ranked(b: Build, l: Layout, bound: nat) {
    && WellLinked(ProgramOf(b), l)
    && (forall j, k | 0 <= j < |l.rank| && 0 <= k < |l.rank[j]| :: l.rank[j][k] < bound)
  }

  /** Appending an atom without a semaphore: it ranks above everything so far. */
  lemma AppendRanked(b: Build, b': Build, l: Layout, bound: nat, t: nat, a: Atom) returns (l': Layout)
    requires Ranked(b, l, bound) && t < |b.tasks|
    requires a.sem == None && !a.specificWait
    requires b'.tasks == Append(b.tasks, t, a) && b'.nrWakeups == b.nrWakeups
    ensures Ranked(b', l', bound + 1)
  {
    l' := l.(rank := l.rank[t := l.rank[t] + [bound]]);
    var p, p' := ProgramOf(b), ProgramOf(b');
    assert Increasing(l'.rank[t]) by { assert Increasing(l.rank[t]); }
    forall s | 0 <= s < p.sems ensures Joins(p'.tasks, l'.rank, s, l'.sleepAt[s], l'.wakeAt[s]) {
      assert Joins(p.tasks, l.rank, s, l.sleepAt[s], l.wakeAt[s]);
    }
    forall j, k | 0 <= j < |p'.tasks| && 0 <= k < |p'.tasks[j]|
      ensures Owned(p'.tasks[j][k], Loc(j, k), l'.sleepAt, l'.wakeAt)
    {
      if k < |p.tasks[j]| { assert Owned(p.tasks[j][k], Loc(j, k), l.sleepAt, l.wakeAt); }
    }
  }

  lemma RegisterRanked(b: Build, l: Layout, bound: nat, pid: nat, comm: string) returns (l': Layout)
    requires Ranked(b, l, bound)
    ensures Ranked(Register(b, pid, comm), l', bound + 1)
  {
    if pid in b.pids {
      l' := l;
    } else {
      var b' := Register(b, pid, comm);
      l' := l.(rank := l.rank + [[bound]]);
      var p, p' := ProgramOf(b), ProgramOf(b');
      forall s | 0 <= s < p.sems ensures Joins(p'.tasks, l'.rank, s, l'.sleepAt[s], l'.wakeAt[s]) {
        assert Joins(p.tasks, l.rank, s, l.sleepAt[s], l.wakeAt[s]);
      }
      forall j, k | 0 <= j < |p'.tasks| && 0 <= k < |p'.tasks[j]|
        ensures Owned(p'.tasks[j][k], Loc(j, k), l'.sleepAt, l'.wakeAt)
      {
        if j < |p.tasks| { assert Owned(p.tasks[j][k], Loc(j, k), l.sleepAt, l.wakeAt); }
      }
    }
  }

  /** The layout after linking: the SLEEP moves up to just after the new WAKEUP. */
  function LinkedLayout(l: Layout, bound: nat, wk: Loc, sl: Loc): Layout
    requires wk.task < |l.rank| && sl.task < |l.rank| && sl.index < |l.rank[sl.task]|
  {
    var rank := l.rank[wk.task := l.rank[wk.task] + [bound]];
    Layout(l.sleepAt + [sl], l.wakeAt + [wk], rank[sl.task := rank[sl.task][sl.index := bound + 1]])
  }

  ghost predicate Links(b: Build, b': Build, waker: nat, a: Atom, wakee: nat) {
    && waker < |b.tasks| && wakee < |b.tasks| && waker != wakee
    && b.tasks[wakee].atoms != []
    && (var target := b.tasks[wakee].atoms[|b.tasks[wakee].atoms| - 1]; target.kind == Sleep && target.sem == None)
    && a.kind == Wakeup && a.sem == Some(b.nrWakeups) && !a.specificWait
    && b'.tasks == LinkLast(Append(b.tasks, waker, a), wakee, b.nrWakeups) && b'.nrWakeups == b.nrWakeups + 1
  }

  /** The linked SLEEP is the last of its task, so ranks still grow along every task. */
  lemma LinkedRanks(b: Build, b': Build, l: Layout, bound: nat, waker: nat, a: Atom, wakee: nat)
    requires Ranked(b, l, bound) && Links(b, b', waker, a, wakee)
    ensures var l' := LinkedLayout(l, bound, Loc(waker, |b.tasks[waker].atoms|),
        Loc(wakee, |b.tasks[wakee].atoms| - 1));
            && SameShape(AtomLists(b'.tasks), l'.rank)
            && (forall j | 0 <= j < |l'.rank| :: Increasing(l'.rank[j]))
            && (forall j, k | 0 <= j < |l'.rank| && 0 <= k < |l'.rank[j]| :: l'.rank[j][k] < bound + 2)
  {
    assert Increasing(l.rank[waker]) && Increasing(l.rank[wakee]);
  }

  lemma LinkedJoins(b: Build, b': Build, l: Layout, bound: nat, waker: nat, a: Atom, wakee: nat, s: nat)
    requires Ranked(b, l, bound) && Links(b, b', waker, a, wakee) && s <= b.nrWakeups
    ensures var l' := LinkedLayout(l, bound, Loc(waker, |b.tasks[waker].atoms|),
        Loc(wakee, |b.tasks[wakee].atoms| - 1));
            SameShape(AtomLists(b'.tasks), l'.rank) &&
                Joins(AtomLists(b'.tasks), l'.rank, s, l'.sleepAt[s], l'.wakeAt[s])
  {
    var sl := Loc(wakee, |b.tasks[wakee].atoms| - 1);
    assert Owned(AtomLists(b.tasks)[wakee][sl.index], sl, l.sleepAt, l.wakeAt);
    if s < b.nrWakeups { assert Joins(AtomLists(b.tasks), l.rank, s, l.sleepAt[s], l.wakeAt[s]); }
  }

  lemma LinkedOwned(b: Build, b': Build, l: Layout, bound: nat, waker: nat, a: Atom, wakee: nat, at: Loc)
    requires Ranked(b, l, bound) && Links(b, b', waker, a, wakee) && InProgram(AtomLists(b'.tasks), at)
    ensures var l' := LinkedLayout(l, bound, Loc(waker, |b.tasks[waker].atoms|),
        Loc(wakee, |b.tasks[wakee].atoms| - 1));
            Owned(AtomAt(AtomLists(b'.tasks), at), at, l'.sleepAt, l'.wakeAt)
  {
    if InProgram(AtomLists(b.tasks), at) {
      assert Owned(AtomLists(b.tasks)[at.task][at.index], Loc(at.task, at.index), l.sleepAt, l.wakeAt);
    }
  }

  lemma LinkRanked(b: Build, b': Build, l: Layout, bound: nat, waker: nat, a: Atom, wakee: nat) returns (l': Layout)
    requires Ranked(b, l, bound) && Links(b, b', waker, a, wakee)
    ensures Ranked(b', l', bound + 2)
  {
    var p' := ProgramOf(b');
    l' := LinkedLayout(l, bound, Loc(waker, |b.tasks[waker].atoms|), Loc(wakee, |b.tasks[wakee].atoms| - 1));
    LinkedRanks(b, b', l, bound, waker, a, wakee);
    forall s | 0 <= s < p'.sems ensures Joins(p'.tasks, l'.rank, s, l'.sleepAt[s], l'.wakeAt[s]) {
      LinkedJoins(b, b', l, bound, waker, a, wakee, s);
    }
    forall j, k | 0 <= j < |p'.tasks| && 0 <= k < |p'.tasks[j]|
      ensures Owned(p'.tasks[j][k], Loc(j, k), l'.sleepAt, l'.wakeAt)
    {
      LinkedOwned(b, b', l, bound, waker, a, wakee, Loc(j, k));
    }
  }

  lemma WakeupRanked(b: Build, l: Layout, bound: nat, waker: nat, time: nat, wakee: nat) returns (l': Layout)
    requires Valid(b) && Ranked(b, l, bound) && waker < |b.tasks| && wakee < |b.tasks|
    ensures Ranked(AddWakeup(b, waker, time, wakee), l', bound + 2)
  {
    var b' := AddWakeup(b, waker, time, wakee);
    if b'.nrWakeups == b.nrWakeups {
      l' := AppendRanked(b, b', l, bound, waker, NewAtom(b.tasks[waker], Wakeup, time, 0, None, Some(wakee)));
    } else {
      l' := LinkRanked(b, b', l, bound, waker,
          NewAtom(b.tasks[waker], Wakeup, time, 0, Some(b.nrWakeups), Some(wakee)), wakee);
    }
  }

  lemma SwitchRanked(b: Build, l: Layout, bound: nat, t: nat, time: nat, delta: nat) returns (l': Layout)
    requires Valid(b) && NoRunLast(b) && Ranked(b, l, bound) && t < |b.tasks|
    ensures Ranked(AddSwitch(b, t, time, delta), l', bound + 2)
  {
    var b1 := AddRun(b, t, time, delta);
    l' := AppendRanked(b, b1, l, bound, t, NewAtom(b.tasks[t], Run, time, delta, None, None));
    l' := AppendRanked(b1, AddSleep(b1, t, time), l', bound + 1, t, NewAtom(b1.tasks[t], Sleep, time, 0, None, None));
  }

  lemma RegisterTwoRanked(b: Build, l: Layout, bound: nat, pid: nat, comm: string, pid': nat, comm': string)
    returns (l': Layout)
    requires Valid(b) && Ranked(b, l, bound)
    ensures var r := Register(Register(b, pid, comm), pid', comm');
            && Ranked(r, l', bound + 2) && Valid(r) && pid in r.pids && pid' in r.pids
            && (NoRunLast(b) ==> NoRunLast(r)) && r.lastSwitched == b.lastSwitched
  {
    RegisterKeeps(b, pid, comm);
    RegisterKeeps(Register(b, pid, comm), pid', comm');
    l' := RegisterRanked(b, l, bound, pid, comm);
    l' := RegisterRanked(Register(b, pid, comm), l', bound + 1, pid', comm');
  }

  lemma ProcessRanked(b: Build, l: Layout, bound: nat, e: Event) returns (l': Layout)
    requires Valid(b) && NoRunLast(b) && Ranked(b, l, bound)
    ensures Ranked(Process(b, e), l', bound + 4)
  {
    match e
    case WakeupEvent(time, tid, pid, comm) =>
      l' := RegisterTwoRanked(b, l, bound, tid, "<unknown>", pid, comm);
      var b1 := Register(Register(b, tid, "<unknown>"), pid, comm);
      l' := WakeupRanked(b1, l', bound + 2, b1.pids[tid], time, b1.pids[pid]);
    case SwitchEvent(_, _, _, _, _, _) =>
      if !Accepted(b, e) {
        l' := l;
      } else {
        l' := RegisterTwoRanked(b, l, bound, e.prevPid, e.prevComm, e.nextPid, e.nextComm);
        var b1 := Register(Register(b, e.prevPid, e.prevComm), e.nextPid, e.nextComm);
        var b2 := b1.(lastSwitched := b1.lastSwitched[e.cpu := e.time]);
        assert ProgramOf(b2) == ProgramOf(b1);
        l' := SwitchRanked(b2, l', bound + 2, b1.pids[e.prevPid], e.time, Delta(b, e));
      }
    case ForkEvent(ptid, pcomm, ctid, ccomm) =>
      l' := RegisterTwoRanked(b, l, bound, ptid, pcomm, ctid, ccomm);
  }

  lemma {:induction false} BuiltRanked(trace: seq<Event>) returns (l: Layout)
    ensures Ranked(Built(trace), l, 4 * |trace|) && NoRunLast(Built(trace)) && Built(trace).nrOptimized == 0
  {
    if trace == [] {
      l := Layout([], [], []);
    } else {
      hide Process;
      l := BuiltRanked(trace[..|trace| - 1]);
      l := ProcessRanked(Built(trace[..|trace| - 1]), l, 4 * (|trace| - 1), trace[|trace| - 1]);
      ProcessKeeps(Built(trace[..|trace| - 1]), trace[|trace| - 1]);
    }
  }

  lemma {:induction false} CrossRanked(b: Build, l: Layout, bound: nat, i: nat) returns (l': Layout)
    requires Valid(b) && Ranked(b, l, bound) && i <= |b.tasks|
    ensures Ranked(CrossWakeups(b, i), l', bound + 2 * i)
  {
    hide AddWakeup;
    if i == 0 {
      l' := l;
    } else {
      l' := CrossRanked(b, l, bound, i - 1);
      l' := WakeupRanked(CrossWakeups(b, i - 1), l', bound + 2 * (i - 1), i - 1, 0, if i == |b.tasks| then 0 else i);
    }
  }

  /** Every program built from a trace has a layout, whatever the events and their order. */
  lemma BuiltProgramWellLinked(trace: seq<Event>) returns (l: Layout)
    ensures WellLinked(BuiltProgram(trace), l)
  {
    l := BuiltRanked(trace);
    l := CrossRanked(Built(trace), l, 4 * |trace|, |Built(trace).tasks|);
  }
}
