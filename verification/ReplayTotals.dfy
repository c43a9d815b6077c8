/** What a built replay program adds up to: run time per CPU, and every wakeup counted once. */
module ReplayTotals {
  import opened Options
  import opened ReplayProgram
  import opened ReplayBuild
  import opened Sums

  function RunTime(a: Atom): int {
    if a.kind == Run then a.duration else 0
  }

  function TaskRunTime(t: Task): int {
    SumOf(RunTime, t.atoms)
  }

  function TotalRunTime(b: Build): int {
    SumOf(TaskRunTime, b.tasks)
  }

  /** The time of the first switch on a CPU in the trace, 0 if there is none. */
  function FirstSwitch(trace: seq<Event>, cpu: int): nat {
    if trace == [] then 0
    else
      var first := FirstSwitch(trace[..|trace| - 1], cpu);
      var e := trace[|trace| - 1];
      if first == 0 && e.SwitchEvent? && e.cpu == cpu then e.time else first
  }

  /** The largest time of a switch on a CPU in the trace, 0 if there is none. */
  function LatestSwitch(trace: seq<Event>, cpu: int): nat {
    if trace == [] then 0
    else
      var latest := LatestSwitch(trace[..|trace| - 1], cpu);
      var e := trace[|trace| - 1];
      if e.SwitchEvent? && e.cpu == cpu && e.time > latest then e.time else latest
  }

  /** The time of the last switch on a CPU in the trace, 0 if there is none. */
  function LastSwitch(trace: seq<Event>, cpu: int): nat {
    if trace == [] then 0
    else
      var e := trace[|trace| - 1];
      if e.SwitchEvent? && e.cpu == cpu then e.time else LastSwitch(trace[..|trace| - 1], cpu)
  }

  ghost predicate PositiveTimes(trace: seq<Event>) {
    forall e | e in trace :: e.SwitchEvent? ==> e.time > 0
  }

  /** The times of the switches of one CPU do not decrease. */
  predicate InOrderOn(trace: seq<Event>, cpu: int) {
    trace == [] ||
    (InOrderOn(trace[..|trace| - 1], cpu) &&
     (var e := trace[|trace| - 1]; e.SwitchEvent? && e.cpu == cpu ==> LastSwitch(trace[..|trace| - 1], cpu) <= e.time))
  }

  /** How long each CPU was observed: from its first switch to its latest one. */
  function Spans(trace: seq<Event>): (r: seq<int>)
    ensures |r| == MAX_CPUS
  {
    seq(MAX_CPUS, cpu requires 0 <= cpu < MAX_CPUS => LatestSwitch(trace, cpu) - FirstSwitch(trace, cpu))
  }

  /** With times in order the latest switch is the last one. */
  lemma {:induction false} LatestIsLast(trace: seq<Event>, cpu: int)
    requires InOrderOn(trace, cpu)
    ensures LatestSwitch(trace, cpu) == LastSwitch(trace, cpu)
  {
    if trace != [] { LatestIsLast(trace[..|trace| - 1], cpu); }
  }

  function Self(x: int): int { x }

  lemma AppendRunTime(tasks: seq<Task>, t: nat, a: Atom)
    requires t < |tasks|
    ensures SumOf(TaskRunTime, Append(tasks, t, a)) == SumOf(TaskRunTime, tasks) + RunTime(a)
  {
    SumUpdate(TaskRunTime, tasks, t, tasks[t].(atoms := tasks[t].atoms + [a]));
    SumAppend(RunTime, tasks[t].atoms, a);
  }

  lemma LinkRunTime(tasks: seq<Task>, t: nat, sem: nat)
    requires t < |tasks| && tasks[t].atoms != []
    ensures SumOf(TaskRunTime, LinkLast(tasks, t, sem)) == SumOf(TaskRunTime, tasks)
  {
    var atoms := tasks[t].atoms;
    var last := |atoms| - 1;
    SumUpdate(RunTime, atoms, last, atoms[last].(sem := Some(sem), specificWait := true));
    SumUpdate(TaskRunTime, tasks, t, LinkLast(tasks, t, sem)[t]);
  }

  function Classified(b: Build): nat {
    b.nrWakeups + b.targetless + b.multitarget
  }

  lemma RegisterTotals(b: Build, pid: nat, comm: string)
    ensures var r := Register(b, pid, comm);
            TotalRunTime(r) == TotalRunTime(b) && r.lastSwitched == b.lastSwitched && Classified(r) == Classified(b)
  {
    if pid !in b.pids {
      var sleep := Atom(Sleep, 0, 0, 0, None, false, None);
      SumAppend(TaskRunTime, b.tasks, Task(pid, comm, [sleep]));
      SumOne(RunTime, sleep);
    }
  }

  lemma RegisterTwoTotals(b: Build, pid: nat, comm: string, pid': nat, comm': string)
    requires Valid(b)
    ensures var r := Register(Register(b, pid, comm), pid', comm');
            && Valid(r) && pid in r.pids && pid' in r.pids
            && TotalRunTime(r) == TotalRunTime(b) && r.lastSwitched == b.lastSwitched && Classified(r) == Classified(b)
  {
    var b0 := Register(b, pid, comm);
    RegisterKeeps(b, pid, comm);
    RegisterKeeps(b0, pid', comm');
    RegisterTotals(b, pid, comm);
    RegisterTotals(b0, pid', comm');
  }

  lemma WakeupTotals(b: Build, waker: nat, time: nat, wakee: nat)
    requires Valid(b) && waker < |b.tasks| && wakee < |b.tasks|
    ensures var r := AddWakeup(b, waker, time, wakee);
            TotalRunTime(r) == TotalRunTime(b) && r.lastSwitched == b.lastSwitched && Classified(r) == Classified(b) + 1
  {
    AppendRunTime(b.tasks, waker, NewAtom(b.tasks[waker], Wakeup, time, 0, None, Some(wakee)));
    var linking := NewAtom(b.tasks[waker], Wakeup, time, 0, Some(b.nrWakeups), Some(wakee));
    AppendRunTime(b.tasks, waker, linking);
    LinkRunTime(Append(b.tasks, waker, linking), wakee, b.nrWakeups);
  }

  /** A switch adds exactly its delta, whether the RUN is new or merged. */
  lemma SwitchTotals(b: Build, t: nat, time: nat, delta: nat)
    requires Valid(b) && t < |b.tasks|
    ensures var r := AddSwitch(b, t, time, delta);
            TotalRunTime(r) == TotalRunTime(b) + delta && r.lastSwitched == b.lastSwitched &&
                Classified(r) == Classified(b)
  {
    var b1 := AddRun(b, t, time, delta);
    var atoms := b.tasks[t].atoms;
    var last := |atoms| - 1;
    if atoms[last].kind == Run {
      SumUpdate(RunTime, atoms, last, atoms[last].(duration := atoms[last].duration + delta));
      SumUpdate(TaskRunTime, b.tasks, t, b1.tasks[t]);
    } else {
      AppendRunTime(b.tasks, t, NewAtom(b.tasks[t], Run, time, delta, None, None));
    }
    AppendRunTime(b1.tasks, t, NewAtom(b1.tasks[t], Sleep, time, 0, None, None));
  }

  lemma ProcessSwitchTotals(b: Build, e: Event)
    requires Valid(b) && Accepted(b, e)
    ensures var r := ProcessSwitch(b, e);
            && TotalRunTime(r) == TotalRunTime(b) + Delta(b, e) && Classified(r) == Classified(b)
            && r.lastSwitched == b.lastSwitched[e.cpu := e.time]
  {
    RegisterTwoTotals(b, e.prevPid, e.prevComm, e.nextPid, e.nextComm);
    var b1 := Register(Register(b, e.prevPid, e.prevComm), e.nextPid, e.nextComm);
    SwitchTotals(b1.(lastSwitched := b1.lastSwitched[e.cpu := e.time]), b1.pids[e.prevPid], e.time, Delta(b, e));
  }

  lemma ProcessTotals(b: Build, e: Event)
    requires Valid(b)
    ensures var r := Process(b, e);
            && TotalRunTime(r) == TotalRunTime(b) + (if Accepted(b, e) then Delta(b, e) else 0)
            && Classified(r) == Classified(b) + (if e.WakeupEvent? then 1 else 0)
            && r.lastSwitched == if Accepted(b, e) then b.lastSwitched[e.cpu := e.time] else b.lastSwitched
  {
    match e
    case WakeupEvent(time, tid, pid, comm) =>
      RegisterTwoTotals(b, tid, "<unknown>", pid, comm);
      var b1 := Register(Register(b, tid, "<unknown>"), pid, comm);
      WakeupTotals(b1, b1.pids[tid], time, b1.pids[pid]);
    case SwitchEvent(_, _, _, _, _, _) =>
      if Accepted(b, e) { ProcessSwitchTotals(b, e); }
    case ForkEvent(ptid, pcomm, ctid, ccomm) =>
      RegisterTwoTotals(b, ptid, pcomm, ctid, ccomm);
  }

  /** For every trace the builder's clock of a CPU is its latest switch, because a switch before that is refused. */
  lemma {:induction false} ClockIsLatest(trace: seq<Event>, cpu: nat)
    requires cpu < MAX_CPUS
    ensures Built(trace).lastSwitched[cpu] == LatestSwitch(trace, cpu)
  {
    hide Process;
    if trace != [] {
      ClockIsLatest(trace[..|trace| - 1], cpu);
      ProcessTotals(Built(trace[..|trace| - 1]), trace[|trace| - 1]);
    }
  }

  /** How long whoever is switched away from ran, as the trace has it. */
  function RanBefore(trace: seq<Event>, e: Event): nat {
    if e.SwitchEvent? && 0 <= e.cpu < MAX_CPUS && 0 < LatestSwitch(trace, e.cpu) <= e.time
    then e.time - LatestSwitch(trace, e.cpu) else 0
  }

  lemma DeltaIs(trace: seq<Event>, e: Event)
    ensures (if Accepted(Built(trace), e) then Delta(Built(trace), e) else 0) == RanBefore(trace, e)
  {
    if e.SwitchEvent? && 0 <= e.cpu < MAX_CPUS { ClockIsLatest(trace, e.cpu); }
  }

  lemma {:induction false} FirstSwitchSeen(trace: seq<Event>, cpu: nat)
    requires PositiveTimes(trace) && cpu < MAX_CPUS
    ensures LatestSwitch(trace, cpu) != 0 <==> FirstSwitch(trace, cpu) != 0
  {
    if trace != [] {
      assert trace[|trace| - 1] in trace;
      FirstSwitchSeen(trace[..|trace| - 1], cpu);
    }
  }

  /** A switch stretches the span of its CPU by the run it ends; no other event changes a span. */
  lemma SpansStep(trace: seq<Event>)
    requires trace != [] && PositiveTimes(trace)
    ensures var before, e := trace[..|trace| - 1], trace[|trace| - 1];
            Spans(trace) ==
            if e.SwitchEvent? && 0 <= e.cpu < MAX_CPUS
            then Spans(before)[e.cpu := Spans(before)[e.cpu] + RanBefore(before, e)] else Spans(before)
  {
    var before, e := trace[..|trace| - 1], trace[|trace| - 1];
    assert e in trace;
    forall cpu: nat | cpu < MAX_CPUS ensures LatestSwitch(before, cpu) != 0 <==> FirstSwitch(before, cpu) != 0 {
      FirstSwitchSeen(before, cpu);
    }
  }

  lemma RunTimeStep(trace: seq<Event>)
    requires trace != [] && PositiveTimes(trace)
    ensures var before := trace[..|trace| - 1];
            TotalRunTime(Built(trace)) - TotalRunTime(Built(before)) ==
            SumOf(Self, Spans(trace)) - SumOf(Self, Spans(before))
  {
    hide Process, Spans, SumOf, TotalRunTime, RanBefore;
    var before, e := trace[..|trace| - 1], trace[|trace| - 1];
    ProcessTotals(Built(before), e);
    DeltaIs(before, e);
    SpansStep(trace);
    if e.SwitchEvent? && 0 <= e.cpu < MAX_CPUS {
      SumUpdate(Self, Spans(before), e.cpu, Spans(before)[e.cpu] + RanBefore(before, e));
    } else {
      assert !Accepted(Built(before), e);
    }
  }

  /** The RUN atoms of all tasks last exactly as long as the CPUs were observed, for any order of events. */
  lemma {:induction false} RunTimeConserved(trace: seq<Event>)
    requires PositiveTimes(trace)
    ensures TotalRunTime(Built(trace)) == SumOf(Self, Spans(trace))
  {
    hide Built, Spans, SumOf, TotalRunTime;
    if trace == [] {
      EmptySpans();
    } else {
      RunTimeConserved(trace[..|trace| - 1]);
      RunTimeStep(trace);
    }
  }

  lemma EmptySpans()
    ensures SumOf(Self, Spans([])) == 0 && TotalRunTime(Built([])) == 0
  {
    AllZero(Spans([]));
  }

  lemma {:induction false} AllZero(s: seq<int>)
    requires forall i | 0 <= i < |s| :: s[i] == 0
    ensures SumOf(Self, s) == 0
  {
    if s != [] { AllZero(s[..|s| - 1]); }
  }

  // Counters.

  function Wakeups(trace: seq<Event>): nat {
    if trace == [] then 0 else Wakeups(trace[..|trace| - 1]) + if trace[|trace| - 1].WakeupEvent? then 1 else 0
  }

  /** Every wakeup of the trace is linked, targetless or multi-target. */
  lemma {:induction false} WakeupsClassified(trace: seq<Event>)
    ensures Classified(Built(trace)) == Wakeups(trace)
  {
    if trace != [] {
      WakeupsClassified(trace[..|trace| - 1]);
      ProcessTotals(Built(trace[..|trace| - 1]), trace[|trace| - 1]);
    }
  }

  lemma {:induction false} CrossTotals(b: Build, i: nat)
    requires Valid(b) && i <= |b.tasks|
    ensures Classified(CrossWakeups(b, i)) == Classified(b) + i
    ensures TotalRunTime(CrossWakeups(b, i)) == TotalRunTime(b)
  {
    hide AddWakeup;
    if i > 0 {
      CrossTotals(b, i - 1);
      WakeupTotals(CrossWakeups(b, i - 1), i - 1, 0, if i == |b.tasks| then 0 else i);
    }
  }

  // Whose run time it is.

  ghost predicate PidsOk(b: Build)
    requires Valid(b)
  {
    forall pid | pid in b.pids :: b.tasks[b.pids[pid]].pid == pid
  }

  function RunTimeOf(b: Build, pid: nat): int
    requires pid in b.pids ==> b.pids[pid] < |b.tasks|
  {
    if pid in b.pids then TaskRunTime(b.tasks[b.pids[pid]]) else 0
  }

  /** How long a task was seen to run: from the latest switch to the switch away from it, on its CPU. */
  function RanFor(trace: seq<Event>, pid: nat): int {
    if trace == [] then 0
    else
      var before, e := trace[..|trace| - 1], trace[|trace| - 1];
      RanFor(before, pid) + if e.SwitchEvent? && e.prevPid == pid then RanBefore(before, e) else 0
  }

  lemma RegisterOwner(b: Build, pid: nat, comm: string, p: nat)
    requires Valid(b) && PidsOk(b)
    ensures var r := Register(b, pid, comm);
            Valid(r) && PidsOk(r) && pid in r.pids && RunTimeOf(r, p) == RunTimeOf(b, p) &&
                r.lastSwitched == b.lastSwitched
  {
    SumOne(RunTime, Atom(Sleep, 0, 0, 0, None, false, None));
  }

  lemma WakeupOwner(b: Build, waker: nat, time: nat, wakee: nat, p: nat)
    requires Valid(b) && PidsOk(b) && waker < |b.tasks| && wakee < |b.tasks|
    ensures var r := AddWakeup(b, waker, time, wakee);
            Valid(r) && PidsOk(r) && RunTimeOf(r, p) == RunTimeOf(b, p)
  {
    hide SumOf;
    WakeupKeeps(b, waker, time, wakee);
    var r := AddWakeup(b, waker, time, wakee);
    forall t: nat | t < |b.tasks|
      ensures TaskRunTime(r.tasks[t]) == TaskRunTime(b.tasks[t]) && r.tasks[t].pid == b.tasks[t].pid
    {
      WakeupTask(b, waker, time, wakee, t);
    }
  }

  lemma WakeupTask(b: Build, waker: nat, time: nat, wakee: nat, t: nat)
    requires Valid(b) && waker < |b.tasks| && wakee < |b.tasks| && t < |b.tasks|
    ensures var r := AddWakeup(b, waker, time, wakee);
            |r.tasks| == |b.tasks| && TaskRunTime(r.tasks[t]) == TaskRunTime(b.tasks[t]) &&
                r.tasks[t].pid == b.tasks[t].pid
  {
    hide SumOf;
    var atoms := b.tasks[t].atoms;
    var none := NewAtom(b.tasks[waker], Wakeup, time, 0, None, Some(wakee));
    var linking := NewAtom(b.tasks[waker], Wakeup, time, 0, Some(b.nrWakeups), Some(wakee));
    SumAppend(RunTime, atoms, none);
    SumAppend(RunTime, atoms, linking);
    var last := |atoms| - 1;
    SumUpdate(RunTime, atoms, last, atoms[last].(sem := Some(b.nrWakeups), specificWait := true));
    var r := AddWakeup(b, waker, time, wakee);
    if r.nrWakeups != b.nrWakeups {
      assert waker != wakee;
    }
  }

  lemma SwitchOwner(b: Build, t: nat, time: nat, delta: nat, p: nat)
    requires Valid(b) && PidsOk(b) && t < |b.tasks|
    ensures var r := AddSwitch(b, t, time, delta);
            && Valid(r) && PidsOk(r)
            && RunTimeOf(r, p) == RunTimeOf(b, p) + if p in b.pids && b.pids[p] == t then delta else 0
  {
    hide SumOf;
    SwitchKeeps(b, t, time, delta);
    var b1 := AddRun(b, t, time, delta);
    var atoms := b.tasks[t].atoms;
    var last := |atoms| - 1;
    SumUpdate(RunTime, atoms, last, atoms[last].(duration := atoms[last].duration + delta));
    SumAppend(RunTime, atoms, NewAtom(b.tasks[t], Run, time, delta, None, None));
    SumAppend(RunTime, b1.tasks[t].atoms, NewAtom(b1.tasks[t], Sleep, time, 0, None, None));
  }

  lemma RegisterTwoOwner(b: Build, pid: nat, comm: string, pid': nat, comm': string, p: nat)
    requires Valid(b) && PidsOk(b)
    ensures var r := Register(Register(b, pid, comm), pid', comm');
            && Valid(r) && PidsOk(r) && pid in r.pids && pid' in r.pids
            && RunTimeOf(r, p) == RunTimeOf(b, p) && r.lastSwitched == b.lastSwitched
  {
    hide Register;
    RegisterOwner(b, pid, comm, p);
    RegisterOwner(Register(b, pid, comm), pid', comm', p);
    RegisterStays(Register(b, pid, comm), pid', comm', pid);
  }

  lemma RegisterStays(b: Build, pid: nat, comm: string, p: nat)
    ensures p in b.pids ==> p in Register(b, pid, comm).pids
  {
  }

  lemma ProcessOwner(b: Build, e: Event, p: nat)
    requires Valid(b) && PidsOk(b)
    ensures var r := Process(b, e);
            && Valid(r) && PidsOk(r)
            && RunTimeOf(r, p) == RunTimeOf(b, p) + if Accepted(b, e) && e.prevPid == p then Delta(b, e) else 0
  {
    hide Register, AddWakeup, AddSwitch, TaskRunTime;
    match e
    case WakeupEvent(time, tid, pid, comm) =>
      RegisterTwoOwner(b, tid, "<unknown>", pid, comm, p);
      var b1 := Register(Register(b, tid, "<unknown>"), pid, comm);
      WakeupOwner(b1, b1.pids[tid], time, b1.pids[pid], p);
    case SwitchEvent(_, _, _, _, _, _) =>
      if Accepted(b, e) {
        RegisterTwoOwner(b, e.prevPid, e.prevComm, e.nextPid, e.nextComm, p);
        var b1 := Register(Register(b, e.prevPid, e.prevComm), e.nextPid, e.nextComm);
        var b2 := b1.(lastSwitched := b1.lastSwitched[e.cpu := e.time]);
        assert Valid(b2) && PidsOk(b2) && RunTimeOf(b2, p) == RunTimeOf(b1, p);
        SwitchOwner(b2, b1.pids[e.prevPid], e.time, Delta(b, e), p);
      }
    case ForkEvent(ptid, pcomm, ctid, ccomm) =>
      RegisterTwoOwner(b, ptid, pcomm, ctid, ccomm, p);
  }

  /** Every task's RUN atoms last as long as that task itself was seen to run. */
  lemma {:induction false} RunTimePerTask(trace: seq<Event>, pid: nat)
    ensures PidsOk(Built(trace)) && RunTimeOf(Built(trace), pid) == RanFor(trace, pid)
  {
    hide Process, TaskRunTime, RanBefore;
    if trace != [] {
      RunTimePerTask(trace[..|trace| - 1], pid);
      DeltaIs(trace[..|trace| - 1], trace[|trace| - 1]);
      ProcessOwner(Built(trace[..|trace| - 1]), trace[|trace| - 1], pid);
    }
  }
}
