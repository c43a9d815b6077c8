/** The replay builder as the tool runs it: task lists, the pid table and the per-CPU clocks updated in place. */
module ReplayBuilder {
  import opened Options
  import opened ReplayProgram
  import opened ReplayBuild

  /** The pid table as a map: an unused slot is a missing key. */
  ghost function PidMap(table: seq<Option<nat>>): map<nat, nat> {
    map pid: nat | pid < |table| && table[pid].Some? :: table[pid].value
  }

  /** Both tasks of a switch are registered, and its clock is set. */
  lemma SwitchReady(b: Build, prevPid: nat, prevComm: string, nextPid: nat, nextComm: string, cpu: nat, time: nat)
    requires Valid(b) && cpu < MAX_CPUS
    ensures var b0 := Register(b, prevPid, prevComm);
            var b1 := Register(b0, nextPid, nextComm);
            && prevPid in b0.pids && prevPid in b1.pids && b1.pids[prevPid] == b0.pids[prevPid]
            && |b1.lastSwitched| == MAX_CPUS && b1.pids[prevPid] < |b1.tasks|
            && b1.tasks[b1.pids[prevPid]].atoms != []
            && Valid(b1.(lastSwitched := b1.lastSwitched[cpu := time]))
  {
  }

  lemma RunKeepsTasks(b: Build, t: nat, time: nat, duration: nat)
    requires t < |b.tasks| && b.tasks[t].atoms != []
    ensures |AddRun(b, t, time, duration).tasks| == |b.tasks|
  {
  }

  class Builder {
    var tasks: seq<Task>
    var pidToTask: seq<Option<nat>>
    const pidMax: nat
    const cpuLastSwitched: array<nat>
    var nrRuns: nat
    var nrSleeps: nat
    var nrWakeups: nat
    var nrOptimized: nat
    var targetless: nat
    var multitarget: nat

    ghost function State(): Build
      reads this, cpuLastSwitched
    {
      Build(tasks, PidMap(pidToTask), cpuLastSwitched[..], nrRuns, nrSleeps, nrWakeups, nrOptimized, targetless,
          multitarget)
    }

    ghost predicate Good()
      reads this, cpuLastSwitched
    {
      cpuLastSwitched.Length == MAX_CPUS && Valid(State())
    }

    /** `pidMax` is what the kernel reports; larger pids make the table grow. */
    constructor (pidMax: nat)
      ensures Good() && State() == Empty() && fresh(cpuLastSwitched)
    {
      tasks, pidToTask, this.pidMax := [], [], pidMax;
      nrRuns, nrSleeps, nrWakeups, nrOptimized, targetless, multitarget := 0, 0, 0, 0, 0, 0;
      var clocks := new nat[MAX_CPUS](_ => 0);
      cpuLastSwitched := clocks;
      new;
      assert cpuLastSwitched[..] == Empty().lastSwitched;
      assert PidMap([]) == map[];
    }

    method AddSchedEventRun(t: nat, time: nat, duration: nat)
      requires Good() && t < |tasks|
      modifies this
      ensures Good() && State() == AddRun(old(State()), t, time, duration)
    {
      var atoms := tasks[t].atoms;
      var last := atoms[|atoms| - 1];
      if last.kind == Run {
        nrOptimized := nrOptimized + 1;
        tasks := tasks[t := tasks[t].(atoms := atoms[|atoms| - 1 := last.(duration := last.duration + duration)])];
      } else {
        tasks := Append(tasks, t, NewAtom(tasks[t], Run, time, duration, None, None));
        nrRuns := nrRuns + 1;
      }
    }

    method AddSchedEventSleep(t: nat, time: nat)
      requires Good() && t < |tasks|
      modifies this
      ensures Good() && State() == AddSleep(old(State()), t, time)
    {
      tasks := Append(tasks, t, NewAtom(tasks[t], Sleep, time, 0, None, None));
      nrSleeps := nrSleeps + 1;
    }

    /** The waker's atom is appended before the wakee's last atom is looked at. */
    method AddSchedEventWakeup(waker: nat, time: nat, wakee: nat)
      requires Good() && waker < |tasks| && wakee < |tasks|
      modifies this
      ensures Good() && State() == AddWakeup(old(State()), waker, time, wakee)
    {
      var index := |tasks[waker].atoms|;
      tasks := Append(tasks, waker, NewAtom(tasks[waker], Wakeup, time, 0, None, Some(wakee)));
      var last := |tasks[wakee].atoms| - 1;
      var target := tasks[wakee].atoms[last];
      if target.kind != Sleep {
        targetless := targetless + 1;
        return;
      }
      if target.sem.Some? {
        multitarget := multitarget + 1;
        return;
      }
      tasks := tasks[wakee := tasks[wakee].(atoms :=
          tasks[wakee].atoms[last := target.(sem := Some(nrWakeups), specificWait := true)])];
      var atoms := tasks[waker].atoms;
      tasks := tasks[waker := tasks[waker].(atoms := atoms[index := atoms[index].(sem := Some(nrWakeups))])];
      nrWakeups := nrWakeups + 1;
      assert tasks[waker].atoms == AddWakeup(old(State()), waker, time, wakee).tasks[waker].atoms;
      assert tasks == AddWakeup(old(State()), waker, time, wakee).tasks;
    }

    method RegisterPid(pid: nat, comm: string) returns (t: nat)
      requires Good()
      modifies this
      ensures Good() && State() == Register(old(State()), pid, comm)
      ensures pid in State().pids && t == State().pids[pid]
    {
      if |pidToTask| == 0 {
        pidToTask := seq(pidMax, _ => None);
      }
      while pid >= |pidToTask|
        invariant PidMap(pidToTask) == old(PidMap(pidToTask))
        invariant unchanged(`tasks, `nrRuns, `nrSleeps, `nrWakeups, `nrOptimized, `targetless, `multitarget)
        decreases pid - |pidToTask|
      {
        pidToTask := pidToTask + [None];
      }
      if pidToTask[pid].Some? {
        return pidToTask[pid].value;
      }
      t := |tasks|;
      var task := Task(pid, comm, []);
      task := task.(atoms := [NewAtom(task, Sleep, 0, 0, None, None)]);
      nrSleeps := nrSleeps + 1;
      pidToTask := pidToTask[pid := Some(t)];
      tasks := tasks + [task];
      assert PidMap(pidToTask) == old(PidMap(pidToTask))[pid := t];
    }

    method AddCrossTaskWakeups()
      requires Good()
      modifies this
      ensures Good() && State() == CrossWakeups(old(State()), |old(tasks)|)
    {
      var i, n := 0, |tasks|;
      while i < n
        invariant 0 <= i <= n == |tasks| && Good()
        invariant State() == CrossWakeups(old(State()), i)
      {
        var j := i + 1;
        if j == n { j := 0; }
        AddSchedEventWakeup(i, 0, j);
        i := i + 1;
      }
    }

    method ReplayWakeupEvent(time: nat, tid: nat, pid: nat, comm: string)
      requires Good()
      modifies this
      ensures Good() && State() == Process(old(State()), WakeupEvent(time, tid, pid, comm))
    {
      var waker := RegisterPid(tid, "<unknown>");
      var wakee := RegisterPid(pid, comm);
      AddSchedEventWakeup(waker, time, wakee);
    }

    /** Returns -1, and changes nothing, when the clock of the CPU went back. */
    method ReplaySwitchEvent(time: nat, cpu: int, prevPid: nat, prevComm: string, nextPid: nat, nextComm: string)
      returns (rc: int)
      requires Good()
      modifies this, cpuLastSwitched
      ensures Good() && State() == Process(old(State()), SwitchEvent(time, cpu, prevPid, prevComm, nextPid, nextComm))
      ensures rc == if 0 <= cpu < MAX_CPUS && old(cpuLastSwitched[cpu]) > time then -1 else 0
    {
      hide Valid, Register, AddRun, AddSleep, PidMap;
      if cpu >= MAX_CPUS || cpu < 0 { return 0; }
      var time0 := cpuLastSwitched[cpu];
      var delta: int := if time0 != 0 then time - time0 else 0;
      if delta < 0 { return -1; }
      var prev := RegisterPid(prevPid, prevComm);
      var next := RegisterPid(nextPid, nextComm);
      label registered:
      cpuLastSwitched[cpu] := time;
      assert cpuLastSwitched[..] == old(cpuLastSwitched[..])[cpu := time];
      SwitchReady(old(State()), prevPid, prevComm, nextPid, nextComm, cpu, time);
      assert State() == old@registered(State()).(lastSwitched := cpuLastSwitched[..]);
      RunKeepsTasks(State(), prev, time, delta);
      AddSchedEventRun(prev, time, delta);
      AddSchedEventSleep(prev, time);
      return 0;
    }

    method ReplayForkEvent(parentTid: nat, parentComm: string, childTid: nat, childComm: string)
      requires Good()
      modifies this
      ensures Good() && State() == Process(old(State()), ForkEvent(parentTid, parentComm, childTid, childComm))
    {
      var parent := RegisterPid(parentTid, parentComm);
      var child := RegisterPid(childTid, childComm);
    }
  }
}
