/**
 Replaying a program: one thread per task and a parent, which meet round after round behind the
 two mutexes `start_work_mutex` and `work_done_wait_mutex` and two semaphores per task.

 Every shared-memory action of `thread_func`, `create_tasks` and `wait_for_tasks` is one step, and
 any enabled actor may move, so a run is any interleaving. `log` and `totals` are history: what
 each task measured in each round and what the parent had added up when each round ended.
 */
module ReplayRun {
  import opened Options
  import opened ReplayProgram

  /** What a replay thread does next. `Work(k)` is about to process atom `k`, or to measure when there is none. */
  datatype TaskPc = Unborn | PostReady | LockStart | UnlockStart | Work(next: nat) | PostDone | LockDone | UnlockDone

  /** What the parent does next. */
  datatype ParentPc =
    | Create(i: nat) | Repeat | ReleaseDone
    | WaitReady(i: nat) | ResetReady(i: nat) | TakeDone | ReleaseStart
    | WaitDone(i: nat) | ResetDone(i: nat) | Collect(i: nat) | TakeStart
    | Finished

  datatype Mutex = Free | ByParent | ByTask(t: nat)

  datatype State = State(
    round: nat, parent: ParentPc, task: seq<TaskPc>,
    start: Mutex, done: Mutex, ready: seq<nat>, workDone: seq<nat>,
    usage: seq<nat>, cpuUsage: nat, wait: seq<nat>,
    log: seq<seq<nat>>, totals: seq<nat>)

  /** Who moves; a task that ends its round measures some `used` time. */
  datatype Actor = Parent | Thread(t: nat, used: nat)

  ghost predicate Shape(p: Program, s: State) {
    var n := |p.tasks|;
    && |s.task| == |s.ready| == |s.workDone| == |s.usage| == |s.log| == n
    && |s.wait| == p.sems
    && (forall j | 0 <= j < n :: s.task[j].Work? ==> s.task[j].next <= |p.tasks[j]|)
    && (forall j, k | 0 <= j < n && 0 <= k < |p.tasks[j]| && p.tasks[j][k].sem.Some? ::
        p.tasks[j][k].sem.value < p.sems)
    && (s.parent.Create? || s.parent.WaitReady? || s.parent.WaitDone? ==> s.parent.i <= n)
    && (s.parent.ResetReady? || s.parent.ResetDone? || s.parent.Collect? ==> s.parent.i < n)
  }

  function Init(p: Program): State {
    var n := |p.tasks|;
    State(0, Create(0), seq(n, _ => Unborn), ByParent, ByParent, seq(n, _ => 0), seq(n, _ => 0),
          seq(n, _ => 0), 0, seq(p.sems, _ => 0), seq(n, _ => []), [])
  }

  // The parent: create_tasks, then wait_for_tasks `repeat` times.

  ghost predicate ParentEnabled(p: Program, s: State)
    requires Shape(p, s)
  {
    match s.parent
    case WaitReady(i) => i < |p.tasks| ==> s.ready[i] > 0
    case TakeDone => s.done.Free?
    case WaitDone(i) => i < |p.tasks| ==> s.workDone[i] > 0
    case TakeStart => s.start.Free?
    case Finished => false
    case _ => true
  }

  ghost function ParentStep(p: Program, repeat: nat, s: State): State
    requires Shape(p, s) && ParentEnabled(p, s)
  {
    var n := |p.tasks|;
    match s.parent
    case Create(i) =>
      if i < n then s.(task := s.task[i := PostReady], parent := Create(i + 1)) else s.(parent := Repeat)
    case Repeat => s.(parent := if s.round < repeat then ReleaseDone else Finished)
    case ReleaseDone => s.(cpuUsage := 0, done := Free, parent := WaitReady(0))
    case WaitReady(i) =>
      if i < n then s.(ready := s.ready[i := s.ready[i] - 1], parent := ResetReady(i)) else s.(parent := TakeDone)
    case ResetReady(i) => s.(ready := s.ready[i := 0], parent := WaitReady(i + 1))
    case TakeDone => s.(done := ByParent, parent := ReleaseStart)
    case ReleaseStart => s.(start := Free, parent := WaitDone(0))
    case WaitDone(i) =>
      if i < n then s.(workDone := s.workDone[i := s.workDone[i] - 1], parent := ResetDone(i))
      else s.(parent := TakeStart)
    case ResetDone(i) => s.(workDone := s.workDone[i := 0], parent := Collect(i))
    case Collect(i) => s.(cpuUsage := s.cpuUsage + s.usage[i], usage := s.usage[i := 0], parent := WaitDone(i + 1))
    case TakeStart => s.(start := ByParent, round := s.round + 1, totals := s.totals + [s.cpuUsage], parent := Repeat)
    case Finished => s
  }

  // A task: thread_func and perf_sched__process_event.

  predicate AtomEnabled(wait: seq<nat>, a: Atom)
    requires a.sem.Some? ==> a.sem.value < |wait|
  {
    a.kind == Sleep && a.sem.Some? ==> wait[a.sem.value] > 0
  }

  function ProcessAtom(wait: seq<nat>, a: Atom): seq<nat>
    requires a.sem.Some? ==> a.sem.value < |wait|
    requires AtomEnabled(wait, a)
  {
    match a.kind
    case Run => wait
    case Sleep => if a.sem.Some? then wait[a.sem.value := wait[a.sem.value] - 1] else wait
    case Wakeup => if a.sem.Some? then wait[a.sem.value := wait[a.sem.value] + 1] else wait
    case Migration => wait
  }

  ghost predicate TaskEnabled(p: Program, s: State, j: nat)
    requires Shape(p, s) && j < |p.tasks|
  {
    match s.task[j]
    case Unborn => false
    case LockStart => s.start.Free?
    case LockDone => s.done.Free?
    case Work(k) => k < |p.tasks[j]| ==> AtomEnabled(s.wait, p.tasks[j][k])
    case _ => true
  }

  ghost function TaskStep(p: Program, s: State, j: nat, used: nat): State
    requires Shape(p, s) && j < |p.tasks| && TaskEnabled(p, s, j)
  {
    match s.task[j]
    case Unborn => s
    case PostReady => s.(ready := s.ready[j := s.ready[j] + 1], task := s.task[j := LockStart])
    case LockStart => s.(start := ByTask(j), task := s.task[j := UnlockStart])
    case UnlockStart => s.(start := Free, task := s.task[j := Work(0)])
    case Work(k) =>
      if k < |p.tasks[j]| then
        s.(wait := ProcessAtom(s.wait, p.tasks[j][k]), task := s.task[j := Work(k + 1)])
      else
        s.(usage := s.usage[j := used], log := s.log[j := s.log[j] + [used]], task := s.task[j := PostDone])
    case PostDone => s.(workDone := s.workDone[j := s.workDone[j] + 1], task := s.task[j := LockDone])
    case LockDone => s.(done := ByTask(j), task := s.task[j := UnlockDone])
    case UnlockDone => s.(done := Free, task := s.task[j := PostReady])
  }

  ghost predicate Enabled(p: Program, s: State, a: Actor)
    requires Shape(p, s)
  {
    match a
    case Parent => ParentEnabled(p, s)
    case Thread(t, _) => t < |p.tasks| && TaskEnabled(p, s, t)
  }

  ghost function Step(p: Program, repeat: nat, s: State, a: Actor): State
    requires Shape(p, s) && Enabled(p, s, a)
  {
    match a
    case Parent => ParentStep(p, repeat, s)
    case Thread(t, used) => TaskStep(p, s, t, used)
  }

  /** `s` is reached from the start by letting the actors of `run` move in turn. */
  ghost predicate Reaches(p: Program, repeat: nat, run: seq<Actor>, s: State)
    decreases |run|
  {
    if run == [] then s == Init(p)
    else
      exists s0 ::
        && Reaches(p, repeat, run[..|run| - 1], s0)
        && Shape(p, s0) && Enabled(p, s0, run[|run| - 1])
        && s == Step(p, repeat, s0, run[|run| - 1])
  }

  // The invariant.

  /** The parent's turn with one task, and what that task may be doing then. */
  ghost predicate TaskOk(s: State, j: nat)
    requires j < |s.task| == |s.ready| == |s.workDone| == |s.usage| == |s.log|
  {
    var pc, d := s.task[j], |s.log[j]|;
    var resting := s.workDone[j] == 0 && s.usage[j] == 0 && d == s.round;
    var arriving := resting && ((pc == PostReady && s.ready[j] == 0) || (pc == LockStart && s.ready[j] == 1));
    var leaving := resting && s.round > 0 && s.ready[j] == 0;
    var measured := d == s.round + 1 && s.ready[j] == 0;
    match s.parent
    case Create(i) =>
      if j < i then arriving else pc == Unborn && resting && s.ready[j] == 0
    case Repeat => if s.round == 0 then arriving else leaving && pc == LockDone
    case ReleaseDone => if s.round == 0 then arriving else leaving && pc == LockDone
    case Finished => if s.round == 0 then arriving else leaving && pc == LockDone
    case WaitReady(i) =>
      if j < i then resting && pc == LockStart && s.ready[j] == 0
      else arriving || (leaving && (pc == LockDone || pc == UnlockDone))
    case ResetReady(i) =>
      if j <= i then resting && pc == LockStart && s.ready[j] == 0
      else arriving || (leaving && (pc == LockDone || pc == UnlockDone))
    case TakeDone => resting && pc == LockStart && s.ready[j] == 0
    case ReleaseStart => resting && pc == LockStart && s.ready[j] == 0
    case WaitDone(i) =>
      if j < i then measured && pc == LockDone && s.workDone[j] == 0 && s.usage[j] == 0
      else
        || (resting && s.ready[j] == 0 && (pc == LockStart || pc == UnlockStart || pc.Work?))
        || (measured && s.usage[j] == s.log[j][s.round] && pc == PostDone && s.workDone[j] == 0)
        || (measured && s.usage[j] == s.log[j][s.round] && pc == LockDone && s.workDone[j] == 1)
    case ResetDone(i) => Collecting(s, i, j)
    case Collect(i) => Collecting(s, i, j)
    case TakeStart => measured && pc == LockDone && s.workDone[j] == 0 && s.usage[j] == 0
  }

  /** As for WaitDone, with task `i` itself done and about to be collected. */
  ghost predicate Collecting(s: State, i: nat, j: nat)
    requires j < |s.task| == |s.ready| == |s.workDone| == |s.usage| == |s.log|
  {
    var pc, d := s.task[j], |s.log[j]|;
    var resting := s.workDone[j] == 0 && s.usage[j] == 0 && d == s.round;
    var measured := d == s.round + 1 && s.ready[j] == 0;
    if j < i then measured && pc == LockDone && s.workDone[j] == 0 && s.usage[j] == 0
    else if j == i then measured && pc == LockDone && s.workDone[j] == 0 && s.usage[j] == s.log[j][s.round]
    else
      || (resting && s.ready[j] == 0 && (pc == LockStart || pc == UnlockStart || pc.Work?))
      || (measured && s.usage[j] == s.log[j][s.round] && pc == PostDone && s.workDone[j] == 0)
      || (measured && s.usage[j] == s.log[j][s.round] && pc == LockDone && s.workDone[j] == 1)
  }

  predicate Working(pc: ParentPc) {
    pc.WaitDone? || pc.ResetDone? || pc.Collect? || pc.TakeStart?
  }

  predicate Gathering(pc: ParentPc) {
    pc.WaitReady? || pc.ResetReady? || pc.TakeDone?
  }

  /** A mutex is the parent's except in its own window, where only a task between lock and unlock holds it. */
  ghost predicate MutexOk(m: Mutex, window: bool, task: seq<TaskPc>, holding: TaskPc) {
    && (m.ByParent? <==> !window)
    && (m.ByTask? ==> m.t < |task|)
    && (forall j | 0 <= j < |task| :: task[j] == holding <==> m == ByTask(j))
  }

  /** How often the atom at `l` has been processed so far. */
  function Executions(s: State, l: Loc): nat
    requires l.task < |s.task| == |s.log|
  {
    |s.log[l.task]| + (if s.task[l.task].Work? && s.task[l.task].next > l.index then 1 else 0)
  }

  ghost predicate SemOk(p: Program, l: Layout, s: State, k: nat)
    requires Shape(p, s) && WellLinked(p, l) && k < p.sems
  {
    assert Joins(p.tasks, l.rank, k, l.sleepAt[k], l.wakeAt[k]);
    s.wait[k] == Executions(s, l.wakeAt[k]) - Executions(s, l.sleepAt[k])
  }

  /** What the first `i` tasks measured in round `k`, added up. */
  ghost function RoundSum(log: seq<seq<nat>>, k: nat, i: nat): nat
    requires i <= |log| && forall j | 0 <= j < i :: k < |log[j]|
  {
    if i == 0 then 0 else RoundSum(log, k, i - 1) + log[i - 1][k]
  }

  ghost predicate UsageOk(s: State) {
    && |s.totals| == s.round
    && (forall j | 0 <= j < |s.log| :: s.round <= |s.log[j]|)
    && (forall k | 0 <= k < s.round :: s.totals[k] == RoundSum(s.log, k, |s.log|))
    && (s.parent.WaitDone? || s.parent.ResetDone? || s.parent.Collect? ==>
          && s.parent.i <= |s.log|
          && (forall j | 0 <= j < s.parent.i :: s.round < |s.log[j]|)
          && s.cpuUsage == RoundSum(s.log, s.round, s.parent.i))
    && (s.parent.TakeStart? ==>
          && (forall j | 0 <= j < |s.log| :: s.round < |s.log[j]|)
          && s.cpuUsage == RoundSum(s.log, s.round, |s.log|))
    && (s.parent.ReleaseStart? ==> s.cpuUsage == 0)
    && (Gathering(s.parent) ==> s.cpuUsage == 0)
  }

  ghost predicate Inv(p: Program, l: Layout, repeat: nat, s: State)
    requires WellLinked(p, l)
  {
    && Shape(p, s)
    && (forall j | 0 <= j < |p.tasks| :: TaskOk(s, j))
    && MutexOk(s.start, Working(s.parent), s.task, UnlockStart)
    && MutexOk(s.done, Gathering(s.parent), s.task, UnlockDone)
    && (forall k | 0 <= k < p.sems :: SemOk(p, l, s, k))
    && UsageOk(s)
    && s.round <= repeat
    && (s.parent.Create? ==> s.round == 0)
    && (s.parent.Finished? ==> s.round == repeat)
    && (s.parent.ReleaseDone? || Gathering(s.parent) || s.parent.ReleaseStart? || Working(s.parent) ==>
        s.round < repeat)
  }

  // The invariant holds at the start and every step keeps it.

  lemma {:induction false} RoundSumFrame(log: seq<seq<nat>>, log': seq<seq<nat>>, k: nat, i: nat)
    requires i <= |log| && i <= |log'|
    requires forall j | 0 <= j < i :: k < |log[j]| && k < |log'[j]| && log[j][k] == log'[j][k]
    ensures RoundSum(log, k, i) == RoundSum(log', k, i)
  {
    if i > 0 { RoundSumFrame(log, log', k, i - 1); }
  }

  lemma InitInv(p: Program, l: Layout, repeat: nat)
    requires WellLinked(p, l)
    ensures Inv(p, l, repeat, Init(p))
  {
    var s := Init(p);
    forall j, k | 0 <= j < |p.tasks| && 0 <= k < |p.tasks[j]| && p.tasks[j][k].sem.Some?
      ensures p.tasks[j][k].sem.value < p.sems
    {
      assert Owned(p.tasks[j][k], Loc(j, k), l.sleepAt, l.wakeAt);
    }
    forall k | 0 <= k < p.sems ensures SemOk(p, l, s, k) {
      assert Joins(p.tasks, l.rank, k, l.sleepAt[k], l.wakeAt[k]);
    }
  }

  lemma ParentKeepsShape(p: Program, repeat: nat, s: State)
    requires Shape(p, s) && ParentEnabled(p, s)
    ensures Shape(p, ParentStep(p, repeat, s))
  {
  }

  lemma ParentKeepsTask(p: Program, repeat: nat, s: State, j: nat)
    requires Shape(p, s) && ParentEnabled(p, s) && j < |p.tasks| && TaskOk(s, j)
    requires s.parent.Create? ==> s.round == 0
    ensures Shape(p, ParentStep(p, repeat, s)) && TaskOk(ParentStep(p, repeat, s), j)
  {
    ParentKeepsShape(p, repeat, s);
    match s.parent
    case WaitDone(i) =>
    case ResetDone(i) =>
    case Collect(i) =>
    case WaitReady(i) =>
    case ResetReady(i) =>
    case Create(i) =>
    case _ =>
  }

  lemma ParentKeepsMutexes(p: Program, l: Layout, repeat: nat, s: State)
    requires WellLinked(p, l) && Inv(p, l, repeat, s) && ParentEnabled(p, s)
    ensures var s' := ParentStep(p, repeat, s);
            && MutexOk(s'.start, Working(s'.parent), s'.task, UnlockStart)
            && MutexOk(s'.done, Gathering(s'.parent), s'.task, UnlockDone)
  {
    var s' := ParentStep(p, repeat, s);
    forall j | 0 <= j < |p.tasks|
      ensures s'.task[j] == UnlockStart <==> s'.start == ByTask(j)
      ensures s'.task[j] == UnlockDone <==> s'.done == ByTask(j)
    {
      assert TaskOk(s, j);
    }
  }

  lemma ParentKeepsSem(p: Program, l: Layout, repeat: nat, s: State, k: nat)
    requires WellLinked(p, l) && Shape(p, s) && ParentEnabled(p, s) && k < p.sems && SemOk(p, l, s, k)
    requires s.parent.Create? && s.parent.i < |p.tasks| ==> s.task[s.parent.i] == Unborn
    ensures Shape(p, ParentStep(p, repeat, s)) && SemOk(p, l, ParentStep(p, repeat, s), k)
  {
    ParentKeepsShape(p, repeat, s);
    var s' := ParentStep(p, repeat, s);
    assert s'.log == s.log && s'.wait == s.wait;
  }

  lemma ParentKeepsUsage(p: Program, repeat: nat, s: State)
    requires Shape(p, s) && ParentEnabled(p, s) && UsageOk(s)
    requires forall j | 0 <= j < |p.tasks| :: TaskOk(s, j)
    ensures UsageOk(ParentStep(p, repeat, s))
  {
    hide TaskOk, RoundSum;
    if s.parent.Collect? {
      CollectedSum(s, s.parent.i);
    } else if s.parent.ReleaseStart? {
      NothingCollected(s);
    }
  }

  /** The collected task measured what is added. */
  lemma CollectedSum(s: State, i: nat)
    requires i < |s.task| == |s.ready| == |s.workDone| == |s.usage| == |s.log|
    requires s.parent == Collect(i) && TaskOk(s, i) && forall j | 0 <= j < i :: s.round < |s.log[j]|
    ensures s.round < |s.log[i]|
    ensures RoundSum(s.log, s.round, i + 1) == RoundSum(s.log, s.round, i) + s.usage[i]
  {
  }

  lemma NothingCollected(s: State)
    ensures RoundSum(s.log, s.round, 0) == 0
  {
  }

  lemma ParentKeepsInv(p: Program, l: Layout, repeat: nat, s: State)
    requires WellLinked(p, l) && Inv(p, l, repeat, s) && ParentEnabled(p, s)
    ensures Inv(p, l, repeat, ParentStep(p, repeat, s))
  {
    ParentKeepsShape(p, repeat, s);
    forall j | 0 <= j < |p.tasks| ensures TaskOk(ParentStep(p, repeat, s), j) {
      ParentKeepsTask(p, repeat, s, j);
    }
    ParentKeepsMutexes(p, l, repeat, s);
    assert s.parent.Create? && s.parent.i < |p.tasks| ==> TaskOk(s, s.parent.i);
    forall k | 0 <= k < p.sems ensures SemOk(p, l, ParentStep(p, repeat, s), k) {
      ParentKeepsSem(p, l, repeat, s, k);
    }
    ParentKeepsUsage(p, repeat, s);
  }

  lemma TaskKeepsShape(p: Program, s: State, t: nat, used: nat)
    requires Shape(p, s) && t < |p.tasks| && TaskEnabled(p, s, t)
    ensures Shape(p, TaskStep(p, s, t, used))
  {
  }

  /** Which task steps can happen at all under each turn of the parent. */
  lemma TaskKeepsItself(p: Program, s: State, t: nat, used: nat)
    requires Shape(p, s) && t < |p.tasks| && TaskEnabled(p, s, t) && TaskOk(s, t)
    requires s.start.ByParent? <==> !Working(s.parent)
    requires s.done.ByParent? <==> !Gathering(s.parent)
    ensures Shape(p, TaskStep(p, s, t, used)) && TaskOk(TaskStep(p, s, t, used), t)
  {
    TaskKeepsShape(p, s, t, used);
  }

  lemma TaskKeepsOthers(p: Program, s: State, t: nat, used: nat, j: nat)
    requires Shape(p, s) && t < |p.tasks| && TaskEnabled(p, s, t)
    requires j < |p.tasks| && j != t && TaskOk(s, j)
    ensures Shape(p, TaskStep(p, s, t, used)) && TaskOk(TaskStep(p, s, t, used), j)
  {
    TaskKeepsShape(p, s, t, used);
    var s' := TaskStep(p, s, t, used);
    assert s'.parent == s.parent && s'.round == s.round;
    assert s'.task[j] == s.task[j] && s'.ready[j] == s.ready[j] && s'.workDone[j] == s.workDone[j];
    assert s'.usage[j] == s.usage[j] && s'.log[j] == s.log[j];
  }

  lemma TaskKeepsMutexes(p: Program, l: Layout, repeat: nat, s: State, t: nat, used: nat)
    requires WellLinked(p, l) && Inv(p, l, repeat, s) && t < |p.tasks| && TaskEnabled(p, s, t)
    ensures var s' := TaskStep(p, s, t, used);
            && MutexOk(s'.start, Working(s'.parent), s'.task, UnlockStart)
            && MutexOk(s'.done, Gathering(s'.parent), s'.task, UnlockDone)
  {
    assert TaskOk(s, t);
  }

  lemma AtomKeepsSem(p: Program, l: Layout, s: State, t: nat, used: nat, k: nat)
    requires WellLinked(p, l) && Shape(p, s) && t < |p.tasks| && TaskEnabled(p, s, t)
    requires s.task[t].Work? && s.task[t].next < |p.tasks[t]|
    requires k < p.sems && SemOk(p, l, s, k)
    ensures Shape(p, TaskStep(p, s, t, used)) && SemOk(p, l, TaskStep(p, s, t, used), k)
  {
    TaskKeepsShape(p, s, t, used);
    var s' := TaskStep(p, s, t, used);
    var at := Loc(t, s.task[t].next);
    assert Joins(p.tasks, l.rank, k, l.sleepAt[k], l.wakeAt[k]);
    assert Owned(AtomAt(p.tasks, at), at, l.sleepAt, l.wakeAt);
    assert Executions(s', l.wakeAt[k]) == Executions(s, l.wakeAt[k]) + if l.wakeAt[k] == at then 1 else 0;
    assert Executions(s', l.sleepAt[k]) == Executions(s, l.sleepAt[k]) + if l.sleepAt[k] == at then 1 else 0;
  }

  lemma TaskKeepsSem(p: Program, l: Layout, s: State, t: nat, used: nat, k: nat)
    requires WellLinked(p, l) && Shape(p, s) && t < |p.tasks| && TaskEnabled(p, s, t)
    requires k < p.sems && SemOk(p, l, s, k)
    ensures Shape(p, TaskStep(p, s, t, used)) && SemOk(p, l, TaskStep(p, s, t, used), k)
  {
    if s.task[t].Work? && s.task[t].next < |p.tasks[t]| {
      AtomKeepsSem(p, l, s, t, used, k);
    } else {
      TaskKeepsShape(p, s, t, used);
      assert Joins(p.tasks, l.rank, k, l.sleepAt[k], l.wakeAt[k]);
      assert TaskStep(p, s, t, used).wait == s.wait;
    }
  }

  lemma TaskKeepsUsage(p: Program, s: State, t: nat, used: nat)
    requires Shape(p, s) && t < |p.tasks| && TaskEnabled(p, s, t) && UsageOk(s) && TaskOk(s, t)
    ensures UsageOk(TaskStep(p, s, t, used))
  {
    hide TaskOk, RoundSum, ProcessAtom, AtomEnabled;
    var s' := TaskStep(p, s, t, used);
    forall k | 0 <= k < s.round ensures s'.totals[k] == RoundSum(s'.log, k, |s'.log|) {
      RoundSumFrame(s.log, s'.log, k, |s.log|);
    }
    if s.parent.WaitDone? || s.parent.ResetDone? || s.parent.Collect? {
      RoundSumFrame(s.log, s'.log, s.round, s.parent.i);
    }
    if s.parent.TakeStart? {
      RoundSumFrame(s.log, s'.log, s.round, |s.log|);
    }
  }

  lemma TaskKeepsInv(p: Program, l: Layout, repeat: nat, s: State, t: nat, used: nat)
    requires WellLinked(p, l) && Inv(p, l, repeat, s) && t < |p.tasks| && TaskEnabled(p, s, t)
    ensures Inv(p, l, repeat, TaskStep(p, s, t, used))
  {
    TaskKeepsShape(p, s, t, used);
    forall j | 0 <= j < |p.tasks| ensures TaskOk(TaskStep(p, s, t, used), j) {
      if j == t { TaskKeepsItself(p, s, t, used); } else { TaskKeepsOthers(p, s, t, used, j); }
    }
    TaskKeepsMutexes(p, l, repeat, s, t, used);
    forall k | 0 <= k < p.sems ensures SemOk(p, l, TaskStep(p, s, t, used), k) {
      TaskKeepsSem(p, l, s, t, used, k);
    }
    TaskKeepsUsage(p, s, t, used);
  }

  lemma {:induction false} ReachableInv(p: Program, l: Layout, repeat: nat, run: seq<Actor>, s: State)
    requires WellLinked(p, l) && Reaches(p, repeat, run, s)
    ensures Inv(p, l, repeat, s)
    decreases |run|
  {
    if run == [] {
      InitInv(p, l, repeat);
    } else {
      var a := run[|run| - 1];
      var s0 :| Reaches(p, repeat, run[..|run| - 1], s0) && Shape(p, s0) && Enabled(p, s0, a) &&
        s == Step(p, repeat, s0, a);
      ReachableInv(p, l, repeat, run[..|run| - 1], s0);
      match a
      case Parent => ParentKeepsInv(p, l, repeat, s0);
      case Thread(t, used) => TaskKeepsInv(p, l, repeat, s0, t, used);
    }
  }

  // Safety of the barrier and of the linked semaphores.

  /** No task works on a round before every task has finished all earlier ones. */
  lemma BarrierSafe(p: Program, l: Layout, repeat: nat, run: seq<Actor>, s: State, j: nat)
    requires WellLinked(p, l) && Reaches(p, repeat, run, s)
    requires j < |p.tasks|
    ensures |s.task| == |s.log| == |p.tasks|
    ensures s.task[j].Work? ==> |s.log[j]| == s.round && forall i | 0 <= i < |p.tasks| :: |s.log[i]| >= |s.log[j]|
  {
    ReachableInv(p, l, repeat, run, s);
    assert TaskOk(s, j);
    forall i | 0 <= i < |p.tasks| ensures |s.log[i]| >= s.round { assert TaskOk(s, i); }
  }

  /** When the parent ends a round it has added what each task measured in that round, once. */
  lemma UsageAddedOncePerRound(p: Program, l: Layout, repeat: nat, run: seq<Actor>, s: State)
    requires WellLinked(p, l) && Reaches(p, repeat, run, s)
    ensures |s.totals| == s.round && forall j | 0 <= j < |s.log| :: s.round <= |s.log[j]|
    ensures forall k | 0 <= k < s.round :: s.totals[k] == RoundSum(s.log, k, |s.log|)
  {
    ReachableInv(p, l, repeat, run, s);
  }

  /** A linked semaphore holds 0 or 1, and 0 whenever the parent is between rounds. */
  lemma SemaphoresBinary(p: Program, l: Layout, repeat: nat, run: seq<Actor>, s: State, k: nat)
    requires WellLinked(p, l) && Reaches(p, repeat, run, s)
    requires k < p.sems
    ensures |s.wait| == p.sems && s.wait[k] <= 1
    ensures !Working(s.parent) ==> s.wait[k] == 0
  {
    ReachableInv(p, l, repeat, run, s);
    assert SemOk(p, l, s, k);
    assert Joins(p.tasks, l.rank, k, l.sleepAt[k], l.wakeAt[k]);
    assert TaskOk(s, l.wakeAt[k].task) && TaskOk(s, l.sleepAt[k].task);
  }

  // Progress: some actor can always move until the parent has finished.

  predicate Pending(p: Program, s: State, j: nat)
    requires |s.task| == |p.tasks|
  {
    j < |p.tasks| && s.task[j].Work? && s.task[j].next < |p.tasks[j]|
  }

  /** The pending task whose next atom has the lowest rank, among the first `i` tasks and `best`. */
  lemma {:induction false} LowestPending(p: Program, l: Layout, s: State, i: nat, best: nat) returns (j: nat)
    requires SameShape(p.tasks, l.rank) && |s.task| == |p.tasks| && i <= |p.tasks|
    requires Pending(p, s, best)
    ensures Pending(p, s, j) && l.rank[j][s.task[j].next] <= l.rank[best][s.task[best].next]
    ensures forall t | 0 <= t < i && Pending(p, s, t) :: l.rank[j][s.task[j].next] <= l.rank[t][s.task[t].next]
  {
    if i == 0 {
      j := best;
    } else {
      var b := if Pending(p, s, i - 1) && l.rank[i - 1][s.task[i - 1].next] < l.rank[best][s.task[best].next]
        then i - 1 else best;
      j := LowestPending(p, l, s, i - 1, b);
    }
  }

  /** A pending linked SLEEP whose WAKEUP has been processed in this round is not blocked. */
  lemma WokenSleepEnabled(p: Program, l: Layout, s: State, at: Loc, k: nat)
    requires WellLinked(p, l) && Shape(p, s)
    requires k < p.sems && l.sleepAt[k] == at && SemOk(p, l, s, k)
    requires InProgram(p.tasks, at) && s.task[at.task] == Work(at.index) && |s.log[at.task]| == s.round
    requires l.wakeAt[k].task < |p.tasks| && Executions(s, l.wakeAt[k]) > s.round
    requires AtomAt(p.tasks, at).sem == Some(k)
    ensures TaskEnabled(p, s, at.task)
  {
    assert Executions(s, at) == s.round;
  }

  /** Once everyone is past the start mutex, the pending atom of lowest rank is not blocked. */
  lemma SomeAtomEnabled(p: Program, l: Layout, repeat: nat, s: State, best: nat) returns (j: nat)
    requires WellLinked(p, l) && Inv(p, l, repeat, s) && Working(s.parent)
    requires forall t | 0 <= t < |p.tasks| :: s.task[t] != LockStart && s.task[t] != UnlockStart
    requires Pending(p, s, best)
    ensures j < |p.tasks| && TaskEnabled(p, s, j)
  {
    j := LowestPending(p, l, s, |p.tasks|, best);
    var at := Loc(j, s.task[j].next);
    var a := AtomAt(p.tasks, at);
    if a.kind == Sleep && a.sem.Some? {
      var k := a.sem.value;
      assert Owned(a, at, l.sleepAt, l.wakeAt);
      assert Joins(p.tasks, l.rank, k, l.sleepAt[k], l.wakeAt[k]);
      assert TaskOk(s, j);
      assert Executions(s, l.wakeAt[k]) > s.round by {
        assert TaskOk(s, l.wakeAt[k].task);
        assert Increasing(l.rank[l.wakeAt[k].task]);
      }
      WokenSleepEnabled(p, l, s, at, k);
    }
  }

  /** Whoever holds a mutex can release it, so a free or task-held mutex never blocks everybody. */
  lemma LockStepEnabled(p: Program, l: Layout, repeat: nat, s: State, t: nat) returns (j: nat)
    requires WellLinked(p, l) && Inv(p, l, repeat, s) && t < |p.tasks|
    requires (s.task[t] == LockStart && Working(s.parent)) || (s.task[t] == LockDone && Gathering(s.parent))
             || s.task[t] == UnlockStart || s.task[t] == UnlockDone || s.task[t] == PostReady || s.task[t] == PostDone
    ensures j < |p.tasks| && TaskEnabled(p, s, j)
  {
    j := t;
    if s.task[t] == LockStart && s.start.ByTask? { j := s.start.t; }
    if s.task[t] == LockDone && s.done.ByTask? { j := s.done.t; }
  }

  /** When the parent takes a mutex back, no task is between locking and unlocking it. */
  lemma ParentTakesFreeMutex(p: Program, l: Layout, repeat: nat, s: State)
    requires WellLinked(p, l) && Inv(p, l, repeat, s)
    ensures s.parent.TakeDone? || s.parent.TakeStart? ==> ParentEnabled(p, s)
  {
    forall j | 0 <= j < |p.tasks|
      ensures s.parent.TakeDone? ==> s.task[j] != UnlockDone
      ensures s.parent.TakeStart? ==> s.task[j] != UnlockStart
    {
      assert TaskOk(s, j);
    }
  }

  lemma WaitingParentNotStuck(p: Program, l: Layout, repeat: nat, s: State) returns (j: nat)
    requires WellLinked(p, l) && Inv(p, l, repeat, s)
    requires !ParentEnabled(p, s) && !s.parent.Finished?
    ensures j < |p.tasks| && TaskEnabled(p, s, j)
  {
    ParentTakesFreeMutex(p, l, repeat, s);
    var i := s.parent.i;
    assert TaskOk(s, i);
    if s.parent.WaitReady? {
      j := LockStepEnabled(p, l, repeat, s, i);
    } else if t: nat :| t < |p.tasks| && (s.task[t] == LockStart || s.task[t] == UnlockStart) {
      j := LockStepEnabled(p, l, repeat, s, t);
    } else if s.task[i] == PostDone || !Pending(p, s, i) {
      j := i;
    } else {
      j := SomeAtomEnabled(p, l, repeat, s, i);
    }
  }

  /** Deadlock freedom: in every reachable state somebody can move, until the parent has finished. */
  lemma NeverDeadlocks(p: Program, l: Layout, repeat: nat, run: seq<Actor>, s: State)
    requires WellLinked(p, l) && Reaches(p, repeat, run, s)
    ensures Shape(p, s)
    ensures s.parent == Finished || exists a :: Enabled(p, s, a)
  {
    ReachableInv(p, l, repeat, run, s);
    if s.parent != Finished {
      if ParentEnabled(p, s) {
        assert Enabled(p, s, Parent);
      } else {
        var j := WaitingParentNotStuck(p, l, repeat, s);
        assert Enabled(p, s, Thread(j, 0));
      }
    }
  }

  // Termination: every step advances a counter that has a bound, so every run is finite.

  /** Steps a task makes in one round: three to arrive, its atoms, one to measure, three to leave. */
  function Lap(atoms: nat): nat {
    atoms + 7
  }

  function TaskSteps(atoms: nat, laps: nat, pc: TaskPc): int {
    laps * Lap(atoms) +
    match pc
    case Unborn => 0
    case PostReady => 0
    case LockStart => 1
    case UnlockStart => 2
    case Work(k) => 3 + k
    case PostDone => -3
    case LockDone => -2
    case UnlockDone => -1
  }

  function ParentRound(n: nat): nat {
    5 * n + 7
  }

  function ParentSteps(n: nat, round: nat, pc: ParentPc): int {
    if pc.Create? then pc.i else
    n + 1 + round * ParentRound(n) +
    match pc
    case Repeat => 0
    case Finished => 1
    case ReleaseDone => 1
    case WaitReady(i) => 2 + 2 * i
    case ResetReady(i) => 3 + 2 * i
    case TakeDone => 2 * n + 3
    case ReleaseStart => 2 * n + 4
    case WaitDone(i) => 2 * n + 5 + 3 * i
    case ResetDone(i) => 2 * n + 6 + 3 * i
    case Collect(i) => 2 * n + 7 + 3 * i
    case TakeStart => 5 * n + 6
  }

  ghost function AllTaskSteps(p: Program, s: State, i: nat): int
    requires i <= |p.tasks| <= |s.task| && |p.tasks| <= |s.log|
  {
    if i == 0 then 0
    else AllTaskSteps(p, s, i - 1) + TaskSteps(|p.tasks[i - 1]|, |s.log[i - 1]|, s.task[i - 1])
  }

  ghost function Steps(p: Program, s: State): int
    requires Shape(p, s)
  {
    ParentSteps(|p.tasks|, s.round, s.parent) + AllTaskSteps(p, s, |p.tasks|)
  }

  function TotalAtoms(tasks: seq<seq<Atom>>): nat {
    if tasks == [] then 0 else TotalAtoms(tasks[..|tasks| - 1]) + |tasks[|tasks| - 1]|
  }

  lemma {:induction false} AllTaskStepsFrame(p: Program, s: State, s': State, i: nat, t: nat)
    requires i <= |p.tasks| <= |s.task| && |p.tasks| <= |s.log| && |p.tasks| <= |s'.task| && |p.tasks| <= |s'.log|
    requires forall j | 0 <= j < i && j != t ::
               TaskSteps(|p.tasks[j]|, |s.log[j]|, s.task[j]) == TaskSteps(|p.tasks[j]|, |s'.log[j]|, s'.task[j])
    ensures AllTaskSteps(p, s', i) - AllTaskSteps(p, s, i) ==
            if t < i
            then TaskSteps(|p.tasks[t]|, |s'.log[t]|, s'.task[t]) - TaskSteps(|p.tasks[t]|, |s.log[t]|, s.task[t])
            else 0
  {
    if i > 0 { AllTaskStepsFrame(p, s, s', i - 1, t); }
  }

  lemma NotYetBorn(s: State, i: nat)
    requires i < |s.task| == |s.ready| == |s.workDone| == |s.usage| == |s.log|
    requires s.parent == Create(i) && TaskOk(s, i)
    ensures s.task[i] == Unborn
  {
  }

  lemma ParentStepCounts(p: Program, repeat: nat, s: State)
    requires Shape(p, s) && ParentEnabled(p, s)
    requires forall j | 0 <= j < |p.tasks| :: TaskOk(s, j)
    requires s.parent.Create? ==> s.round == 0
    ensures Shape(p, ParentStep(p, repeat, s)) && Steps(p, ParentStep(p, repeat, s)) == Steps(p, s) + 1
  {
    hide TaskOk, AllTaskSteps;
    ParentKeepsShape(p, repeat, s);
    var s' := ParentStep(p, repeat, s);
    if s.parent.Create? && s.parent.i < |p.tasks| { NotYetBorn(s, s.parent.i); }
    AllTaskStepsFrame(p, s, s', |p.tasks|, |p.tasks|);
    assert (s.round + 1) * ParentRound(|p.tasks|) == s.round * ParentRound(|p.tasks|) + ParentRound(|p.tasks|);
  }

  lemma TaskStepCounts(p: Program, s: State, t: nat, used: nat)
    requires Shape(p, s) && t < |p.tasks| && TaskEnabled(p, s, t)
    ensures Shape(p, TaskStep(p, s, t, used)) && Steps(p, TaskStep(p, s, t, used)) == Steps(p, s) + 1
  {
    TaskKeepsShape(p, s, t, used);
    AllTaskStepsFrame(p, s, TaskStep(p, s, t, used), |p.tasks|, t);
    assert (|s.log[t]| + 1) * Lap(|p.tasks[t]|) == |s.log[t]| * Lap(|p.tasks[t]|) + Lap(|p.tasks[t]|);
  }

  lemma {:induction false} InitSteps(p: Program, i: nat)
    requires i <= |p.tasks|
    ensures AllTaskSteps(p, Init(p), i) == 0
  {
    if i > 0 { InitSteps(p, i - 1); }
  }

  lemma {:induction false} StepsTaken(p: Program, l: Layout, repeat: nat, run: seq<Actor>, s: State)
    requires WellLinked(p, l) && Reaches(p, repeat, run, s)
    ensures Inv(p, l, repeat, s) && |run| == Steps(p, s)
    decreases |run|
  {
    ReachableInv(p, l, repeat, run, s);
    if run == [] {
      InitSteps(p, |p.tasks|);
    } else {
      var a := run[|run| - 1];
      var s0 :| Reaches(p, repeat, run[..|run| - 1], s0) && Shape(p, s0) && Enabled(p, s0, a) &&
        s == Step(p, repeat, s0, a);
      StepsTaken(p, l, repeat, run[..|run| - 1], s0);
      match a
      case Parent => ParentStepCounts(p, repeat, s0);
      case Thread(t, used) => TaskStepCounts(p, s0, t, used);
    }
  }

  function RunBound(p: Program, repeat: nat): nat {
    |p.tasks| + 2 + repeat * ParentRound(|p.tasks|) + repeat * (TotalAtoms(p.tasks) + 7 * |p.tasks|) + |p.tasks|
  }

  lemma {:induction false} TaskStepsBounded(p: Program, s: State, repeat: nat, i: nat)
    requires Shape(p, s) && i <= |p.tasks|
    requires forall j | 0 <= j < |p.tasks| :: TaskOk(s, j)
    requires s.round <= repeat && (s.round == repeat ==> s.parent.Create? || s.parent.Repeat? || s.parent.Finished?)
    ensures AllTaskSteps(p, s, i) <= repeat * (TotalAtoms(p.tasks[..i]) + 7 * i) + i
  {
    if i > 0 {
      TaskStepsBounded(p, s, repeat, i - 1);
      assert p.tasks[..i][..i - 1] == p.tasks[..i - 1];
      var atoms, d := |p.tasks[i - 1]|, |s.log[i - 1]|;
      assert TaskOk(s, i - 1);
      assert TaskSteps(atoms, d, s.task[i - 1]) <= repeat * Lap(atoms) + 1 by {
        Multiples(d, repeat, Lap(atoms));
      }
      Distribute(repeat, TotalAtoms(p.tasks[..i - 1]) + 7 * (i - 1), Lap(atoms));
    }
  }

  lemma {:induction false} Multiples(a: nat, b: nat, c: nat)
    ensures a <= b ==> a * c <= b * c
    ensures a < b ==> a * c + c <= b * c
  {
    if a < b {
      Multiples(a, b - 1, c);
      assert b * c == (b - 1) * c + c;
    }
  }

  lemma Distribute(k: nat, a: nat, b: nat)
    ensures k * (a + b) == k * a + k * b
  {
  }

  lemma ParentStepsBounded(n: nat, round: nat, repeat: nat, pc: ParentPc)
    requires pc.Create? || pc.WaitReady? || pc.WaitDone? || pc.ResetReady? || pc.ResetDone? || pc.Collect? ==> pc.i <= n
    requires pc.ResetReady? || pc.ResetDone? || pc.Collect? ==> pc.i < n
    requires round < repeat || (round == repeat && (pc.Create? || pc.Repeat? || pc.Finished?))
    ensures ParentSteps(n, round, pc) <= n + 2 + repeat * ParentRound(n)
  {
    Multiples(round, repeat, ParentRound(n));
  }

  /** No run is longer than the bound; with NeverDeadlocks, every run can be extended until the parent finishes. */
  lemma RunsAreBounded(p: Program, l: Layout, repeat: nat, run: seq<Actor>, s: State)
    requires WellLinked(p, l) && Reaches(p, repeat, run, s)
    ensures |run| <= RunBound(p, repeat)
  {
    hide WellLinked, Reaches, TaskOk, SemOk, MutexOk, UsageOk, ParentSteps, AllTaskSteps, TotalAtoms, ParentRound;
    StepsTaken(p, l, repeat, run, s);
    TaskStepsBounded(p, s, repeat, |p.tasks|);
    assert p.tasks[..|p.tasks|] == p.tasks;
    ParentStepsBounded(|p.tasks|, s.round, repeat, s.parent);
  }

  lemma {:induction false} RestedSteps(p: Program, s: State, i: nat)
    requires Shape(p, s) && i <= |p.tasks|
    requires forall j | 0 <= j < |p.tasks| :: s.task[j] == LockDone && |s.log[j]| == s.round
    ensures AllTaskSteps(p, s, i) == s.round * (TotalAtoms(p.tasks[..i]) + 7 * i) - 2 * i
  {
    if i > 0 {
      RestedSteps(p, s, i - 1);
      assert p.tasks[..i][..i - 1] == p.tasks[..i - 1];
      Distribute(s.round, TotalAtoms(p.tasks[..i - 1]) + 7 * (i - 1), Lap(|p.tasks[i - 1]|));
    }
  }

  lemma RoundLength(n: nat, round: nat, atoms: nat)
    ensures round * (atoms + 7 * n) + round * ParentRound(n) == round * (atoms + 12 * n + 7)
  {
    Distribute(round, atoms + 7 * n, ParentRound(n));
  }

  lemma StepsBetweenRounds(p: Program, s: State)
    requires Shape(p, s) && s.parent == Repeat && s.round > 0
    requires forall j | 0 <= j < |p.tasks| :: s.task[j] == LockDone && |s.log[j]| == s.round
    ensures Steps(p, s) == 1 - |p.tasks| + s.round * (TotalAtoms(p.tasks) + 12 * |p.tasks| + 7)
  {
    RestedSteps(p, s, |p.tasks|);
    assert p.tasks[..|p.tasks|] == p.tasks;
    RoundLength(|p.tasks|, s.round, TotalAtoms(p.tasks));
  }

  /** Each round takes every atom exactly once: the length of a run up to the end of a round is exact. */
  lemma RoundsAreExact(p: Program, l: Layout, repeat: nat, run: seq<Actor>, s: State)
    requires WellLinked(p, l) && Reaches(p, repeat, run, s)
    requires s.parent == Repeat && s.round > 0
    ensures |run| == 1 - |p.tasks| + s.round * (TotalAtoms(p.tasks) + 12 * |p.tasks| + 7)
  {
    StepsTaken(p, l, repeat, run, s);
    forall j | 0 <= j < |p.tasks| ensures s.task[j] == LockDone && |s.log[j]| == s.round { assert TaskOk(s, j); }
    StepsBetweenRounds(p, s);
  }
}
