/**
 The scheduler replay as data: per-task lists of atoms, some of which share a semaphore.

 A program is `WellLinked` when every semaphore joins exactly one SLEEP to exactly one WAKEUP
 and the atoms admit a rank that grows along each task and from each WAKEUP to its SLEEP.
 Nothing here says how a program is built (ReplayBuild does) or executed (ReplayRun does).
 */
module ReplayProgram {
  import opened Options

  datatype Kind = Run | Sleep | Wakeup | Migration

  datatype Atom = Atom(kind: Kind, timestamp: nat, duration: nat, nr: nat,
                       sem: Option<nat>, specificWait: bool, wakee: Option<nat>)

  datatype Program = Program(tasks: seq<seq<Atom>>, sems: nat)

  /** The position of an atom: a task and an index in that task's list. */
  datatype Loc = Loc(task: nat, index: nat)

  /** Where each semaphore is waited for and posted, and a rank for every atom. */
  datatype Layout = Layout(sleepAt: seq<Loc>, wakeAt: seq<Loc>, rank: seq<seq<nat>>)

  predicate InProgram(tasks: seq<seq<Atom>>, l: Loc) {
    l.task < |tasks| && l.index < |tasks[l.task]|
  }

  function AtomAt(tasks: seq<seq<Atom>>, l: Loc): Atom
    requires InProgram(tasks, l)
  {
    tasks[l.task][l.index]
  }

  predicate SameShape(tasks: seq<seq<Atom>>, rank: seq<seq<nat>>) {
    |rank| == |tasks| && forall j | 0 <= j < |tasks| :: |rank[j]| == |tasks[j]|
  }

  ghost predicate Increasing(r: seq<nat>) {
    forall a, b | 0 <= a < b < |r| :: r[a] < r[b]
  }

  /** Semaphore `s` is waited for by the SLEEP at `sl` and posted by the WAKEUP at `wk`, which ranks lower. */
  predicate Joins(tasks: seq<seq<Atom>>, rank: seq<seq<nat>>, s: nat, sl: Loc, wk: Loc)
    requires SameShape(tasks, rank)
  {
    && InProgram(tasks, sl) && AtomAt(tasks, sl).kind == Sleep && AtomAt(tasks, sl).sem == Some(s)
    && InProgram(tasks, wk) && AtomAt(tasks, wk).kind == Wakeup && AtomAt(tasks, wk).sem == Some(s)
    && rank[wk.task][wk.index] < rank[sl.task][sl.index]
  }

  /** An atom that carries a semaphore is the one SLEEP or the one WAKEUP of that semaphore. */
  predicate Owned(a: Atom, at: Loc, sleepAt: seq<Loc>, wakeAt: seq<Loc>)
    requires |sleepAt| == |wakeAt|
  {
    && (a.specificWait <==> a.kind == Sleep && a.sem.Some?)
    && (a.sem.Some? ==>
          && a.sem.value < |sleepAt|
          && (a.kind == Sleep || a.kind == Wakeup)
          && (a.kind == Sleep ==> sleepAt[a.sem.value] == at)
          && (a.kind == Wakeup ==> wakeAt[a.sem.value] == at))
  }

  ghost predicate WellLinked(p: Program, l: Layout) {
    && SameShape(p.tasks, l.rank)
    && |l.sleepAt| == |l.wakeAt| == p.sems
    && (forall j | 0 <= j < |l.rank| :: Increasing(l.rank[j]))
    && (forall s | 0 <= s < p.sems :: Joins(p.tasks, l.rank, s, l.sleepAt[s], l.wakeAt[s]))
    && (forall j, k | 0 <= j < |p.tasks| && 0 <= k < |p.tasks[j]| ::
          Owned(p.tasks[j][k], Loc(j, k), l.sleepAt, l.wakeAt))
  }
}
