/** The merged latency report against the trace. */
module LatencyTotals {
  import opened Sums
  import opened RbTree
  import opened Latency
  import opened LatencyTool
  import opened LatencyMerge

  predicate NoneMerged(s: Sched) {
    forall tid | tid in s.threads :: s.threads[tid].numMerged == 0
  }

  lemma StepUnmerged(s: Sched, e: Event)
    requires Latency.Inv(s) && NoneMerged(s)
    ensures NoneMerged(Step(s, e))
  {
    hide AtomsOk;
  }

  /** No handler merges: the threads of every trace come unmerged to the report. */
  lemma {:induction false} RunUnmerged(trace: seq<Event>)
    ensures NoneMerged(Run(trace))
  {
    hide Step, Latency.Inv;
    if trace != [] {
      RunUnmerged(trace[..|trace| - 1]);
      StepUnmerged(Run(trace[..|trace| - 1]), trace[|trace| - 1]);
    }
  }

  /** The run time that an event reports for the threads of a command. */
  function RuntimeIn(comm: Comm, c: string): Event -> int {
    (e: Event) => if e.Runtime? && comm(e.pid) == c then e.runtime else 0
  }

  /** Storing a thread under its own number changes the sum by what its run time grew. */
  lemma PutRuntime(m: map<int, Atoms>, comm: Comm, c: string, a: Atoms)
    requires forall tid | tid in m :: m[tid].tid == tid
    ensures var f := Within(RuntimeOf, comm, c);
            SumMap(f, m[a.tid := a]) == SumMap(f, m) +
              if comm(a.tid) == c then a.totalRuntime - Get(m, a.tid, Fresh(a.tid)).totalRuntime else 0
  {
    hide SumMap;
    SumMapPut(Within(RuntimeOf, comm, c), m, a.tid, a);
  }

  lemma SwitchRuntime(s: Sched, e: Event, comm: Comm, c: string)
    requires Latency.Inv(s) && e.Switch?
    ensures var f := Within(RuntimeOf, comm, c);
            && SumMap(f, SwitchedOut(s, e).threads) == SumMap(f, s.threads)
            && SumMap(f, SwitchedIn(s, e).threads) == SumMap(f, s.threads)
  {
    hide SumMap, AtomsOk, Within, SchedOutState;
    PutRuntime(s.threads, comm, c, SwitchedOut(s, e).threads[e.prev]);
    PutRuntime(s.threads, comm, c, SwitchedIn(s, e).threads[e.next]);
  }

  lemma StepRuntimes(s: Sched, e: Event, comm: Comm, c: string)
    requires Latency.Inv(s)
    ensures var f := Within(RuntimeOf, comm, c);
            SumMap(f, Step(s, e).threads) == SumMap(f, s.threads) + RuntimeIn(comm, c)(e)
  {
    hide SumMap, AtomsOk, Within, SwitchedOut, SwitchedIn;
    match e
    case Switch(cpu, _, _, _, _, time) =>
      var s' := s.(lastSwitched := s.lastSwitched[cpu := time]);
      SwitchKeeps(s', e);
      SwitchRuntime(s', e, comm, c);
      SwitchRuntime(SwitchedOut(s', e), e, comm, c);
    case Runtime(pid, _, _) =>
      PutRuntime(s.threads, comm, c, Step(s, e).threads[pid]);
    case Wakeup(pid, _) =>
      PutRuntime(s.threads, comm, c, Step(s, e).threads[pid]);
  }

  lemma {:induction false} ThreadRuntimes(trace: seq<Event>, comm: Comm, c: string)
    ensures SumMap(Within(RuntimeOf, comm, c), Run(trace).threads) == SumOf(RuntimeIn(comm, c), trace)
  {
    hide Step, Latency.Inv, Within;
    if trace != [] {
      ThreadRuntimes(trace[..|trace| - 1], comm, c);
      StepRuntimes(Run(trace[..|trace| - 1]), trace[|trace| - 1], comm, c);
    }
  }

  lemma {:induction false} SumTree(f: Atoms -> int, nodes: seq<Atoms>)
    requires DistinctKeys(nodes, TidOf)
    ensures SumOf(f, nodes) == SumMap(f, ToMap(nodes, TidOf))
  {
    hide ToMap, SumMap;
    if nodes == [] {
      ToMapIs(nodes, TidOf, map[]);
      NoSum(f);
    } else {
      var before, n := nodes[..|nodes| - 1], nodes[|nodes| - 1];
      SumTree(f, before);
      assert InsertAt(before, |before|, n) == nodes;
      ToMapInsert(before, TidOf, |before|, n);
      assert TidOf(n) !in ToMap(before, TidOf);
      SumMapPut(f, ToMap(before, TidOf), TidOf(n), n);
    }
  }

  lemma NoSum(f: Atoms -> int)
    ensures SumMap<int, Atoms>(f, map[]) == 0
  {
  }

  /**
   For every trace and every tree of its threads: the merged report has an entry for a command exactly when
   an accepted event names a thread of it, and its run time is the sum of what the trace reports for them.
   */
  lemma MergedRuntime(trace: seq<Event>, nodes: seq<Atoms>, comm: Comm, c: string)
    requires DistinctKeys(nodes, TidOf) && ToMap(nodes, TidOf) == Run(trace).threads
    ensures Unmerged(nodes)
    ensures c in MergeAll(nodes, comm) <==> exists tid :: HeardOf(trace, tid) && comm(tid) == c
    ensures (if c in MergeAll(nodes, comm) then MergeAll(nodes, comm)[c].totalRuntime else 0) ==
            SumOf(RuntimeIn(comm, c), trace)
  {
    hide Run, ToMap, MergeAll, SumOf, SumMap, Latency.Inv, HeardOf, Within;
    RunUnmerged(trace);
    assert forall n | n in nodes :: TidOf(n) in Run(trace).threads && Run(trace).threads[TidOf(n)] == n;
    SumsAreAdditive();
    MergeSums(RuntimeOf, nodes, comm, c);
    SumTree(Within(RuntimeOf, comm, c), nodes);
    ThreadRuntimes(trace, comm, c);
    forall tid ensures tid in Run(trace).threads <==> HeardOf(trace, tid) {
      AtomsCounted(trace, tid);
    }
    if tid :| HeardOf(trace, tid) && comm(tid) == c {
      assert Run(trace).threads[tid] in nodes;
    }
  }
}
