/** The replay from trace to the last round: what holds for every trace, every repeat count and every interleaving. */
module ReplayTheorems {
  import opened ReplayBuild
  import ReplayRun

  /** No trace makes the replay deadlock: until the parent has finished, some thread can move. */
  lemma ReplayNeverDeadlocks(trace: seq<Event>, repeat: nat, run: seq<ReplayRun.Actor>, s: ReplayRun.State)
    requires ReplayRun.Reaches(BuiltProgram(trace), repeat, run, s)
    ensures ReplayRun.Shape(BuiltProgram(trace), s)
    ensures s.parent == ReplayRun.Finished || exists a :: ReplayRun.Enabled(BuiltProgram(trace), s, a)
  {
    var l := BuiltProgramWellLinked(trace);
    ReplayRun.NeverDeadlocks(BuiltProgram(trace), l, repeat, run, s);
  }

  /** No interleaving runs on forever: every run has at most RunBound steps. */
  lemma ReplayTerminates(trace: seq<Event>, repeat: nat, run: seq<ReplayRun.Actor>, s: ReplayRun.State)
    requires ReplayRun.Reaches(BuiltProgram(trace), repeat, run, s)
    ensures |run| <= ReplayRun.RunBound(BuiltProgram(trace), repeat)
  {
    var l := BuiltProgramWellLinked(trace);
    ReplayRun.RunsAreBounded(BuiltProgram(trace), l, repeat, run, s);
  }

  /** Between rounds every linked semaphore is back at 0, so each repeat starts from the same state. */
  lemma ReplayRepeatsFromZero(trace: seq<Event>, repeat: nat, run: seq<ReplayRun.Actor>, s: ReplayRun.State)
    requires ReplayRun.Reaches(BuiltProgram(trace), repeat, run, s)
    ensures forall k | 0 <= k < |s.wait| :: s.wait[k] <= 1
    ensures s.parent == ReplayRun.Repeat ==> forall k | 0 <= k < |s.wait| :: s.wait[k] == 0
  {
    var l := BuiltProgramWellLinked(trace);
    ReplayRun.ReachableInv(BuiltProgram(trace), l, repeat, run, s);
    forall k | 0 <= k < |s.wait| ensures s.wait[k] <= 1 && (s.parent == ReplayRun.Repeat ==> s.wait[k] == 0) {
      ReplayRun.SemaphoresBinary(BuiltProgram(trace), l, repeat, run, s, k);
    }
  }
}
