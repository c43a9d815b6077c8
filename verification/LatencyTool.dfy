/** The latency handlers on the tree of threads, which is kept in descending order of thread id. */
module LatencyTool {
  import opened RbTree
  import opened Latency

  const MAX_CPUS := 4096

  function TidOf(a: Atoms): int { a.tid }

  predicate Descending(nodes: seq<Atoms>) {
    forall i, j | 0 <= i < j < |nodes| :: nodes[i].tid > nodes[j].tid
  }

  /** A key greater than the node's is to the left. */
  function SideOf(tid: int): Atoms -> int {
    (n: Atoms) => n.tid - tid
  }

  function LeftOf(tid: int): Atoms -> bool {
    (n: Atoms) => tid > n.tid
  }

  lemma NotInTree(nodes: seq<Atoms>, tid: int)
    requires DistinctKeys(nodes, TidOf) && tid !in ToMap(nodes, TidOf)
    ensures forall i | 0 <= i < |nodes| :: TidOf(nodes[i]) != tid
  {
    assert forall i | 0 <= i < |nodes| :: nodes[i] in nodes;
  }

  lemma DescendingSides(nodes: seq<Atoms>, tid: int)
    requires Descending(nodes)
    ensures forall i, j | 0 <= i < j < |nodes| :: LeftOf(tid)(nodes[i]) ==> LeftOf(tid)(nodes[j])
  {
  }

  lemma DescendingInsert(nodes: seq<Atoms>, pos: nat, n: Atoms)
    requires Descending(nodes) && pos <= |nodes|
    requires forall i | 0 <= i < |nodes| :: TidOf(nodes[i]) != n.tid
    requires forall i | 0 <= i < pos :: !LeftOf(n.tid)(nodes[i])
    requires forall i | pos <= i < |nodes| :: LeftOf(n.tid)(nodes[i])
    ensures Descending(InsertAt(nodes, pos, n))
  {
    var r := InsertAt(nodes, pos, n);
    assert forall i | 0 <= i < |r| :: r[i] == if i < pos then nodes[i] else if i == pos then n else nodes[i - 1];
  }

  class LatencySched {
    var atomRoot: seq<Atoms>
    const cpuLastSwitched: array<nat>
    var timestamps: nat
    var unordered: nat

    ghost predicate Valid()
      reads this
    {
      Descending(atomRoot) && DistinctKeys(atomRoot, TidOf) && cpuLastSwitched.Length == MAX_CPUS
    }

    ghost function Threads(): map<int, Atoms>
      requires Valid()
      reads this
    {
      ToMap(atomRoot, TidOf)
    }

    ghost function Switched(): (m: map<nat, nat>)
      requires Valid()
      reads this, cpuLastSwitched
      ensures forall c: nat :: c in m <==> c < MAX_CPUS && cpuLastSwitched[c] != 0
      ensures forall c: nat | c in m :: m[c] == cpuLastSwitched[c]
    {
      map c: nat | 0 <= c < MAX_CPUS && cpuLastSwitched[c] != 0 :: cpuLastSwitched[c]
    }

    ghost function State(): Sched
      requires Valid()
      reads this, cpuLastSwitched
    {
      Sched(Threads(), Switched(), timestamps, unordered)
    }

    constructor ()
      ensures Valid() && fresh(cpuLastSwitched) && State() == Empty()
    {
      atomRoot, timestamps, unordered := [], 0, 0;
      cpuLastSwitched := new nat[MAX_CPUS](_ => 0);
    }

    method ThreadAtomsSearch(tid: int) returns (found: bool, pos: nat)
      requires Valid()
      ensures found <==> tid in Threads()
      ensures found ==> pos < |atomRoot| && atomRoot[pos].tid == tid && atomRoot[pos] == Threads()[tid]
    {
      hide ToMap;
      found, pos := Walk(atomRoot, SideOf(tid));
      if found {
        assert atomRoot[pos] in atomRoot;
      }
    }

    method ThreadAtomsInsert(tid: int)
      requires Valid() && tid !in Threads()
      modifies `atomRoot
      ensures Valid() && Threads() == old(Threads())[tid := Fresh(tid)]
    {
      hide Descending, DistinctKeys, ToMap;
      NotInTree(atomRoot, tid);
      var pos := Descend(atomRoot, LeftOf(tid)) by { DescendingSides(atomRoot, tid); }
      DescendingInsert(atomRoot, pos, Fresh(tid));
      ToMapInsert(atomRoot, TidOf, pos, Fresh(tid));
      atomRoot := InsertAt(atomRoot, pos, Fresh(tid));
    }

    /** Search, and if the thread is new insert it and search again: the second search cannot fail. */
    method FindNewAtoms(tid: int) returns (pos: nat, isNew: bool)
      requires Valid()
      modifies `atomRoot
      ensures Valid() && pos < |atomRoot| && atomRoot[pos].tid == tid
      ensures isNew <==> tid !in old(Threads())
      ensures atomRoot[pos] == Get(old(Threads()), tid, Fresh(tid))
      ensures Threads() == old(Threads())[tid := atomRoot[pos]]
    {
      hide Descending, DistinctKeys, ToMap;
      var found;
      found, pos := ThreadAtomsSearch(tid);
      isNew := !found;
      if isNew {
        ThreadAtomsInsert(tid);
        found, pos := ThreadAtomsSearch(tid);
        assert found;
      } else {
        assert Threads() == Threads()[tid := atomRoot[pos]];
      }
    }

    method Put(pos: nat, a: Atoms)
      requires Valid() && pos < |atomRoot| && a.tid == atomRoot[pos].tid
      modifies `atomRoot
      ensures Valid() && |atomRoot| == |old(atomRoot)| && atomRoot[pos] == a
      ensures Threads() == old(Threads())[a.tid := a]
    {
      hide ToMap;
      ToMapUpdate(atomRoot, TidOf, pos, a);
      atomRoot := atomRoot[pos := a];
    }

    method SwitchEvent(e: Event) returns (err: bool)
      requires Valid() && Inv(State()) && e.Switch? && e.cpu < MAX_CPUS && e.time > 0
      modifies this, cpuLastSwitched
      ensures Valid() && State() == Step(old(State()), e)
      ensures err <==> Backwards(old(State()), e)
    {
      hide Descending, DistinctKeys, ToMap, AtomsOk, SchedOutState, AddSchedOut, AddSchedIn;
      ghost var s := State();
      var timestamp0 := cpuLastSwitched[e.cpu];
      assert timestamp0 == Get(s.lastSwitched, e.cpu, 0);
      cpuLastSwitched[e.cpu] := e.time;
      assert Switched() == s.lastSwitched[e.cpu := e.time];
      if timestamp0 != 0 && e.time < timestamp0 {
        return true;
      }
      SwitchOut(e);
      SwitchIn(e);
      return false;
    }

    method SwitchOut(e: Event)
      requires Valid() && e.Switch?
      modifies `atomRoot
      ensures Valid() && State() == SwitchedOut(old(State()), e)
    {
      hide Descending, DistinctKeys, ToMap, SchedOutState;
      ghost var threads := Threads();
      var pos, _ := FindNewAtoms(e.prev);
      var a := AddSchedOut(atomRoot[pos], SchedOutState(e.prevState, e.beyond), e.time);
      Put(pos, a);
      assert threads[e.prev := AtomsOf(old(State()), e.prev)][e.prev := a] == threads[e.prev := a];
    }

    /** The search for a thread, with a first atom for one not heard of yet. */
    method Start(tid: int, runState: char, time: nat) returns (pos: nat)
      requires Valid()
      modifies `atomRoot
      ensures Valid() && pos < |atomRoot| && atomRoot[pos].tid == tid
      ensures atomRoot[pos] == Started(old(State()), tid, runState, time)
      ensures Threads() == old(Threads())[tid := atomRoot[pos]]
    {
      hide Descending, DistinctKeys, ToMap, AddSchedOut;
      ghost var threads := Threads();
      var isNew;
      pos, isNew := FindNewAtoms(tid);
      if isNew {
        OutExtends(atomRoot[pos], runState, time);
        var a := AddSchedOut(atomRoot[pos], runState, time);
        Put(pos, a);
        assert threads[tid := Fresh(tid)][tid := a] == threads[tid := a];
      }
    }

    method SwitchIn(e: Event)
      requires Valid() && e.Switch?
      modifies `atomRoot
      ensures Valid() && State() == SwitchedIn(old(State()), e)
    {
      hide Descending, DistinctKeys, ToMap, Started, AddSchedIn;
      InExtends(Started(State(), e.next, 'R', e.time), e.time);
      ghost var threads := Threads();
      var pos := Start(e.next, 'R', e.time);
      ghost var started := atomRoot[pos];
      var a := AddSchedIn(atomRoot[pos], e.time);
      Put(pos, a);
      assert threads[e.next := started][e.next := a] == threads[e.next := a];
    }

    method RuntimeEvent(e: Event)
      requires Valid() && Inv(State()) && e.Runtime?
      modifies `atomRoot
      ensures Valid() && State() == Step(old(State()), e)
    {
      hide Descending, DistinctKeys, ToMap, AtomsOk;
      ghost var threads := Threads();
      var pos := Start(e.pid, 'R', e.time);
      ghost var started := atomRoot[pos];
      var a := AddRuntime(atomRoot[pos], e.runtime);
      Put(pos, a);
      assert threads[e.pid := started][e.pid := a] == threads[e.pid := a];
    }

    method WakeupEvent(e: Event)
      requires Valid() && Inv(State()) && e.Wakeup?
      modifies this
      ensures Valid() && State() == Step(old(State()), e)
    {
      hide Descending, DistinctKeys, ToMap, AtomsOk;
      ghost var threads := Threads();
      var pos := Start(e.pid, 'S', e.time);
      var a := atomRoot[pos];
      var atom := Last(a);
      if atom.state.Sleeping? {
        timestamps := timestamps + 1;
        if atom.outTime > e.time {
          unordered := unordered + 1;
        } else {
          Put(pos, SetLast(a, atom.(state := WaitCpu, wakeTime := e.time)));
          assert threads[e.pid := a][e.pid := atomRoot[pos]] == threads[e.pid := atomRoot[pos]];
        }
      }
    }
  }
}
