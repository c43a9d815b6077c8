/** Before the latency report is sorted, the threads of one command are merged into one entry. */
module LatencyMerge {
  import opened Sums
  import opened Latency

  // Names are compared as C strings without NULs are.

  function Strcmp(a: string, b: string): int {
    if a == [] then if b == [] then 0 else -1
    else if b == [] then 1
    else if a[0] != b[0] then a[0] as int - b[0] as int
    else Strcmp(a[1..], b[1..])
  }

  lemma {:induction false} StrcmpSigns(a: string, b: string)
    ensures Strcmp(a, b) == 0 <==> a == b
    ensures Strcmp(a, b) < 0 <==> Strcmp(b, a) > 0
  {
    if a != [] && b != [] {
      if a[0] == b[0] {
        StrcmpSigns(a[1..], b[1..]);
        assert a == [a[0]] + a[1..] && b == [b[0]] + b[1..];
      } else {
        assert a[0] as int != b[0] as int;
      }
    }
  }

  lemma {:induction false} StrcmpTransitive(a: string, b: string, c: string)
    requires Strcmp(a, b) >= 0 && Strcmp(b, c) > 0
    ensures Strcmp(a, c) > 0
  {
    if c != [] {
      assert a != [] && b != [];
      if a[0] == b[0] && b[0] == c[0] {
        StrcmpTransitive(a[1..], b[1..], c[1..]);
      } else {
        assert a[0] != b[0] ==> a[0] as int != b[0] as int;
        assert b[0] != c[0] ==> b[0] as int != c[0] as int;
      }
    }
  }

  // Merging.

  /** The second entry goes into the first; its atoms go in front. */
  function MergeInto(a: Atoms, data: Atoms): Atoms {
    var b := a.(numMerged := a.numMerged + 1, totalRuntime := a.totalRuntime + data.totalRuntime,
                nbAtoms := a.nbAtoms + data.nbAtoms, totalLat := a.totalLat + data.totalLat,
                    list := data.list + a.list);
    if a.maxLat < data.maxLat then b.(maxLat := data.maxLat, maxLatAt := data.maxLatAt) else b
  }

  function Counted(data: Atoms): Atoms {
    data.(numMerged := data.numMerged + 1)
  }

  type Comm = int -> string

  function MergeOne(m: map<string, Atoms>, comm: Comm, data: Atoms): map<string, Atoms> {
    m[comm(data.tid) := if comm(data.tid) in m then MergeInto(m[comm(data.tid)], data) else Counted(data)]
  }

  function MergeAll(nodes: seq<Atoms>, comm: Comm): map<string, Atoms> {
    if nodes == [] then map[] else MergeOne(MergeAll(nodes[..|nodes| - 1], comm), comm, nodes[|nodes| - 1])
  }

  /** The entries of a merged tree stay filed under the command of their thread. */
  lemma {:induction false} MergedUnderComm(nodes: seq<Atoms>, comm: Comm, c: string)
    requires c in MergeAll(nodes, comm)
    ensures comm(MergeAll(nodes, comm)[c].tid) == c
  {
    var before, data := nodes[..|nodes| - 1], nodes[|nodes| - 1];
    if c in MergeAll(before, comm) { MergedUnderComm(before, comm, c); }
  }

  // What merging conserves.

  function RuntimeOf(a: Atoms): int { a.totalRuntime }
  function CountOf(a: Atoms): int { a.nbAtoms }
  function LatencyOf(a: Atoms): int { a.totalLat }
  function MergedOf(a: Atoms): int { a.numMerged }

  ghost predicate Additive(f: Atoms -> int) {
    forall a, d: Atoms | d.numMerged == 0 :: f(MergeInto(a, d)) == f(a) + f(Counted(d))
  }

  lemma SumsAreAdditive()
    ensures Additive(RuntimeOf) && Additive(CountOf) && Additive(LatencyOf) && Additive(MergedOf)
  {
  }

  predicate Unmerged(nodes: seq<Atoms>) {
    forall n | n in nodes :: n.numMerged == 0
  }

  /** A measure of the threads of command `c` only. */
  function Within(f: Atoms -> int, comm: Comm, c: string): Atoms -> int {
    (n: Atoms) => if comm(n.tid) == c then f(Counted(n)) else 0
  }

  function CountedBy(f: Atoms -> int): Atoms -> int {
    (n: Atoms) => f(Counted(n))
  }

  predicate Named(nodes: seq<Atoms>, comm: Comm, c: string) {
    exists n | n in nodes :: comm(n.tid) == c
  }

  lemma LastStep(nodes: seq<Atoms>)
    requires nodes != []
    ensures nodes == nodes[..|nodes| - 1] + [nodes[|nodes| - 1]]
    ensures Unmerged(nodes) ==> Unmerged(nodes[..|nodes| - 1]) && nodes[|nodes| - 1].numMerged == 0
  {
    assert nodes[|nodes| - 1] in nodes;
  }

  /** There is an entry for a command exactly when a thread has that name, and it holds the sum over those threads. */
  lemma {:induction false} MergeSums(f: Atoms -> int, nodes: seq<Atoms>, comm: Comm, c: string)
    requires Additive(f) && Unmerged(nodes)
    ensures c in MergeAll(nodes, comm) <==> Named(nodes, comm, c)
    ensures SumOf(Within(f, comm, c), nodes) == if c in MergeAll(nodes, comm) then f(MergeAll(nodes, comm)[c]) else 0
  {
    hide MergeInto, Counted;
    if nodes != [] {
      LastStep(nodes);
      MergeSums(f, nodes[..|nodes| - 1], comm, c);
    }
  }

  /** Over all commands together nothing is lost or counted twice. */
  lemma {:induction false} MergeTotals(f: Atoms -> int, nodes: seq<Atoms>, comm: Comm)
    requires Additive(f) && Unmerged(nodes)
    ensures SumMap(f, MergeAll(nodes, comm)) == SumOf(CountedBy(f), nodes)
  {
    hide MergeInto, Counted;
    if nodes != [] {
      LastStep(nodes);
      var before, data := nodes[..|nodes| - 1], nodes[|nodes| - 1];
      MergeTotals(f, before, comm);
      var m, c := MergeAll(before, comm), comm(data.tid);
      SumMapPut(f, m, c, MergeAll(nodes, comm)[c]);
    }
  }

  lemma {:induction false} OnePerThread(nodes: seq<Atoms>)
    requires Unmerged(nodes)
    ensures SumOf(CountedBy(MergedOf), nodes) == |nodes|
  {
    if nodes != [] {
      LastStep(nodes);
      OnePerThread(nodes[..|nodes| - 1]);
      assert MergedOf(Counted(nodes[|nodes| - 1])) == 1;
    }
  }

  /** Every thread is counted in exactly one entry. */
  lemma ThreadsCountedOnce(nodes: seq<Atoms>, comm: Comm)
    requires Unmerged(nodes)
    ensures SumMap(MergedOf, MergeAll(nodes, comm)) == |nodes|
  {
    SumsAreAdditive();
    MergeTotals(MergedOf, nodes, comm);
    OnePerThread(nodes);
  }

  /** The atoms of the threads of a command, those of the last thread first. */
  function Spliced(nodes: seq<Atoms>, comm: Comm, c: string): seq<Atom> {
    if nodes == [] then []
    else
      var data := nodes[|nodes| - 1];
      (if comm(data.tid) == c then data.list else []) + Spliced(nodes[..|nodes| - 1], comm, c)
  }

  lemma {:induction false} MergedAtoms(nodes: seq<Atoms>, comm: Comm, c: string)
    ensures (if c in MergeAll(nodes, comm) then MergeAll(nodes, comm)[c].list else []) == Spliced(nodes, comm, c)
  {
    if nodes != [] { MergedAtoms(nodes[..|nodes| - 1], comm, c); }
  }

  /** The maximum of an entry is the maximum of its threads, with the time that goes with it. */
  lemma {:induction false} MergeMax(nodes: seq<Atoms>, comm: Comm, c: string)
    requires c in MergeAll(nodes, comm)
    ensures forall n | n in nodes && comm(n.tid) == c :: n.maxLat <= MergeAll(nodes, comm)[c].maxLat
    ensures exists n | n in nodes && comm(n.tid) == c ::
              n.maxLat == MergeAll(nodes, comm)[c].maxLat && n.maxLatAt == MergeAll(nodes, comm)[c].maxLatAt
  {
    var before, data := nodes[..|nodes| - 1], nodes[|nodes| - 1];
    LastStep(nodes);
    var m, merged := MergeAll(before, comm), MergeAll(nodes, comm)[c];
    if c in m {
      MergeMax(before, comm, c);
      var n :| n in before && comm(n.tid) == c && n.maxLat == m[c].maxLat && n.maxLatAt == m[c].maxLatAt;
      assert n in nodes && data in nodes;
      assert comm(data.tid) == c && m[c].maxLat < data.maxLat ==> merged.maxLat == data.maxLat;
    } else {
      assert data in nodes && merged == Counted(data);
      NoneNamed(before, comm, c);
    }
  }

  lemma {:induction false} NoneNamed(nodes: seq<Atoms>, comm: Comm, c: string)
    requires c !in MergeAll(nodes, comm)
    ensures !Named(nodes, comm, c)
  {
    if nodes != [] {
      LastStep(nodes);
      NoneNamed(nodes[..|nodes| - 1], comm, c);
    }
  }

  /** The numbers of an entry still fit the atoms spliced together. */
  lemma MergeIntoOk(a: Atoms, data: Atoms)
    requires AtomsOk(a) && AtomsOk(data)
    ensures AtomsOk(MergeInto(a, data))
  {
    hide SumOf, MaxOk, MergeInto;
    SplicedSumsOk(a, data);
    SplicedMaxOk(a, data);
    SplicedTimesOk(a, data);
  }

  lemma SplicedSumsOk(a: Atoms, data: Atoms)
    requires SumsOk(a) && SumsOk(data)
    ensures SumsOk(MergeInto(a, data))
  {
    hide SumOf;
    SumConcat(IsIn, data.list, a.list);
    SumConcat(LatOf, data.list, a.list);
    SumConcat(RunOf, data.list, a.list);
  }

  lemma SplicedTimesOk(a: Atoms, data: Atoms)
    requires TimesOk(a) && TimesOk(data)
    ensures TimesOk(MergeInto(a, data))
  {
  }

  lemma SplicedMaxOk(a: Atoms, data: Atoms)
    requires MaxOk(a) && MaxOk(data)
    ensures MaxOk(MergeInto(a, data))
  {
    var l := data.list + a.list;
    forall i | 0 <= i < |l| ensures LatOf(l[i]) <= Max2(a.maxLat, data.maxLat) {
      if i < |data.list| { assert l[i] == data.list[i]; } else { assert l[i] == a.list[i - |data.list|]; }
    }
    if a.maxLat < data.maxLat {
      var i :| 0 <= i < |data.list| && LatOf(data.list[i]) == data.maxLat && data.list[i].inTime == data.maxLatAt;
      assert l[i] == data.list[i];
    } else if a.maxLat > 0 {
      var i :| 0 <= i < |a.list| && LatOf(a.list[i]) == a.maxLat && a.list[i].inTime == a.maxLatAt;
      assert l[|data.list| + i] == a.list[i];
    }
  }

  function Max2(a: nat, b: nat): nat { if a < b then b else a }

  lemma {:induction false} MergedOk(nodes: seq<Atoms>, comm: Comm, c: string)
    requires c in MergeAll(nodes, comm) && forall n | n in nodes :: AtomsOk(n)
    ensures AtomsOk(MergeAll(nodes, comm)[c])
  {
    hide AtomsOk, MergeInto;
    var before, data := nodes[..|nodes| - 1], nodes[|nodes| - 1];
    LastStep(nodes);
    assert data in nodes;
    if c in MergeAll(before, comm) {
      MergedOk(before, comm, c);
      MergeIntoOk(MergeAll(before, comm)[c], data);
    }
    CountedOk(data);
  }

  lemma CountedOk(data: Atoms)
    requires AtomsOk(data)
    ensures AtomsOk(Counted(data))
  {
  }
}
