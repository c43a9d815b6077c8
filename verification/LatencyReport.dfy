/** The latency report: merge the threads by command, then sort what is left. */
module LatencyReport {
  import opened RbTree
  import opened Latency
  import opened LatencyMerge
  import opened LatencySort

  function CommOf(comm: Comm): Atoms -> string {
    (a: Atoms) => comm(a.tid)
  }

  /** The merged tree is in descending order of names. */
  predicate DescendingNames(nodes: seq<Atoms>, comm: Comm) {
    forall i, j | 0 <= i < j < |nodes| :: Strcmp(comm(nodes[i].tid), comm(nodes[j].tid)) > 0
  }

  function NameSide(comm: Comm, name: string): Atoms -> int {
    (n: Atoms) => -Strcmp(name, comm(n.tid))
  }

  lemma NamesOrdered(nodes: seq<Atoms>, comm: Comm, name: string)
    requires DescendingNames(nodes, comm)
    ensures DistinctKeys(nodes, CommOf(comm))
    ensures Matches(nodes, CommOf(comm), NameSide(comm, name), name)
  {
    forall i, j | 0 <= i < j < |nodes| ensures comm(nodes[i].tid) != comm(nodes[j].tid) {
      StrcmpSigns(comm(nodes[i].tid), comm(nodes[j].tid));
    }
    forall i, j | 0 <= i < j < |nodes| && NameSide(comm, name)(nodes[i]) <= 0
      ensures NameSide(comm, name)(nodes[j]) < 0
    {
      StrcmpTransitive(name, comm(nodes[i].tid), comm(nodes[j].tid));
    }
    forall i | 0 <= i < |nodes| ensures NameSide(comm, name)(nodes[i]) == 0 <==> comm(nodes[i].tid) == name {
      StrcmpSigns(name, comm(nodes[i].tid));
    }
  }

  lemma NamesInserted(nodes: seq<Atoms>, comm: Comm, pos: nat, data: Atoms)
    requires DescendingNames(nodes, comm) && pos <= |nodes|
    requires forall i | 0 <= i < pos :: NameSide(comm, comm(data.tid))(nodes[i]) > 0
    requires forall i | pos <= i < |nodes| :: NameSide(comm, comm(data.tid))(nodes[i]) < 0
    ensures DescendingNames(InsertAt(nodes, pos, data), comm)
  {
    var r := InsertAt(nodes, pos, data);
    assert forall i | 0 <= i < |r| :: r[i] == if i < pos then nodes[i] else if i == pos then data else nodes[i - 1];
    forall i | 0 <= i < pos ensures Strcmp(comm(nodes[i].tid), comm(data.tid)) > 0 {
      StrcmpSigns(comm(data.tid), comm(nodes[i].tid));
    }
  }

  class Report {
    const comm: Comm
    const sortList: seq<Key>
    const skipMerge: bool
    var atomRoot: seq<Atoms>
    var mergedRoot: seq<Atoms>
    var sortedRoot: seq<Atoms>

    ghost predicate Valid()
      reads this
    {
      && sortList != []
      && DescendingNames(mergedRoot, comm) && DistinctKeys(mergedRoot, CommOf(comm))
      && Sorted(sortList, sortedRoot)
    }

    ghost function Merged(): map<string, Atoms>
      requires Valid()
      reads this
    {
      ToMap(mergedRoot, CommOf(comm))
    }

    constructor (comm: Comm, keys: seq<Key>, skipMerge: bool, threads: seq<Atoms>)
      requires keys != []
      ensures Valid() && this.comm == comm && sortList == keys && this.skipMerge == skipMerge
      ensures atomRoot == threads && mergedRoot == [] && sortedRoot == []
    {
      this.comm, sortList, this.skipMerge := comm, keys, skipMerge;
      atomRoot, mergedRoot, sortedRoot := threads, [], [];
    }

    method MergeWorkAtoms(data: Atoms)
      requires Valid()
      modifies `mergedRoot
      ensures Valid() && Merged() == MergeOne(old(Merged()), comm, data)
    {
      hide DescendingNames, DistinctKeys, ToMap, MergeInto, Strcmp;
      var name := comm(data.tid);
      NamesOrdered(mergedRoot, comm, name);
      var found, pos := Walk(mergedRoot, NameSide(comm, name));
      if found {
        var this_ := mergedRoot[pos];
        assert this_ in mergedRoot && comm(this_.tid) == name;
        MergeKeepsTid(this_, data);
        ToMapUpdate(mergedRoot, CommOf(comm), pos, MergeInto(this_, data));
        NamesUpdated(mergedRoot, comm, pos, MergeInto(this_, data));
        mergedRoot := mergedRoot[pos := MergeInto(this_, data)];
      } else {
        NotNamed(mergedRoot, comm, name, pos);
        ToMapInsert(mergedRoot, CommOf(comm), pos, Counted(data));
        NamesInserted(mergedRoot, comm, pos, Counted(data));
        mergedRoot := InsertAt(mergedRoot, pos, Counted(data));
      }
    }

    /** Afterwards the merged tree has one entry for each command. */
    method MergeLat()
      requires Valid() && mergedRoot == []
      modifies `atomRoot, `mergedRoot
      ensures Valid()
      ensures skipMerge ==> atomRoot == old(atomRoot) && mergedRoot == []
      ensures !skipMerge ==> atomRoot == [] && Merged() == MergeAll(old(atomRoot), comm)
    {
      hide DescendingNames, DistinctKeys, MergeOne;
      if skipMerge {
        return;
      }
      ghost var all := atomRoot;
      ghost var n := 0;
      while atomRoot != []
        invariant Valid() && n <= |all| && atomRoot == all[n..]
        invariant Merged() == MergeAll(all[..n], comm)
        decreases |atomRoot|
      {
        var data := atomRoot[0];
        atomRoot := atomRoot[1..];
        MergeWorkAtoms(data);
        assert all[..n + 1][..n] == all[..n] && all[..n + 1][n] == data;
        n := n + 1;
      }
      assert all[..n] == all;
    }

    /** Both trees end up in the sorted one; the report is a permutation of their entries in descending order. */
    method SortLat()
      requires Valid()
      modifies this
      ensures Valid() && atomRoot == [] && mergedRoot == []
      ensures multiset(sortedRoot) == multiset(old(sortedRoot)) + multiset(old(atomRoot)) + multiset(old(mergedRoot))
    {
      hide DescendingNames, DistinctKeys, Sorted, LatCmp;
      sortedRoot := EmptyInto(sortList, atomRoot, sortedRoot);
      atomRoot := [];
      sortedRoot := EmptyInto(sortList, mergedRoot, sortedRoot);
      NoNames(comm);
      mergedRoot := [];
    }
  }

  /** The entries of one tree, first to last, are inserted into the sorted one. */
  method EmptyInto(keys: seq<Key>, nodes: seq<Atoms>, sorted: seq<Atoms>) returns (r: seq<Atoms>)
    requires keys != [] && Sorted(keys, sorted)
    ensures Sorted(keys, r) && multiset(r) == multiset(sorted) + multiset(nodes)
  {
    hide Sorted, LatCmp;
    r := sorted;
    var root := nodes;
    while root != []
      invariant Sorted(keys, r) && multiset(r) + multiset(root) == multiset(sorted) + multiset(nodes)
      decreases |root|
    {
      assert root == [root[0]] + root[1..];
      r := ThreadLatencyInsert(keys, r, root[0]);
      root := root[1..];
    }
  }

  lemma NoNames(comm: Comm)
    ensures DescendingNames([], comm) && DistinctKeys([], CommOf(comm))
  {
  }

  lemma MergeKeepsTid(a: Atoms, data: Atoms)
    ensures MergeInto(a, data).tid == a.tid
  {
  }

  lemma NamesUpdated(nodes: seq<Atoms>, comm: Comm, pos: nat, n: Atoms)
    requires DescendingNames(nodes, comm) && pos < |nodes| && n.tid == nodes[pos].tid
    ensures DescendingNames(nodes[pos := n], comm)
  {
    hide Strcmp;
  }

  lemma NotNamed(nodes: seq<Atoms>, comm: Comm, name: string, pos: nat)
    requires DistinctKeys(nodes, CommOf(comm)) && Matches(nodes, CommOf(comm), NameSide(comm, name), name) &&
        pos <= |nodes|
    requires forall i | 0 <= i < pos :: NameSide(comm, name)(nodes[i]) > 0
    requires forall i | pos <= i < |nodes| :: NameSide(comm, name)(nodes[i]) < 0
    ensures forall i | 0 <= i < |nodes| :: CommOf(comm)(nodes[i]) != name
    ensures name !in ToMap(nodes, CommOf(comm))
  {
    hide ToMap;
  }
}
