/**
 Walking a red-black tree of any shape.

 A tree is given by its nodes in order. Each subtree is an interval of that sequence and its root
 is some node of the interval, so a walk narrows an interval around an arbitrary pivot: what is
 proved here holds however the tree is balanced. A new node goes in as a leaf, where the walk ended.
 */
module RbTree {

  /** `side(n)` compares the key looked for with node `n`: below 0 it is to the left, above 0 to the right. */
  ghost predicate Ordered<T(!new)>(nodes: seq<T>, side: T -> int) {
    forall i, j | 0 <= i < j < |nodes| :: side(nodes[i]) <= 0 ==> side(nodes[j]) < 0
  }

  /** A search finds the node with the key, or the place between the smaller and the larger nodes. */
  method Walk<T(!new)>(nodes: seq<T>, side: T -> int) returns (found: bool, pos: nat)
    requires Ordered(nodes, side)
    ensures found ==> pos < |nodes| && side(nodes[pos]) == 0
    ensures !found ==> pos <= |nodes|
    ensures !found ==> forall i | 0 <= i < pos :: side(nodes[i]) > 0
    ensures !found ==> forall i | pos <= i < |nodes| :: side(nodes[i]) < 0
  {
    var lo, hi := 0, |nodes|;
    while lo < hi
      invariant 0 <= lo <= hi <= |nodes|
      invariant forall i | 0 <= i < lo :: side(nodes[i]) > 0
      invariant forall i | hi <= i < |nodes| :: side(nodes[i]) < 0
    {
      var root: nat :| lo <= root < hi;
      if side(nodes[root]) < 0 {
        hi := root;
      } else if side(nodes[root]) > 0 {
        lo := root + 1;
      } else {
        return true, root;
      }
    }
    return false, lo;
  }

  /** An insertion that never stops at an equal node ends before exactly the nodes it went left of. */
  method Descend<T(!new)>(nodes: seq<T>, left: T -> bool) returns (pos: nat)
    requires forall i, j | 0 <= i < j < |nodes| :: left(nodes[i]) ==> left(nodes[j])
    ensures pos <= |nodes|
    ensures forall i | 0 <= i < pos :: !left(nodes[i])
    ensures forall i | pos <= i < |nodes| :: left(nodes[i])
  {
    var lo, hi := 0, |nodes|;
    while lo < hi
      invariant 0 <= lo <= hi <= |nodes|
      invariant forall i | 0 <= i < lo :: !left(nodes[i])
      invariant forall i | hi <= i < |nodes| :: left(nodes[i])
    {
      var root: nat :| lo <= root < hi;
      if left(nodes[root]) {
        hi := root;
      } else {
        lo := root + 1;
      }
    }
    return lo;
  }

  function InsertAt<T>(nodes: seq<T>, pos: nat, n: T): (r: seq<T>)
    requires pos <= |nodes|
    ensures |r| == |nodes| + 1
  {
    nodes[..pos] + [n] + nodes[pos..]
  }

  function EraseAt<T>(nodes: seq<T>, pos: nat): (r: seq<T>)
    requires pos < |nodes|
    ensures |r| == |nodes| - 1
  {
    nodes[..pos] + nodes[pos + 1..]
  }

  // A tree as a map from keys to nodes.

  ghost predicate DistinctKeys<K(!new), T(!new)>(nodes: seq<T>, key: T -> K) {
    forall i, j | 0 <= i < j < |nodes| :: key(nodes[i]) != key(nodes[j])
  }

  ghost function ToMap<K(!new), T(!new)>(nodes: seq<T>, key: T -> K): (m: map<K, T>)
    requires DistinctKeys(nodes, key)
    ensures forall n | n in nodes :: key(n) in m && m[key(n)] == n
    ensures forall k | k in m :: m[k] in nodes && key(m[k]) == k
  {
    map n | n in nodes :: key(n) := n
  }

  lemma ToMapIs<K(!new), T(!new)>(nodes: seq<T>, key: T -> K, m: map<K, T>)
    requires DistinctKeys(nodes, key)
    requires forall n | n in nodes :: key(n) in m && m[key(n)] == n
    requires forall k | k in m :: m[k] in nodes && key(m[k]) == k
    ensures ToMap(nodes, key) == m
  {
    assert forall k | k in ToMap(nodes, key) :: k in m && m[k] == ToMap(nodes, key)[k];
    assert forall k | k in m :: k in ToMap(nodes, key);
  }

  lemma ToMapUpdate<K(!new), T(!new)>(nodes: seq<T>, key: T -> K, pos: nat, n: T)
    requires DistinctKeys(nodes, key) && pos < |nodes| && key(n) == key(nodes[pos])
    ensures DistinctKeys(nodes[pos := n], key)
    ensures ToMap(nodes[pos := n], key) == ToMap(nodes, key)[key(n) := n]
  {
    hide ToMap;
    var r := nodes[pos := n];
    forall x ensures x in r <==> x == n || (x in nodes && key(x) != key(n)) {
      if x in nodes && key(x) != key(n) {
        var i :| 0 <= i < |nodes| && nodes[i] == x;
        assert r[i] == x;
      }
      assert r[pos] == n;
    }
    ToMapIs(r, key, ToMap(nodes, key)[key(n) := n]);
  }

  lemma ToMapInsert<K(!new), T(!new)>(nodes: seq<T>, key: T -> K, pos: nat, n: T)
    requires DistinctKeys(nodes, key) && pos <= |nodes|
    requires forall i | 0 <= i < |nodes| :: key(nodes[i]) != key(n)
    ensures DistinctKeys(InsertAt(nodes, pos, n), key)
    ensures ToMap(InsertAt(nodes, pos, n), key) == ToMap(nodes, key)[key(n) := n]
  {
    hide ToMap;
    var r := InsertAt(nodes, pos, n);
    assert nodes == nodes[..pos] + nodes[pos..];
    assert forall x :: x in r <==> x in nodes || x == n;
    ToMapIs(r, key, ToMap(nodes, key)[key(n) := n]);
  }

  lemma ToMapErase<K(!new), T(!new)>(nodes: seq<T>, key: T -> K, pos: nat)
    requires DistinctKeys(nodes, key) && pos < |nodes|
    ensures DistinctKeys(EraseAt(nodes, pos), key)
    ensures ToMap(EraseAt(nodes, pos), key) == ToMap(nodes, key) - {key(nodes[pos])}
  {
    hide ToMap;
    var r := EraseAt(nodes, pos);
    forall x ensures x in r <==> x in nodes && key(x) != key(nodes[pos]) {
      if x in nodes && key(x) != key(nodes[pos]) {
        var i :| 0 <= i < |nodes| && nodes[i] == x;
        assert x in nodes[..pos] || x in nodes[pos + 1..];
      }
    }
    ToMapIs(r, key, ToMap(nodes, key) - {key(nodes[pos])});
  }

  // Finding a node or making one.

  function Get<K, V>(m: map<K, V>, k: K, new_: V): V {
    if k in m then m[k] else new_
  }

  ghost predicate Matches<K(!new), T(!new)>(nodes: seq<T>, kf: T -> K, side: T -> int, k: K) {
    && Ordered(nodes, side) && DistinctKeys(nodes, kf)
    && forall i | 0 <= i < |nodes| :: side(nodes[i]) == 0 <==> kf(nodes[i]) == k
  }

  ghost predicate Inserted<T(!new)>(nodes: seq<T>, side: T -> int, pos: nat, n: T, r: seq<T>) {
    && pos <= |nodes| && r == InsertAt(nodes, pos, n)
    && (forall i | 0 <= i < pos :: side(nodes[i]) > 0)
    && (forall i | pos <= i < |nodes| :: side(nodes[i]) < 0)
  }

  /** Find the node with the key of `fresh_` or, if `create` is set, insert `fresh_` where the walk ended. */
  method FindNew<K(!new), T(!new)>(nodes: seq<T>, ghost kf: T -> K, side: T -> int, fresh_: T, create: bool)
    returns (r: seq<T>, found: bool, pos: nat)
    requires Matches(nodes, kf, side, kf(fresh_))
    ensures found <==> create || kf(fresh_) in ToMap(nodes, kf)
    ensures found ==> pos < |r| && kf(r[pos]) == kf(fresh_) && r[pos] == Get(ToMap(nodes, kf), kf(fresh_), fresh_)
    ensures r == nodes || (create && Inserted(nodes, side, pos, fresh_, r))
    ensures DistinctKeys(r, kf)
    ensures if found then ToMap(r, kf) == ToMap(nodes, kf)[kf(fresh_) := r[pos]] else r == nodes
  {
    hide ToMap;
    found, pos := Walk(nodes, side);
    r := nodes;
    if found {
      assert nodes[pos] in nodes;
      assert ToMap(nodes, kf)[kf(fresh_) := nodes[pos]] == ToMap(nodes, kf);
    } else if create {
      r := InsertAt(nodes, pos, fresh_);
      ToMapInsert(nodes, kf, pos, fresh_);
      found := true;
    }
  }

  // Trees ordered by a number.

  ghost predicate Ascending<T(!new)>(nodes: seq<T>, rank: T -> int) {
    forall i, j | 0 <= i < j < |nodes| :: rank(nodes[i]) < rank(nodes[j])
  }

  function RankSide<T>(rank: T -> int, k: int): T -> int {
    (n: T) => k - rank(n)
  }

  /** FindNew in a tree ordered by `rank`: it stays ordered, and only the node found or made can be new. */
  method FindNewRanked<T(!new)>(nodes: seq<T>, rank: T -> int, fresh_: T, create: bool)
    returns (r: seq<T>, found: bool, pos: nat)
    requires Ascending(nodes, rank)
    ensures Ascending(r, rank) && DistinctKeys(nodes, rank) && DistinctKeys(r, rank)
    ensures found <==> create || rank(fresh_) in ToMap(nodes, rank)
    ensures found ==> pos < |r| && rank(r[pos]) == rank(fresh_)
    ensures found ==> r[pos] == Get(ToMap(nodes, rank), rank(fresh_), fresh_)
    ensures if found then ToMap(r, rank) == ToMap(nodes, rank)[rank(fresh_) := r[pos]] else r == nodes
    ensures !create ==> r == nodes
  {
    hide ToMap;
    r, found, pos := FindNew(nodes, rank, RankSide(rank, rank(fresh_)), fresh_, create);
  }

  lemma RankedUpdate<T(!new)>(nodes: seq<T>, rank: T -> int, pos: nat, n: T)
    requires Ascending(nodes, rank) && pos < |nodes| && rank(n) == rank(nodes[pos])
    ensures Ascending(nodes[pos := n], rank)
    ensures DistinctKeys(nodes, rank) && DistinctKeys(nodes[pos := n], rank)
    ensures ToMap(nodes[pos := n], rank) == ToMap(nodes, rank)[rank(n) := n]
  {
    hide ToMap;
    ToMapUpdate(nodes, rank, pos, n);
  }
}
