/** The order of the latency report: the comparators, and what an insertion by them sorts by. */
module LatencySort {
  import opened RbTree
  import opened Latency

  datatype Key = Avg | Max | Switches | Run

  function Compare(a: nat, b: nat): int {
    if a < b then -1 else if a > b then 1 else 0
  }

  /** An entry without atoms is below any entry it is compared with, even another one without. */
  function AvgCmp(l: Atoms, r: Atoms): int {
    if l.nbAtoms == 0 then -1
    else if r.nbAtoms == 0 then 1
    else Compare(l.totalLat / l.nbAtoms, r.totalLat / r.nbAtoms)
  }

  function KeyCmp(k: Key, l: Atoms, r: Atoms): int {
    match k
    case Avg => AvgCmp(l, r)
    case Max => Compare(l.maxLat, r.maxLat)
    case Switches => Compare(l.nbAtoms, r.nbAtoms)
    case Run => Compare(l.totalRuntime, r.totalRuntime)
  }

  /** The first key that tells the two apart decides. */
  method ThreadLatCmp(keys: seq<Key>, l: Atoms, r: Atoms) returns (ret: int)
    requires keys != []
    ensures ret == LatCmp(keys, l, r)
  {
    hide KeyCmp;
    ret := 0;
    for i := 0 to |keys|
      invariant ret == 0 && LatCmp(keys, l, r) == LatCmp(keys[i..], l, r)
    {
      ret := KeyCmp(keys[i], l, r);
      if ret != 0 {
        return;
      }
    }
  }

  function LatCmp(keys: seq<Key>, l: Atoms, r: Atoms): int {
    if keys == [] then 0
    else if KeyCmp(keys[0], l, r) != 0 then KeyCmp(keys[0], l, r)
    else LatCmp(keys[1..], l, r)
  }

  /** The average comparison is antisymmetric unless neither entry has an atom. */
  lemma AvgAntisymmetric(l: Atoms, r: Atoms)
    ensures AvgCmp(l, r) == -AvgCmp(r, l) <==> l.nbAtoms != 0 || r.nbAtoms != 0
  {
  }

  // The order that results.

  /** The value of a key; -1 is the average of no atoms. */
  function Value(k: Key, a: Atoms): int {
    match k
    case Avg => if a.nbAtoms == 0 then -1 else a.totalLat / a.nbAtoms
    case Max => a.maxLat
    case Switches => a.nbAtoms
    case Run => a.totalRuntime
  }

  /** The values compared, in order: behind an average of no atoms no further key is looked at. */
  function Ranks(keys: seq<Key>, a: Atoms): seq<int> {
    if keys == [] then []
    else if keys[0].Avg? && a.nbAtoms == 0 then [-1]
    else [Value(keys[0], a)] + Ranks(keys[1..], a)
  }

  /** The lexicographic order of such values. */
  predicate Above(a: seq<int>, b: seq<int>) {
    a != [] && b != [] && (a[0] > b[0] || (a[0] == b[0] && Above(a[1..], b[1..])))
  }

  /** An entry goes to the left of another exactly when its values are above. */
  lemma {:induction false} ComparedByRanks(keys: seq<Key>, l: Atoms, r: Atoms)
    ensures LatCmp(keys, l, r) > 0 <==> Above(Ranks(keys, l), Ranks(keys, r))
  {
    if keys != [] {
      ComparedByRanks(keys[1..], l, r);
      FirstKey(keys[0], l, r);
      if !(keys[0].Avg? && l.nbAtoms == 0) && !(keys[0].Avg? && r.nbAtoms == 0) {
        assert Ranks(keys, l)[1..] == Ranks(keys[1..], l) && Ranks(keys, r)[1..] == Ranks(keys[1..], r);
      }
    }
  }

  lemma FirstKey(k: Key, l: Atoms, r: Atoms)
    ensures KeyCmp(k, l, r) > 0 <==> Value(k, l) > Value(k, r)
    ensures !(k.Avg? && l.nbAtoms == 0) ==> (KeyCmp(k, l, r) == 0 <==> Value(k, l) == Value(k, r))
    ensures k.Avg? && l.nbAtoms == 0 ==> KeyCmp(k, l, r) < 0
  {
  }

  /** The values of two entries never have one the beginning of the other. */
  predicate Alike(a: seq<int>, b: seq<int>) {
    if a == [] || b == [] then a == b else a[0] == b[0] ==> Alike(a[1..], b[1..])
  }

  lemma {:induction false} RanksAlike(keys: seq<Key>, l: Atoms, r: Atoms)
    ensures Alike(Ranks(keys, l), Ranks(keys, r))
  {
    if keys != [] {
      RanksAlike(keys[1..], l, r);
      if !(keys[0].Avg? && l.nbAtoms == 0) && !(keys[0].Avg? && r.nbAtoms == 0) {
        assert Ranks(keys, l)[1..] == Ranks(keys[1..], l) && Ranks(keys, r)[1..] == Ranks(keys[1..], r);
      } else if keys[0].Avg? && (l.nbAtoms == 0 <==> r.nbAtoms != 0) {
        assert Ranks(keys, l)[0] != Ranks(keys, r)[0];
      }
    }
  }

  lemma {:induction false} AboveWeak(a: seq<int>, b: seq<int>, c: seq<int>)
    requires Above(a, b) && !Above(c, b) && Alike(b, c) && Alike(a, c)
    ensures Above(a, c)
  {
    if a[0] == b[0] && c != [] && c[0] == b[0] {
      AboveWeak(a[1..], b[1..], c[1..]);
    }
  }

  /** Descending order: no entry is above an earlier one. */
  predicate Sorted(keys: seq<Key>, s: seq<Atoms>) {
    forall i, j | 0 <= i < j < |s| :: !Above(Ranks(keys, s[j]), Ranks(keys, s[i]))
  }

  /** Nowhere in a sorted report does the comparison put a later entry to the left of an earlier one. */
  lemma SortedByComparison(keys: seq<Key>, s: seq<Atoms>)
    ensures Sorted(keys, s) <==> forall i, j | 0 <= i < j < |s| :: LatCmp(keys, s[j], s[i]) <= 0
  {
    forall i, j | 0 <= i < j < |s|
      ensures LatCmp(keys, s[j], s[i]) > 0 <==> Above(Ranks(keys, s[j]), Ranks(keys, s[i]))
    {
      ComparedByRanks(keys, s[j], s[i]);
    }
  }

  /** With the default keys, two entries without atoms compare below each other whatever their run times. */
  lemma RuntimeNotConsulted(l: Atoms, r: Atoms)
    requires l.nbAtoms == 0 && r.nbAtoms == 0
    ensures LatCmp([Avg, Max, Switches, Run], l, r) < 0 && LatCmp([Avg, Max, Switches, Run], r, l) < 0
  {
  }

  // Inserting.

  function LeftOf(keys: seq<Key>, data: Atoms): Atoms -> bool {
    (n: Atoms) => LatCmp(keys, data, n) > 0
  }

  lemma LeftMonotone(keys: seq<Key>, s: seq<Atoms>, data: Atoms)
    requires Sorted(keys, s)
    ensures forall i, j | 0 <= i < j < |s| :: LeftOf(keys, data)(s[i]) ==> LeftOf(keys, data)(s[j])
  {
    hide Above, Ranks, LatCmp;
    forall i, j | 0 <= i < j < |s| && LeftOf(keys, data)(s[i]) ensures LeftOf(keys, data)(s[j]) {
      ComparedByRanks(keys, data, s[i]);
      ComparedByRanks(keys, data, s[j]);
      RanksAlike(keys, s[i], s[j]);
      RanksAlike(keys, data, s[j]);
      AboveWeak(Ranks(keys, data), Ranks(keys, s[i]), Ranks(keys, s[j]));
    }
  }

  lemma {:induction false} AboveAsymmetric(a: seq<int>, b: seq<int>)
    requires Above(a, b)
    ensures !Above(b, a)
  {
    if a[0] == b[0] { AboveAsymmetric(a[1..], b[1..]); }
  }

  /** Putting an entry after those it is not above keeps the order. */
  lemma InsertKeepsSorted(keys: seq<Key>, s: seq<Atoms>, pos: nat, data: Atoms)
    requires Sorted(keys, s) && pos <= |s|
    requires forall i | 0 <= i < pos :: !LeftOf(keys, data)(s[i])
    requires forall i | pos <= i < |s| :: LeftOf(keys, data)(s[i])
    ensures Sorted(keys, InsertAt(s, pos, data))
  {
    hide Above, Ranks, LatCmp;
    var r := InsertAt(s, pos, data);
    assert forall i | 0 <= i < |r| :: r[i] == if i < pos then s[i] else if i == pos then data else s[i - 1];
    forall i, j | 0 <= i < j < |r| ensures !Above(Ranks(keys, r[j]), Ranks(keys, r[i])) {
      if j == pos {
        ComparedByRanks(keys, data, s[i]);
      } else if i == pos {
        ComparedByRanks(keys, data, s[j - 1]);
        AboveAsymmetric(Ranks(keys, data), Ranks(keys, s[j - 1]));
      }
    }
  }

  lemma InsertAdds(s: seq<Atoms>, pos: nat, data: Atoms)
    requires pos <= |s|
    ensures multiset(InsertAt(s, pos, data)) == multiset(s) + multiset{data}
  {
    assert s == s[..pos] + s[pos..];
  }

  /** The walk of an insertion: left of the entries that the new one is above, and never stopping at an equal one. */
  method ThreadLatencyInsert(keys: seq<Key>, s: seq<Atoms>, data: Atoms) returns (r: seq<Atoms>)
    requires keys != [] && Sorted(keys, s)
    ensures Sorted(keys, r)
    ensures exists pos: nat | pos <= |s| ::
              && r == InsertAt(s, pos, data)
              && (forall i | 0 <= i < pos :: LatCmp(keys, data, s[i]) <= 0)
              && (forall i | pos <= i < |s| :: LatCmp(keys, data, s[i]) > 0)
    ensures multiset(r) == multiset(s) + multiset{data}
  {
    hide Sorted, LatCmp, InsertAt;
    LeftMonotone(keys, s, data);
    var lo: nat, hi: nat := 0, |s|;
    while lo < hi
      invariant 0 <= lo <= hi <= |s|
      invariant forall i | 0 <= i < lo :: !LeftOf(keys, data)(s[i])
      invariant forall i | hi <= i < |s| :: LeftOf(keys, data)(s[i])
    {
      var root: nat :| lo <= root < hi;
      var cmp := ThreadLatCmp(keys, data, s[root]);
      if cmp > 0 {
        assert LeftOf(keys, data)(s[root]);
        hi := root;
      } else {
        assert !LeftOf(keys, data)(s[root]);
        lo := root + 1;
      }
    }
    InsertKeepsSorted(keys, s, lo, data);
    InsertAdds(s, lo, data);
    r := InsertAt(s, lo, data);
    assert forall i | 0 <= i < lo :: LatCmp(keys, data, s[i]) <= 0;
    assert forall i | lo <= i < |s| :: LatCmp(keys, data, s[i]) > 0;
  }
}
