/** Page mode of `perf kmem` over its three trees: the searches, the insertions and the handlers that use them. */
module KmemPageTrees {
  import opened KmemPages
  import opened RbTree

  const U32: nat := 0x1_0000_0000
  const HALF: nat := 0x8000_0000_0000_0000

  // The comparisons.

  /** A difference of two u64 read as an s64. */
  function Signed(x: int): int {
    var u := x % U64;
    if u < HALF then u else u - U64
  }

  function Compare(a: int, b: int): int {
    if a < b then -1 else if a > b then 1 else 0
  }

  function First(a: int, b: int): int {
    if a != 0 then a else b
  }

  /** -1 in the migrate type or the flags of the key matches anything. */
  function MigrateCmp(l: PageStat, r: PageStat): int {
    if l.migrate == U32 - 1 then 0 else Compare(l.migrate, r.migrate)
  }

  function GfpCmp(l: PageStat, r: PageStat): int {
    if l.gfp == U32 - 1 then 0 else Compare(l.gfp, r.gfp)
  }

  function TailCmp(l: PageStat, r: PageStat): int {
    First(Compare(l.order, r.order), First(MigrateCmp(l, r), GfpCmp(l, r)))
  }

  function AllocCmp(l: PageStat, r: PageStat): int {
    First(Compare(l.page, r.page), TailCmp(l, r))
  }

  function CallerCmp(l: PageStat, r: PageStat): int {
    First(Compare(l.callsite, r.callsite), TailCmp(l, r))
  }

  /** Below 0 goes left, so larger pages come first. */
  function PageSide(key: PageStat): PageStat -> int {
    (n: PageStat) => Signed(n.page - key.page)
  }

  function AllocSide(key: PageStat): PageStat -> int {
    (n: PageStat) => AllocCmp(key, n)
  }

  function CallerSide(key: PageStat): PageStat -> int {
    (n: PageStat) => CallerCmp(key, n)
  }

  function PageOf(s: PageStat): nat { s.page }

  /** How far a page lies behind `base`, around the circle of 64-bit numbers. */
  function Offset(base: nat, page: nat): nat { (page - base) % U64 }

  /** Less than half the circle lies between `base` and the page. */
  predicate InWindow(base: nat, page: nat) {
    base < U64 && page < U64 && Offset(base, page) < HALF
  }

  /** Values the kernel records: never the wildcard. */
  predicate Plain(s: PageStat) {
    s.migrate < U32 - 1 && s.gfp < U32 - 1
  }

  /** Inside a window of 2^63 pages the signed difference orders pages by their place in the window. */
  lemma SignedOrders(base: nat, a: nat, b: nat)
    requires InWindow(base, a) && InWindow(base, b)
    ensures Signed(a - b) == Offset(base, a) - Offset(base, b)
    ensures Offset(base, a) == Offset(base, b) <==> a == b
  {
  }

  predicate Precedes(a: nat, b: nat) { Signed(a - b) < 0 }

  /** For two 64-bit pages the comparison agrees with the numbers exactly if -2^63 <= a - b < 2^63. */
  lemma SignedExact(a: nat, b: nat)
    requires a < U64 && b < U64
    ensures (Precedes(a, b) <==> a < b) <==> b - a <= HALF && a - b < HALF
  {
  }

  predicate Pages(s: set<nat>) { forall p | p in s :: p < U64 }

  /** On a set of pages it does so exactly if all of them lie within 2^63 of each other. */
  lemma NumericExactly(s: set<nat>)
    requires Pages(s)
    ensures (forall a, b | a in s && b in s :: Precedes(a, b) <==> a < b) <==>
        (forall a, b | a in s && b in s :: a - b < HALF)
  {
    forall a, b | a in s && b in s
      ensures (Precedes(a, b) <==> a < b) && (Precedes(b, a) <==> b < a) <==> a - b < HALF && b - a < HALF
    {
      SignedExact(a, b);
      SignedExact(b, a);
    }
  }

  /** The comparison is a strict total order on the set, as a search tree needs it. */
  predicate TotalOn(s: set<nat>) {
    && (forall a, b | a in s && b in s && a != b :: Precedes(a, b) <==> !Precedes(b, a))
    && (forall a, b, c | a in s && b in s && c in s && Precedes(a, b) && Precedes(b, c) :: Precedes(a, c))
  }

  predicate AllInWindow(s: set<nat>, base: nat) {
    forall p | p in s :: InWindow(base, p)
  }

  ghost predicate InOneWindow(s: set<nat>) {
    exists base: nat :: AllInWindow(s, base)
  }

  lemma {:induction false} FirstPage(s: set<nat>) returns (m: nat)
    requires s != {} && TotalOn(s)
    ensures m in s && forall p | p in s && p != m :: Precedes(m, p)
    decreases |s|
  {
    hide Signed;
    m :| m in s;
    var rest := s - {m};
    if rest != {} {
      var n := FirstPage(rest);
      if Precedes(n, m) { m := n; }
    }
  }

  lemma PrecedesClose(m: nat, p: nat)
    requires m < U64 && p < U64 && Precedes(m, p) && !Precedes(p, m)
    ensures InWindow(m, p)
  {
  }

  /** It is one exactly if some window of 2^63 pages, which may wrap around, holds them all. */
  lemma TotalExactly(s: set<nat>)
    requires Pages(s)
    ensures TotalOn(s) <==> InOneWindow(s)
  {
    if InOneWindow(s) {
      var base: nat :| AllInWindow(s, base);
      WindowTotal(s, base);
    }
    if TotalOn(s) {
      if s == {} {
        assert AllInWindow(s, 0);
      } else {
        var m := FirstPage(s);
        forall p | p in s ensures InWindow(m, p) {
          if p != m { PrecedesClose(m, p); }
        }
        assert AllInWindow(s, m);
      }
    }
  }

  lemma WindowTotal(s: set<nat>, base: nat)
    requires AllInWindow(s, base)
    ensures TotalOn(s)
  {
    hide Signed, Offset;
    forall a, b | a in s && b in s
      ensures Signed(a - b) == Offset(base, a) - Offset(base, b) && (Offset(base, a) == Offset(base, b) <==> a == b)
    {
      SignedOrders(base, a, b);
    }
  }

  /** Three pages in no such window: each comes before the next, in a circle. */
  lemma SignedCycle()
    ensures var a, b, c := 0, 0x6000_0000_0000_0000, 0xC000_0000_0000_0000;
            Precedes(a, b) && Precedes(b, c) && Precedes(c, a)
  {
    assert Signed(0xC000_0000_0000_0000) == -0x4000_0000_0000_0000;
  }

  ghost predicate LiveSorted(nodes: seq<PageStat>, base: nat) {
    && (forall i | 0 <= i < |nodes| :: InWindow(base, nodes[i].page))
    && (forall i, j | 0 <= i < j < |nodes| :: Offset(base, nodes[i].page) > Offset(base, nodes[j].page))
  }

  ghost predicate AllocSorted(nodes: seq<PageStat>) {
    && (forall i | 0 <= i < |nodes| :: Plain(nodes[i]))
    && (forall i, j | 0 <= i < j < |nodes| :: AllocCmp(nodes[i], nodes[j]) < 0)
  }

  ghost predicate CallerSorted(nodes: seq<PageStat>) {
    && (forall i | 0 <= i < |nodes| :: Plain(nodes[i]))
    && (forall i, j | 0 <= i < j < |nodes| :: CallerCmp(nodes[i], nodes[j]) < 0)
  }

  lemma TailTransitive(a: PageStat, b: PageStat, c: PageStat)
    requires Plain(a) && Plain(b) && Plain(c)
    ensures TailCmp(a, b) <= 0 && TailCmp(b, c) < 0 ==> TailCmp(a, c) < 0
    ensures TailCmp(a, b) < 0 && TailCmp(b, c) <= 0 ==> TailCmp(a, c) < 0
    ensures TailCmp(a, b) < 0 <==> TailCmp(b, a) > 0
    ensures TailCmp(a, b) == 0 <==> a.order == b.order && a.migrate == b.migrate && a.gfp == b.gfp
  {
  }

  lemma AllocTransitive(a: PageStat, b: PageStat, c: PageStat)
    requires Plain(a) && Plain(b) && Plain(c)
    ensures AllocCmp(a, b) <= 0 && AllocCmp(b, c) < 0 ==> AllocCmp(a, c) < 0
    ensures AllocCmp(a, b) < 0 <==> AllocCmp(b, a) > 0
    ensures AllocCmp(a, b) == 0 <==> AllocKeyOf(a) == AllocKeyOf(b)
  {
    TailTransitive(a, b, c);
    hide TailCmp;
  }

  lemma CallerTransitive(a: PageStat, b: PageStat, c: PageStat)
    requires Plain(a) && Plain(b) && Plain(c)
    ensures CallerCmp(a, b) <= 0 && CallerCmp(b, c) < 0 ==> CallerCmp(a, c) < 0
    ensures CallerCmp(a, b) < 0 <==> CallerCmp(b, a) > 0
    ensures CallerCmp(a, b) == 0 <==> CallerKeyOf(a) == CallerKeyOf(b)
  {
    TailTransitive(a, b, c);
    hide TailCmp;
  }

  // The searches, over a tree of any shape.

  lemma LiveMatches(nodes: seq<PageStat>, base: nat, key: PageStat)
    requires LiveSorted(nodes, base) && InWindow(base, key.page)
    ensures Matches(nodes, PageOf, PageSide(key), key.page)
    ensures forall i | 0 <= i < |nodes| ::
              PageSide(key)(nodes[i]) == Offset(base, nodes[i].page) - Offset(base, key.page)
  {
    hide Signed, Offset;
    forall i | 0 <= i < |nodes|
      ensures PageSide(key)(nodes[i]) == Offset(base, nodes[i].page) - Offset(base, key.page)
      ensures PageSide(key)(nodes[i]) == 0 <==> nodes[i].page == key.page
    {
      SignedOrders(base, nodes[i].page, key.page);
    }
  }

  lemma LiveStaysSorted(nodes: seq<PageStat>, base: nat, key: PageStat, pos: nat, r: seq<PageStat>)
    requires LiveSorted(nodes, base) && InWindow(base, key.page) && Inserted(nodes, PageSide(key), pos, key, r)
    ensures LiveSorted(r, base)
  {
    hide Signed;
    LiveMatches(nodes, base, key);
    assert forall i | 0 <= i < |r| :: r[i] == if i < pos then nodes[i] else if i == pos then key else nodes[i - 1];
  }

  method FindNewPage(nodes: seq<PageStat>, ghost base: nat, key: PageStat, create: bool)
    returns (r: seq<PageStat>, found: bool, pos: nat)
    requires LiveSorted(nodes, base) && InWindow(base, key.page)
    ensures LiveSorted(r, base) && DistinctKeys(nodes, PageOf) && DistinctKeys(r, PageOf)
    ensures found <==> create || key.page in ToMap(nodes, PageOf)
    ensures found ==> pos < |r| && r[pos].page == key.page && r[pos] == Get(ToMap(nodes, PageOf), key.page, key)
    ensures if found then ToMap(r, PageOf) == ToMap(nodes, PageOf)[key.page := r[pos]] else r == nodes
    ensures !create ==> r == nodes
  {
    hide ToMap, LiveSorted, Ordered, DistinctKeys, Signed;
    LiveMatches(nodes, base, key);
    r, found, pos := FindNew(nodes, PageOf, PageSide(key), key, create);
    if r != nodes { LiveStaysSorted(nodes, base, key, pos, r); }
  }

  lemma AllocMatches(nodes: seq<PageStat>, key: PageStat)
    requires AllocSorted(nodes) && Plain(key)
    ensures Matches(nodes, AllocKeyOf, AllocSide(key), AllocKeyOf(key))
  {
    hide AllocCmp;
    forall i, j | 0 <= i < j < |nodes|
      ensures AllocSide(key)(nodes[i]) <= 0 ==> AllocSide(key)(nodes[j]) < 0
      ensures AllocKeyOf(nodes[i]) != AllocKeyOf(nodes[j])
    {
      AllocTransitive(key, nodes[i], nodes[j]);
      AllocTransitive(nodes[i], nodes[j], key);
    }
    forall i | 0 <= i < |nodes| ensures AllocSide(key)(nodes[i]) == 0 <==> AllocKeyOf(nodes[i]) == AllocKeyOf(key) {
      AllocTransitive(key, nodes[i], key);
    }
  }

  lemma AllocStaysSorted(nodes: seq<PageStat>, key: PageStat, pos: nat, r: seq<PageStat>)
    requires AllocSorted(nodes) && Plain(key) && Inserted(nodes, AllocSide(key), pos, key, r)
    ensures AllocSorted(r)
  {
    hide AllocCmp;
    assert forall i | 0 <= i < |r| :: r[i] == if i < pos then nodes[i] else if i == pos then key else nodes[i - 1];
    forall i | 0 <= i < pos ensures AllocCmp(nodes[i], key) < 0 {
      AllocTransitive(nodes[i], key, key);
      assert AllocSide(key)(nodes[i]) == AllocCmp(key, nodes[i]);
    }
    forall i | pos <= i < |nodes| ensures AllocCmp(key, nodes[i]) < 0 {
      assert AllocSide(key)(nodes[i]) == AllocCmp(key, nodes[i]);
    }
  }

  method FindNewAlloc(nodes: seq<PageStat>, key: PageStat, create: bool)
    returns (r: seq<PageStat>, found: bool, pos: nat)
    requires AllocSorted(nodes) && Plain(key)
    ensures AllocSorted(r) && DistinctKeys(nodes, AllocKeyOf) && DistinctKeys(r, AllocKeyOf)
    ensures found <==> create || AllocKeyOf(key) in ToMap(nodes, AllocKeyOf)
    ensures found ==> pos < |r| && AllocKeyOf(r[pos]) == AllocKeyOf(key)
    ensures found ==> r[pos] == Get(ToMap(nodes, AllocKeyOf), AllocKeyOf(key), key)
    ensures if found then ToMap(r, AllocKeyOf) == ToMap(nodes, AllocKeyOf)[AllocKeyOf(key) := r[pos]] else r == nodes
    ensures !create ==> r == nodes
  {
    hide ToMap, AllocSorted, Ordered, DistinctKeys, AllocCmp;
    AllocMatches(nodes, key);
    r, found, pos := FindNew(nodes, AllocKeyOf, AllocSide(key), key, create);
    if r != nodes { AllocStaysSorted(nodes, key, pos, r); }
  }

  lemma CallerMatches(nodes: seq<PageStat>, key: PageStat)
    requires CallerSorted(nodes) && Plain(key)
    ensures Matches(nodes, CallerKeyOf, CallerSide(key), CallerKeyOf(key))
  {
    hide CallerCmp;
    forall i, j | 0 <= i < j < |nodes|
      ensures CallerSide(key)(nodes[i]) <= 0 ==> CallerSide(key)(nodes[j]) < 0
      ensures CallerKeyOf(nodes[i]) != CallerKeyOf(nodes[j])
    {
      CallerTransitive(key, nodes[i], nodes[j]);
      CallerTransitive(nodes[i], nodes[j], key);
    }
    forall i | 0 <= i < |nodes| ensures CallerSide(key)(nodes[i]) == 0 <==> CallerKeyOf(nodes[i]) == CallerKeyOf(key) {
      CallerTransitive(key, nodes[i], key);
    }
  }

  lemma CallerStaysSorted(nodes: seq<PageStat>, key: PageStat, n: PageStat, pos: nat, r: seq<PageStat>)
    requires CallerSorted(nodes) && Plain(key) && n == key.(page := 0) && Inserted(nodes, CallerSide(key), pos, n, r)
    ensures CallerSorted(r)
  {
    assert forall i | 0 <= i < |r| :: r[i] == if i < pos then nodes[i] else if i == pos then n else nodes[i - 1];
    forall i | 0 <= i < pos ensures CallerCmp(nodes[i], n) < 0 {
      CallerTransitive(nodes[i], key, key);
      assert CallerSide(key)(nodes[i]) == CallerCmp(key, nodes[i]);
    }
    forall i | pos <= i < |nodes| ensures CallerCmp(n, nodes[i]) < 0 {
      assert CallerSide(key)(nodes[i]) == CallerCmp(key, nodes[i]);
    }
  }

  /** A new caller entry does not take the page of its key. */
  method FindNewCaller(nodes: seq<PageStat>, key: PageStat, create: bool)
    returns (r: seq<PageStat>, found: bool, pos: nat)
    requires CallerSorted(nodes) && Plain(key)
    ensures CallerSorted(r) && DistinctKeys(nodes, CallerKeyOf) && DistinctKeys(r, CallerKeyOf)
    ensures found <==> create || CallerKeyOf(key) in ToMap(nodes, CallerKeyOf)
    ensures found ==> pos < |r| && CallerKeyOf(r[pos]) == CallerKeyOf(key)
    ensures found ==> r[pos] == Get(ToMap(nodes, CallerKeyOf), CallerKeyOf(key), key.(page := 0))
    ensures if found then ToMap(r, CallerKeyOf) == ToMap(nodes, CallerKeyOf)[CallerKeyOf(key) := r[pos]] else r == nodes
    ensures !create ==> r == nodes
  {
    hide ToMap, CallerSorted, Ordered, DistinctKeys, CallerCmp;
    CallerMatches(nodes, key);
    r, found, pos := FindNew(nodes, CallerKeyOf, CallerSide(key), key.(page := 0), create);
    if r != nodes { CallerStaysSorted(nodes, key, key.(page := 0), pos, r); }
  }

  // Finding a node and changing it, without its key.

  lemma LiveUpdate(nodes: seq<PageStat>, base: nat, pos: nat, n: PageStat)
    requires LiveSorted(nodes, base) && pos < |nodes| && n.page == nodes[pos].page
    ensures LiveSorted(nodes[pos := n], base)
  {
  }

  lemma AllocUpdate(nodes: seq<PageStat>, pos: nat, n: PageStat)
    requires AllocSorted(nodes) && pos < |nodes| && AllocKeyOf(n) == AllocKeyOf(nodes[pos])
    ensures AllocSorted(nodes[pos := n])
  {
  }

  lemma CallerUpdate(nodes: seq<PageStat>, pos: nat, n: PageStat)
    requires CallerSorted(nodes) && pos < |nodes| && CallerKeyOf(n) == CallerKeyOf(nodes[pos])
    ensures CallerSorted(nodes[pos := n])
  {
  }

  ghost predicate LiveTree(nodes: seq<PageStat>, base: nat) {
    LiveSorted(nodes, base) && DistinctKeys(nodes, PageOf) && forall n | n in nodes ::
        Plain(n) && n.migrate < MAX_MIGRATE_TYPES
  }

  ghost predicate AllocTree(nodes: seq<PageStat>) {
    AllocSorted(nodes) && DistinctKeys(nodes, AllocKeyOf)
  }

  ghost predicate CallerTree(nodes: seq<PageStat>) {
    CallerSorted(nodes) && DistinctKeys(nodes, CallerKeyOf)
  }

  method CountLive(nodes: seq<PageStat>, ghost base: nat, key: PageStat, bytes: nat, callsite: nat)
    returns (r: seq<PageStat>)
    requires LiveTree(nodes, base) && InWindow(base, key.page) && Plain(key) && key.migrate < MAX_MIGRATE_TYPES
    ensures LiveTree(r, base)
    ensures ToMap(r, PageOf) == ToMap(nodes, PageOf)[
              key.page := Allocated(Get(ToMap(nodes, PageOf), key.page, key), bytes).(callsite := callsite)]
  {
    hide ToMap, LiveSorted, DistinctKeys;
    var found, pos;
    r, found, pos := FindNewPage(nodes, base, key, true);
    assert Plain(r[pos]) && r[pos].migrate < MAX_MIGRATE_TYPES;
    var n := Allocated(r[pos], bytes).(callsite := callsite);
    assert forall x | x in r :: x in nodes || x == key by { FoundMembers(nodes, key, r, pos); }
    ToMapUpdate(r, PageOf, pos, n);
    LiveUpdate(r, base, pos, n);
    r := r[pos := n];
  }

  /** The nodes of a map that grew by one key. */
  lemma FoundMembers(nodes: seq<PageStat>, key: PageStat, r: seq<PageStat>, pos: nat)
    requires DistinctKeys(nodes, PageOf) && DistinctKeys(r, PageOf) && pos < |r|
    requires r[pos] == Get(ToMap(nodes, PageOf), key.page, key)
    requires ToMap(r, PageOf) == ToMap(nodes, PageOf)[key.page := r[pos]]
    ensures forall x | x in r :: x in nodes || x == key
  {
    forall x | x in r ensures x in nodes || x == key {
      assert ToMap(r, PageOf)[PageOf(x)] == x;
    }
  }

  method CountAlloc(nodes: seq<PageStat>, key: PageStat, bytes: nat, callsite: nat) returns (r: seq<PageStat>)
    requires AllocTree(nodes) && Plain(key)
    ensures AllocTree(r)
    ensures ToMap(r, AllocKeyOf) == ToMap(nodes, AllocKeyOf)[
              AllocKeyOf(key) := Allocated(Get(ToMap(nodes, AllocKeyOf), AllocKeyOf(key), key),
                  bytes).(callsite := callsite)]
  {
    hide ToMap, AllocSorted, DistinctKeys;
    var found, pos;
    r, found, pos := FindNewAlloc(nodes, key, true);
    var n := Allocated(r[pos], bytes).(callsite := callsite);
    ToMapUpdate(r, AllocKeyOf, pos, n);
    AllocUpdate(r, pos, n);
    r := r[pos := n];
  }

  method CountCaller(nodes: seq<PageStat>, key: PageStat, bytes: nat) returns (r: seq<PageStat>)
    requires CallerTree(nodes) && Plain(key)
    ensures CallerTree(r)
    ensures ToMap(r, CallerKeyOf) == ToMap(nodes, CallerKeyOf)[
              CallerKeyOf(key) := Allocated(Get(ToMap(nodes, CallerKeyOf), CallerKeyOf(key), key.(page := 0)), bytes)]
  {
    hide ToMap, CallerSorted, DistinctKeys;
    var found, pos;
    r, found, pos := FindNewCaller(nodes, key, true);
    var n := Allocated(r[pos], bytes);
    ToMapUpdate(r, CallerKeyOf, pos, n);
    CallerUpdate(r, pos, n);
    r := r[pos := n];
  }

  lemma LiveEraseSorted(nodes: seq<PageStat>, base: nat, pos: nat)
    requires LiveSorted(nodes, base) && pos < |nodes|
    ensures LiveSorted(EraseAt(nodes, pos), base)
  {
    var r := EraseAt(nodes, pos);
    assert forall i | 0 <= i < |r| :: r[i] == if i < pos then nodes[i] else nodes[i + 1];
    hide EraseAt;
  }

  lemma LiveErase(nodes: seq<PageStat>, base: nat, pos: nat)
    requires LiveTree(nodes, base) && pos < |nodes|
    ensures LiveTree(EraseAt(nodes, pos), base)
    ensures ToMap(EraseAt(nodes, pos), PageOf) == ToMap(nodes, PageOf) - {nodes[pos].page}
  {
    hide ToMap, LiveSorted, DistinctKeys;
    ToMapErase(nodes, PageOf, pos);
    LiveEraseSorted(nodes, base, pos);
    assert forall x | x in EraseAt(nodes, pos) :: x in nodes;
  }

  lemma CallerErase(nodes: seq<PageStat>, pos: nat)
    requires CallerTree(nodes) && pos < |nodes|
    ensures CallerTree(EraseAt(nodes, pos))
    ensures ToMap(EraseAt(nodes, pos), CallerKeyOf) == ToMap(nodes, CallerKeyOf) - {CallerKeyOf(nodes[pos])}
  {
    hide ToMap, CallerCmp;
    ToMapErase(nodes, CallerKeyOf, pos);
  }

  /** Takes a page out of the live tree and says what it was. */
  method TakeLive(nodes: seq<PageStat>, ghost base: nat, key: PageStat)
    returns (r: seq<PageStat>, found: bool, st: PageStat)
    requires LiveTree(nodes, base) && InWindow(base, key.page)
    ensures LiveTree(r, base)
    ensures found <==> key.page in ToMap(nodes, PageOf)
    ensures found ==> st == ToMap(nodes, PageOf)[key.page] && Plain(st) && st.migrate < MAX_MIGRATE_TYPES
    ensures ToMap(r, PageOf) == ToMap(nodes, PageOf) - {key.page}
  {
    hide ToMap, LiveSorted, DistinctKeys, EraseAt;
    var pos;
    r, found, pos := FindNewPage(nodes, base, key, false);
    st := key;
    if found {
      st := nodes[pos];
      LiveErase(nodes, base, pos);
      r := EraseAt(nodes, pos);
    } else {
      assert ToMap(nodes, PageOf) - {key.page} == ToMap(nodes, PageOf);
    }
  }

  method FreeAlloc(nodes: seq<PageStat>, key: PageStat, bytes: nat) returns (r: seq<PageStat>, found: bool)
    requires AllocTree(nodes) && Plain(key)
    ensures AllocTree(r)
    ensures found <==> AllocKeyOf(key) in ToMap(nodes, AllocKeyOf)
    ensures if found then ToMap(r, AllocKeyOf) ==
        ToMap(nodes, AllocKeyOf)[AllocKeyOf(key) := Freed(ToMap(nodes, AllocKeyOf)[AllocKeyOf(key)], bytes)]
            else r == nodes
  {
    hide ToMap, AllocSorted, DistinctKeys;
    var pos;
    r, found, pos := FindNewAlloc(nodes, key, false);
    if found {
      var n := Freed(r[pos], bytes);
      ToMapUpdate(r, AllocKeyOf, pos, n);
      AllocUpdate(r, pos, n);
      r := r[pos := n];
    }
  }

  method FreeCallerNode(c: Config, nodes: seq<PageStat>, key: PageStat, bytes: nat)
    returns (r: seq<PageStat>, found: bool)
    requires CallerTree(nodes) && Plain(key)
    ensures CallerTree(r)
    ensures found <==> CallerKeyOf(key) in ToMap(nodes, CallerKeyOf)
    ensures if found then ToMap(r, CallerKeyOf) == FreeCaller(c, ToMap(nodes, CallerKeyOf), CallerKeyOf(key), bytes)
        else r == nodes
  {
    hide ToMap, CallerSorted, DistinctKeys, EraseAt;
    var pos;
    r, found, pos := FindNewCaller(nodes, key, false);
    if found {
      var n := Freed(r[pos], bytes);
      if c.livePage {
        n := n.(nrAlloc := n.nrAlloc - 1, allocBytes := n.allocBytes - bytes);
        if n.nrAlloc == 0 {
          CallerErase(nodes, pos);
          r := EraseAt(nodes, pos);
          return;
        }
      }
      ToMapUpdate(r, CallerKeyOf, pos, n);
      CallerUpdate(r, pos, n);
      r := r[pos := n];
    }
  }

  // The handlers.

  class PageTracker {
    const c: Config
    ghost const base: nat
    var live: seq<PageStat>
    var alloc: seq<PageStat>
    var caller: seq<PageStat>
    var orderStats: seq<seq<int>>
    var allocBytes: int
    var freeBytes: int
    var nomatchBytes: int
    var failBytes: int
    var nrAllocs: int
    var nrFrees: int
    var nrNomatch: int
    var nrFails: int

    ghost predicate Good()
      reads this
    {
      && LiveTree(live, base) && AllocTree(alloc) && CallerTree(caller)
      && |orderStats| == MAX_PAGE_ORDER && forall o | 0 <= o < MAX_PAGE_ORDER :: |orderStats[o]| == MAX_MIGRATE_TYPES
    }

    ghost function State(): Kmem
      requires Good()
      reads this
    {
      Kmem(ToMap(live, PageOf), ToMap(alloc, AllocKeyOf), ToMap(caller, CallerKeyOf), orderStats,
           allocBytes, freeBytes, nomatchBytes, failBytes, nrAllocs, nrFrees, nrNomatch, nrFails)
    }

    /** `base` bounds the window of pages that will be seen. */
    constructor (c: Config, ghost base: nat)
      ensures Good() && State() == Empty() && this.c == c && this.base == base
    {
      this.c, this.base := c, base;
      live, alloc, caller := [], [], [];
      orderStats := seq(MAX_PAGE_ORDER, _ => seq(MAX_MIGRATE_TYPES, _ => 0));
      allocBytes, freeBytes, nomatchBytes, failBytes := 0, 0, 0, 0;
      nrAllocs, nrFrees, nrNomatch, nrFails := 0, 0, 0, 0;
      new;
      assert ToMap(live, PageOf) == map[] && ToMap(alloc, AllocKeyOf) == map[] && ToMap(caller, CallerKeyOf) == map[];
    }

    /** The part of an allocation that follows once the page is known to be valid. */
    method RecordPage(e: Event, bytes: nat)
      requires Good() && e.PageAlloc? && WellFormed(e) && e.gfp < U32 - 1 && InWindow(base, e.page)
      modifies `live, `alloc, `caller, `orderStats
      ensures Good() && State() == Record(c, old(State()), e, bytes)
    {
      hide LiveTree, AllocTree, CallerTree, ToMap, Allocated, Get;
      var key := NewPage(e);
      assert key.(callsite := e.callsite, page := 0) == NewCaller(e);
      live := CountLive(live, base, key, bytes, e.callsite);
      if !c.livePage {
        alloc := CountAlloc(alloc, key, bytes, e.callsite);
      }
      caller := CountCaller(caller, key.(callsite := e.callsite), bytes);
      orderStats := CountOrder(orderStats, e.order, e.migrate, 1);
    }

    method ProcessPageAllocEvent(e: Event)
      requires Good() && e.PageAlloc? && WellFormed(e) && e.gfp < U32 - 1
      requires ValidPage(c, e.page) ==> InWindow(base, e.page)
      modifies this
      ensures Good() && State() == AllocPage(c, old(State()), e)
    {
      hide LiveTree, AllocTree, CallerTree, ToMap, Bytes, Record;
      var bytes := Bytes(c, e.order);
      nrAllocs := nrAllocs + 1;
      allocBytes := allocBytes + bytes;
      if !ValidPage(c, e.page) {
        nrFails := nrFails + 1;
        failBytes := failBytes + bytes;
        return;
      }
      RecordPage(e, bytes);
    }

    /** The part of a free that follows once the live page is out of its tree. */
    method ForgetPage(key: PageStat, bytes: nat) returns (rc: int)
      requires Good() && Plain(key) && key.order < MAX_PAGE_ORDER && key.migrate < MAX_MIGRATE_TYPES
      modifies `alloc, `caller, `orderStats
      ensures Good() && (State(), rc) == Forget(c, old(State()), key, bytes)
    {
      hide LiveTree, AllocTree, CallerTree, ToMap, FreeCaller, Freed;
      var r, found;
      if c.livePage {
        orderStats := CountOrder(orderStats, key.order, key.migrate, -1);
      } else {
        r, found := FreeAlloc(alloc, key, bytes);
        if !found { return -ENOMEM; }
        alloc := r;
      }
      r, found := FreeCallerNode(c, caller, key, bytes);
      if !found { return -ENOENT; }
      caller := r;
      return 0;
    }

    /** The page of a free leaves the live tree. */
    method TakePage(e: Event) returns (found: bool, st: PageStat)
      requires Good() && InWindow(base, e.page)
      modifies `live
      ensures Good() && (found <==> e.page in old(State()).live)
      ensures found ==> st == old(State()).live[e.page] && Plain(st) && st.migrate < MAX_MIGRATE_TYPES
      ensures State() == if found then old(State()).(live := old(State()).live - {e.page}) else old(State())
    {
      hide LiveTree, AllocTree, CallerTree, ToMap;
      var r;
      r, found, st := TakeLive(live, base, PageStat(e.page, 0, e.order, 0, 0, 0, 0, 0, 0));
      live := r;
      assert !found ==> State().live == old(State()).live;
    }

    /** Returns 0, -ENOMEM or -ENOENT. */
    method ProcessPageFreeEvent(e: Event) returns (rc: int)
      requires Good() && e.PageFree? && WellFormed(e) && InWindow(base, e.page)
      modifies this
      ensures Good() && forall p | p in old(State()).live :: old(State()).live[p].migrate < MAX_MIGRATE_TYPES
      ensures (State(), rc) == FreePage(c, old(State()), e)
    {
      hide LiveTree, AllocTree, CallerTree, ToMap, Bytes, Forget;
      LiveMigrate(live, base);
      var bytes := Bytes(c, e.order);
      nrFrees := nrFrees + 1;
      freeBytes := freeBytes + bytes;
      var found, st := TakePage(e);
      if !found {
        nrNomatch := nrNomatch + 1;
        nomatchBytes := nomatchBytes + bytes;
        return 0;
      }
      rc := ForgetPage(FreeEntry(e, st), bytes);
    }
  }

  lemma LiveMigrate(nodes: seq<PageStat>, base: nat)
    requires LiveTree(nodes, base)
    ensures DistinctKeys(nodes, PageOf)
    ensures forall p | p in ToMap(nodes, PageOf) :: ToMap(nodes, PageOf)[p].migrate < MAX_MIGRATE_TYPES
  {
  }
}
