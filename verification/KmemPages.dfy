/**
 Page mode of `perf kmem`: which pages are live, and the statistics per page and per call site.

 The three trees are maps here (KmemPageTrees walks the trees themselves). Legal traces are those
 in which no live page is allocated again and a page is freed with the order it was allocated with.
 */
module KmemPages {
  import opened Sums
  import opened RbTree

  const MAX_PAGE_ORDER := 11
  const MAX_MIGRATE_TYPES := 6
  const U64: nat := 0x1_0000_0000_0000_0000
  const ENOENT := 2
  const ENOMEM := 12

  datatype PageStat = PageStat(page: nat, callsite: nat, order: nat, gfp: nat, migrate: nat,
                               allocBytes: int, freeBytes: int, nrAlloc: int, nrFree: int)

  datatype AllocKey = AllocKey(page: nat, order: nat, migrate: nat, gfp: nat)
  datatype CallerKey = CallerKey(callsite: nat, order: nat, migrate: nat, gfp: nat)

  datatype Config = Config(usePfn: bool, livePage: bool, pageSize: nat)

  datatype Kmem = Kmem(
    live: map<nat, PageStat>, alloc: map<AllocKey, PageStat>, caller: map<CallerKey, PageStat>,
    orderStats: seq<seq<int>>,
    allocBytes: int, freeBytes: int, nomatchBytes: int, failBytes: int,
    nrAllocs: int, nrFrees: int, nrNomatch: int, nrFails: int)

  datatype Event =
    | PageAlloc(page: nat, order: nat, migrate: nat, gfp: nat, callsite: nat)
    | PageFree(page: nat, order: nat)

  function AllocKeyOf(s: PageStat): AllocKey { AllocKey(s.page, s.order, s.migrate, s.gfp) }
  function CallerKeyOf(s: PageStat): CallerKey { CallerKey(s.callsite, s.order, s.migrate, s.gfp) }

  function Bytes(c: Config, order: nat): nat {
    if order == 0 then c.pageSize else 2 * Bytes(c, order - 1)
  }

  /** A failed allocation is recorded with page frame number -1 or with a null page. */
  predicate ValidPage(c: Config, page: nat) {
    if c.usePfn then page != U64 - 1 else page != 0
  }

  function Empty(): Kmem {
    Kmem(map[], map[], map[], seq(MAX_PAGE_ORDER, _ => seq(MAX_MIGRATE_TYPES, _ => 0)), 0, 0, 0, 0, 0, 0, 0, 0)
  }

  ghost predicate Shape(s: Kmem) {
    |s.orderStats| == MAX_PAGE_ORDER && forall o | 0 <= o < MAX_PAGE_ORDER :: |s.orderStats[o]| == MAX_MIGRATE_TYPES
  }

  /** Events the kernel can emit. */
  predicate WellFormed(e: Event) {
    e.order < MAX_PAGE_ORDER && (e.PageAlloc? ==> e.migrate < MAX_MIGRATE_TYPES)
  }

  // The handlers.

  function NewPage(e: Event): PageStat
    requires e.PageAlloc?
  {
    PageStat(e.page, 0, e.order, e.gfp, e.migrate, 0, 0, 0, 0)
  }

  function NewCaller(e: Event): PageStat
    requires e.PageAlloc?
  {
    PageStat(0, e.callsite, e.order, e.gfp, e.migrate, 0, 0, 0, 0)
  }

  function Allocated(s: PageStat, bytes: nat): PageStat {
    s.(nrAlloc := s.nrAlloc + 1, allocBytes := s.allocBytes + bytes)
  }

  function Freed(s: PageStat, bytes: nat): PageStat {
    s.(nrFree := s.nrFree + 1, freeBytes := s.freeBytes + bytes)
  }

  function CountOrder(stats: seq<seq<int>>, o: nat, m: nat, d: int): seq<seq<int>>
    requires o < |stats| && m < |stats[o]|
  {
    stats[o := stats[o][m := stats[o][m] + d]]
  }

  /** A valid page in all three tables. */
  function Record(c: Config, s: Kmem, e: Event, bytes: nat): Kmem
    requires Shape(s) && WellFormed(e) && e.PageAlloc?
  {
    var akey := AllocKeyOf(NewPage(e));
    var ckey := CallerKeyOf(NewCaller(e));
    s.(live := s.live[e.page := Allocated(Get(s.live, e.page, NewPage(e)), bytes).(callsite := e.callsite)],
       alloc := if c.livePage then s.alloc
                else s.alloc[akey := Allocated(Get(s.alloc, akey, NewPage(e)), bytes).(callsite := e.callsite)],
       caller := s.caller[ckey := Allocated(Get(s.caller, ckey, NewCaller(e)), bytes)],
       orderStats := CountOrder(s.orderStats, e.order, e.migrate, 1))
  }

  function AllocPage(c: Config, s: Kmem, e: Event): Kmem
    requires Shape(s) && WellFormed(e) && e.PageAlloc?
  {
    var bytes := Bytes(c, e.order);
    var s := s.(nrAllocs := s.nrAllocs + 1, allocBytes := s.allocBytes + bytes);
    if !ValidPage(c, e.page) then s.(nrFails := s.nrFails + 1, failBytes := s.failBytes + bytes)
    else Record(c, s, e, bytes)
  }

  /** The caller entry after a free: in live mode it counts down and goes away at 0. */
  function FreeCaller(c: Config, caller: map<CallerKey, PageStat>, k: CallerKey, bytes: nat): map<CallerKey, PageStat>
    requires k in caller
  {
    var st := Freed(caller[k], bytes);
    if !c.livePage then caller[k := st]
    else
      var down := st.(nrAlloc := st.nrAlloc - 1, allocBytes := st.allocBytes - bytes);
      if down.nrAlloc == 0 then caller - {k} else caller[k := down]
  }

  function FreeEntry(e: Event, st: PageStat): PageStat {
    PageStat(e.page, st.callsite, e.order, st.gfp, st.migrate, 0, 0, 0, 0)
  }

  /** Once a page is out of the live table: its alloc and caller entries, found with the order of the free. */
  function Forget(c: Config, s: Kmem, key: PageStat, bytes: nat): (Kmem, int)
    requires Shape(s) && key.order < MAX_PAGE_ORDER && key.migrate < MAX_MIGRATE_TYPES
  {
    var akey, ckey := AllocKeyOf(key), CallerKeyOf(key);
    if !c.livePage && akey !in s.alloc then (s, -ENOMEM)
    else
      var s := if c.livePage then s.(orderStats := CountOrder(s.orderStats, key.order, key.migrate, -1))
               else s.(alloc := s.alloc[akey := Freed(s.alloc[akey], bytes)]);
      if ckey !in s.caller then (s, -ENOENT)
      else (s.(caller := FreeCaller(c, s.caller, ckey, bytes)), 0)
  }

  /** The new state and the return value. */
  function FreePage(c: Config, s: Kmem, e: Event): (Kmem, int)
    requires Shape(s) && WellFormed(e) && e.PageFree?
    requires forall p | p in s.live :: s.live[p].migrate < MAX_MIGRATE_TYPES
  {
    var bytes := Bytes(c, e.order);
    var s := s.(nrFrees := s.nrFrees + 1, freeBytes := s.freeBytes + bytes);
    if e.page !in s.live then (s.(nrNomatch := s.nrNomatch + 1, nomatchBytes := s.nomatchBytes + bytes), 0)
    else Forget(c, s.(live := s.live - {e.page}), FreeEntry(e, s.live[e.page]), bytes)
  }

  // Legal traces and what every one of them keeps.

  predicate Legal(c: Config, s: Kmem, e: Event) {
    && WellFormed(e)
    && (e.PageAlloc? && ValidPage(c, e.page) ==> e.page !in s.live)
    && (e.PageFree? && e.page in s.live ==> s.live[e.page].order == e.order)
  }

  /** The live pages whose key is `k`. */
  ghost function Having<V(!new), K(!new)>(live: map<nat, V>, kf: V -> K, k: K): (r: set<nat>)
    ensures forall p :: p in r <==> p in live && kf(live[p]) == k
  {
    set p | p in live && kf(live[p]) == k
  }

  lemma HavingAdd<K(!new)>(live: map<nat, PageStat>, kf: PageStat -> K, k: K, p: nat, st: PageStat)
    requires p !in live
    ensures |Having(live[p := st], kf, k)| == |Having(live, kf, k)| + if kf(st) == k then 1 else 0
  {
    assert Having(live[p := st], kf, k) == if kf(st) == k then Having(live, kf, k) + {p} else Having(live, kf, k);
  }

  lemma HavingRemove<K(!new)>(live: map<nat, PageStat>, kf: PageStat -> K, k: K, p: nat)
    requires p in live
    ensures |Having(live - {p}, kf, k)| == |Having(live, kf, k)| - if kf(live[p]) == k then 1 else 0
  {
    assert Having(live, kf, k) == if kf(live[p]) == k then Having(live - {p}, kf, k) + {p}
      else Having(live - {p}, kf, k);
  }

  /** Pages and bytes that an entry still has to its name. */
  function Held(c: Config, s: PageStat): int { if c.livePage then s.nrAlloc else s.nrAlloc - s.nrFree }
  function HeldBytes(c: Config, s: PageStat): int { if c.livePage then s.allocBytes else s.allocBytes - s.freeBytes }

  /** A table keyed by `kf` covers the live pages and every entry counts exactly the live pages it covers. */
  ghost predicate EntryOk<K(!new)>(c: Config, live: map<nat, PageStat>, kf: PageStat -> K, k: K, st: PageStat) {
    var n := |Having(live, kf, k)|;
    kf(st) == k && Held(c, st) == n && HeldBytes(c, st) == n * Bytes(c, st.order)
  }

  ghost predicate TableOk<K(!new)>(c: Config, live: map<nat, PageStat>, t: map<K, PageStat>, kf: PageStat -> K) {
    && (forall p | p in live :: kf(live[p]) in t)
    && (forall k | k in t :: EntryOk(c, live, kf, k, t[k]))
  }

  /** Entries with the same key are for pages of the same order. */
  ghost predicate KeyFixesOrder<K(!new)>(kf: PageStat -> K) {
    forall a, b :: kf(a) == kf(b) ==> a.order == b.order
  }

  lemma TableAlloc<K(!new)>(c: Config, live: map<nat, PageStat>, t: map<K, PageStat>, kf: PageStat -> K, p: nat,
      st: PageStat, v: PageStat)
    requires TableOk(c, live, t, kf) && KeyFixesOrder(kf) && p !in live && kf(v) == kf(st)
    requires Held(c, v) == (if kf(st) in t then Held(c, t[kf(st)]) else 0) + 1
    requires HeldBytes(c, v) == (if kf(st) in t then HeldBytes(c, t[kf(st)]) else 0) + Bytes(c, st.order)
    ensures TableOk(c, live[p := st], t[kf(st) := v], kf)
  {
    var live', t' := live[p := st], t[kf(st) := v];
    forall k | k in t' ensures EntryOk(c, live', kf, k, t'[k]) {
      HavingAdd(live, kf, k, p, st);
      if k in t { assert EntryOk(c, live, kf, k, t[k]); } else { assert Having(live, kf, k) == {}; }
      if k == kf(st) {
        var n := |Having(live, kf, k)|;
        assert (n + 1) * Bytes(c, st.order) == n * Bytes(c, st.order) + Bytes(c, st.order);
      }
    }
  }

  /** Without its page the entry holds one less; an entry that holds nothing may go. */
  lemma TableFree<K(!new)>(c: Config, live: map<nat, PageStat>, t: map<K, PageStat>, kf: PageStat -> K, p: nat,
      v: PageStat)
    requires TableOk(c, live, t, kf) && KeyFixesOrder(kf) && p in live && kf(v) == kf(live[p])
    requires Held(c, v) == Held(c, t[kf(live[p])]) - 1
    requires HeldBytes(c, v) == HeldBytes(c, t[kf(live[p])]) - Bytes(c, live[p].order)
    ensures TableOk(c, live - {p}, t[kf(live[p]) := v], kf)
    ensures Held(c, v) == 0 ==> TableOk(c, live - {p}, t - {kf(live[p])}, kf)
  {
    var key := kf(live[p]);
    var live', t' := live - {p}, t[key := v];
    forall k | k in t' ensures EntryOk(c, live', kf, k, t'[k]) {
      HavingRemove(live, kf, k, p);
      assert EntryOk(c, live, kf, k, t[k]);
      if k == key {
        var n := |Having(live, kf, k)|;
        assert (n - 1) * Bytes(c, v.order) == n * Bytes(c, v.order) - Bytes(c, v.order);
      }
    }
    if Held(c, v) == 0 {
      assert EntryOk(c, live', kf, key, t'[key]);
      forall q | q in live' ensures kf(live'[q]) in t - {key} {
        assert q !in Having(live', kf, key);
      }
      forall k | k in t - {key} ensures EntryOk(c, live', kf, k, (t - {key})[k]) {
        assert EntryOk(c, live', kf, k, t'[k]);
      }
    }
  }

  function OrderKeyOf(s: PageStat): (nat, nat) { (s.order, s.migrate) }

  function LiveBytes(s: PageStat): int { s.allocBytes }

  predicate LivePageOk(c: Config, p: nat, st: PageStat) {
    && st.page == p && st.nrAlloc == 1 && st.allocBytes == Bytes(c, st.order)
    && st.order < MAX_PAGE_ORDER && st.migrate < MAX_MIGRATE_TYPES
  }

  ghost predicate TotalsOk(s: Kmem) {
    && s.nrAllocs - s.nrFails - (s.nrFrees - s.nrNomatch) == |s.live|
    && s.allocBytes - s.failBytes - (s.freeBytes - s.nomatchBytes) == SumMap(LiveBytes, s.live)
  }

  ghost predicate OrdersOk(live: map<nat, PageStat>, stats: seq<seq<int>>) {
    forall o, m | 0 <= o < |stats| && 0 <= m < |stats[o]| :: stats[o][m] == |Having(live, OrderKeyOf, (o, m))|
  }

  ghost predicate Inv(c: Config, s: Kmem) {
    && Shape(s)
    && (forall p | p in s.live :: LivePageOk(c, p, s.live[p]))
    && TableOk(c, s.live, s.caller, CallerKeyOf)
    && (c.livePage ==> forall k | k in s.caller :: s.caller[k].nrAlloc > 0)
    && (if c.livePage then s.alloc == map[] else TableOk(c, s.live, s.alloc, AllocKeyOf))
    && (c.livePage ==> OrdersOk(s.live, s.orderStats))
    && TotalsOk(s)
  }

  lemma KeysFixOrder()
    ensures KeyFixesOrder(CallerKeyOf) && KeyFixesOrder(AllocKeyOf)
  {
  }

  lemma EmptyInv(c: Config)
    ensures Inv(c, Empty())
  {
    forall o, m | 0 <= o < MAX_PAGE_ORDER && 0 <= m < MAX_MIGRATE_TYPES
      ensures |Having(map[], OrderKeyOf, (o, m))| == 0
    {
      assert Having(map[], OrderKeyOf, (o, m)) == {};
    }
  }

  // Allocation keeps the invariant.

  lemma OrdersAlloc(live: map<nat, PageStat>, stats: seq<seq<int>>, p: nat, st: PageStat)
    requires OrdersOk(live, stats) && p !in live && st.order < |stats| && st.migrate < |stats[st.order]|
    ensures OrdersOk(live[p := st], CountOrder(stats, st.order, st.migrate, 1))
  {
    var stats' := CountOrder(stats, st.order, st.migrate, 1);
    forall o, m | 0 <= o < |stats'| && 0 <= m < |stats'[o]|
      ensures stats'[o][m] == |Having(live[p := st], OrderKeyOf, (o, m))|
    {
      HavingAdd(live, OrderKeyOf, (o, m), p, st);
    }
  }

  lemma OrdersFree(live: map<nat, PageStat>, stats: seq<seq<int>>, p: nat)
    requires OrdersOk(live, stats) && p in live && live[p].order < |stats| && live[p].migrate < |stats[live[p].order]|
    ensures OrdersOk(live - {p}, CountOrder(stats, live[p].order, live[p].migrate, -1))
  {
    var stats' := CountOrder(stats, live[p].order, live[p].migrate, -1);
    forall o, m | 0 <= o < |stats'| && 0 <= m < |stats'[o]|
      ensures stats'[o][m] == |Having(live - {p}, OrderKeyOf, (o, m))|
    {
      HavingRemove(live, OrderKeyOf, (o, m), p);
    }
  }

  /** Entries are filed under their own keys. */
  lemma EntryKeys(c: Config, s: Kmem)
    requires Inv(c, s)
    ensures forall k | k in s.caller :: CallerKeyOf(s.caller[k]) == k
    ensures forall k | k in s.alloc :: AllocKeyOf(s.alloc[k]) == k
  {
    assert forall k | k in s.caller :: EntryOk(c, s.live, CallerKeyOf, k, s.caller[k]);
    assert !c.livePage ==> forall k | k in s.alloc :: EntryOk(c, s.live, AllocKeyOf, k, s.alloc[k]);
  }

  lemma AllocCallers(c: Config, s: Kmem, e: Event)
    requires Inv(c, s) && e.PageAlloc? && Legal(c, s, e) && ValidPage(c, e.page)
    ensures TableOk(c, AllocPage(c, s, e).live, AllocPage(c, s, e).caller, CallerKeyOf)
  {
    hide TableOk, KeyFixesOrder, OrdersOk, TotalsOk, LivePageOk;
    EntryKeys(c, s);
    KeysFixOrder();
    var s' := AllocPage(c, s, e);
    var st := s'.live[e.page];
    TableAlloc(c, s.live, s.caller, CallerKeyOf, e.page, st, s'.caller[CallerKeyOf(st)]);
  }

  lemma AllocAllocs(c: Config, s: Kmem, e: Event)
    requires Inv(c, s) && e.PageAlloc? && Legal(c, s, e) && ValidPage(c, e.page) && !c.livePage
    ensures TableOk(c, AllocPage(c, s, e).live, AllocPage(c, s, e).alloc, AllocKeyOf)
  {
    hide TableOk, KeyFixesOrder, OrdersOk, TotalsOk, LivePageOk;
    EntryKeys(c, s);
    KeysFixOrder();
    var s' := AllocPage(c, s, e);
    var st := s'.live[e.page];
    TableAlloc(c, s.live, s.alloc, AllocKeyOf, e.page, st, s'.alloc[AllocKeyOf(st)]);
  }

  lemma AllocTotals(c: Config, s: Kmem, e: Event)
    requires TotalsOk(s) && Shape(s) && e.PageAlloc? && Legal(c, s, e)
    ensures TotalsOk(AllocPage(c, s, e))
  {
    hide Bytes, CountOrder, SumMap;
    var s' := AllocPage(c, s, e);
    if ValidPage(c, e.page) {
      SumMapPut(LiveBytes, s.live, e.page, s'.live[e.page]);
    }
  }

  lemma AllocOrders(c: Config, s: Kmem, e: Event)
    requires Inv(c, s) && e.PageAlloc? && Legal(c, s, e)
    ensures var s' := AllocPage(c, s, e);
            && Shape(s') && (c.livePage ==> OrdersOk(s'.live, s'.orderStats))
            && (forall p | p in s'.live :: LivePageOk(c, p, s'.live[p]))
  {
    hide TableOk, OrdersOk, TotalsOk, Bytes;
    var s' := AllocPage(c, s, e);
    if ValidPage(c, e.page) && c.livePage {
      OrdersAlloc(s.live, s.orderStats, e.page, s'.live[e.page]);
    }
  }

  lemma AllocKeepsInv(c: Config, s: Kmem, e: Event)
    requires Inv(c, s) && e.PageAlloc? && Legal(c, s, e)
    ensures Inv(c, AllocPage(c, s, e))
  {
    hide TableOk, OrdersOk, TotalsOk, LivePageOk, Shape, Bytes, CountOrder;
    AllocTotals(c, s, e);
    AllocOrders(c, s, e);
    if ValidPage(c, e.page) {
      AllocCallers(c, s, e);
      if !c.livePage { AllocAllocs(c, s, e); }
    }
  }

  // So does a free, which never fails.

  lemma FreeEntryKeys(c: Config, s: Kmem, e: Event)
    requires Inv(c, s) && e.PageFree? && Legal(c, s, e) && e.page in s.live
    ensures CallerKeyOf(FreeEntry(e, s.live[e.page])) == CallerKeyOf(s.live[e.page])
    ensures AllocKeyOf(FreeEntry(e, s.live[e.page])) == AllocKeyOf(s.live[e.page])
    ensures CallerKeyOf(s.live[e.page]) in s.caller
    ensures !c.livePage ==> AllocKeyOf(s.live[e.page]) in s.alloc
  {
  }

  lemma FreeSucceeds(c: Config, s: Kmem, e: Event)
    requires Inv(c, s) && e.PageFree? && Legal(c, s, e)
    ensures forall p | p in s.live :: s.live[p].migrate < MAX_MIGRATE_TYPES
    ensures FreePage(c, s, e).1 == 0
  {
    if e.page in s.live { FreeEntryKeys(c, s, e); }
  }

  /** What freeing a live page leaves. */
  function AfterFree(c: Config, s: Kmem, e: Event, st: PageStat): Kmem
    requires CallerKeyOf(st) in s.caller && (!c.livePage ==> AllocKeyOf(st) in s.alloc)
    requires st.order < |s.orderStats| && st.migrate < |s.orderStats[st.order]|
  {
    var bytes := Bytes(c, e.order);
    s.(live := s.live - {e.page},
       alloc := if c.livePage then s.alloc else s.alloc[AllocKeyOf(st) := Freed(s.alloc[AllocKeyOf(st)], bytes)],
       caller := FreeCaller(c, s.caller, CallerKeyOf(st), bytes),
       orderStats := if c.livePage then CountOrder(s.orderStats, st.order, st.migrate, -1) else s.orderStats,
       nrFrees := s.nrFrees + 1, freeBytes := s.freeBytes + bytes)
  }

  lemma FreeEffect(c: Config, s: Kmem, e: Event)
    requires Shape(s) && WellFormed(e) && e.PageFree? && e.page in s.live
    requires forall p | p in s.live :: s.live[p].migrate < MAX_MIGRATE_TYPES
    requires var st := s.live[e.page];
             && st.page == e.page && st.order == e.order
             && CallerKeyOf(st) in s.caller && (!c.livePage ==> AllocKeyOf(st) in s.alloc)
    ensures FreePage(c, s, e) == (AfterFree(c, s, e, s.live[e.page]), 0)
  {
    hide Bytes, CountOrder, FreeCaller, Freed;
    var st := s.live[e.page];
    assert CallerKeyOf(FreeEntry(e, st)) == CallerKeyOf(st);
    assert AllocKeyOf(FreeEntry(e, st)) == AllocKeyOf(st);
  }

  lemma FreeCallers(c: Config, s: Kmem, e: Event)
    requires Inv(c, s) && e.PageFree? && Legal(c, s, e) && e.page in s.live
    ensures var k := CallerKeyOf(s.live[e.page]);
            && k in s.caller
            && TableOk(c, s.live - {e.page}, FreeCaller(c, s.caller, k, Bytes(c, e.order)), CallerKeyOf)
  {
    hide TableOk, KeyFixesOrder, OrdersOk, TotalsOk, Bytes, LivePageOk, Shape;
    EntryKeys(c, s);
    KeysFixOrder();
    FreeEntryKeys(c, s, e);
    var k, bytes := CallerKeyOf(s.live[e.page]), Bytes(c, e.order);
    var v := Freed(s.caller[k], bytes);
    var down := v.(nrAlloc := v.nrAlloc - 1, allocBytes := v.allocBytes - bytes);
    if c.livePage {
      TableFree(c, s.live, s.caller, CallerKeyOf, e.page, down);
      assert FreeCaller(c, s.caller, k, bytes) == if down.nrAlloc == 0 then s.caller - {k} else s.caller[k := down];
    } else {
      TableFree(c, s.live, s.caller, CallerKeyOf, e.page, v);
      assert FreeCaller(c, s.caller, k, bytes) == s.caller[k := v];
    }
  }

  lemma FreeAllocs(c: Config, s: Kmem, e: Event)
    requires Inv(c, s) && e.PageFree? && Legal(c, s, e) && e.page in s.live && !c.livePage
    ensures var k := AllocKeyOf(s.live[e.page]);
            && k in s.alloc
            && TableOk(c, s.live - {e.page}, s.alloc[k := Freed(s.alloc[k], Bytes(c, e.order))], AllocKeyOf)
  {
    hide TableOk, KeyFixesOrder, OrdersOk, TotalsOk, LivePageOk;
    EntryKeys(c, s);
    KeysFixOrder();
    FreeEntryKeys(c, s, e);
    var k := AllocKeyOf(s.live[e.page]);
    TableFree(c, s.live, s.alloc, AllocKeyOf, e.page, Freed(s.alloc[k], Bytes(c, e.order)));
  }

  lemma FreeTotals(c: Config, s: Kmem, e: Event)
    requires Inv(c, s) && e.PageFree? && Legal(c, s, e) && e.page in s.live
    ensures TotalsOk(s.(live := s.live - {e.page}, nrFrees := s.nrFrees + 1,
        freeBytes := s.freeBytes + Bytes(c, e.order)))
  {
    hide TableOk, OrdersOk, Bytes, SumMap;
    assert LivePageOk(c, e.page, s.live[e.page]);
    SumMapAny(LiveBytes, s.live, e.page);
  }

  /** In live mode the caller entry that is left still counts somebody. */
  lemma FreeCallersPositive(c: Config, s: Kmem, e: Event)
    requires Inv(c, s) && c.livePage && e.PageFree? && Legal(c, s, e) && e.page in s.live
    requires CallerKeyOf(s.live[e.page]) in s.caller
    ensures var t := FreeCaller(c, s.caller, CallerKeyOf(s.live[e.page]), Bytes(c, e.order));
            forall k | k in t :: t[k].nrAlloc > 0
  {
    hide TableOk, OrdersOk, TotalsOk, Bytes;
  }

  lemma AfterFreeInv(c: Config, s: Kmem, e: Event)
    requires Inv(c, s) && e.PageFree? && Legal(c, s, e) && e.page in s.live
    requires CallerKeyOf(s.live[e.page]) in s.caller && (!c.livePage ==> AllocKeyOf(s.live[e.page]) in s.alloc)
    requires s.live[e.page].order < |s.orderStats| && s.live[e.page].migrate < |s.orderStats[s.live[e.page].order]|
    ensures Inv(c, AfterFree(c, s, e, s.live[e.page]))
  {
    hide TableOk, OrdersOk, FreeCaller, Freed, Bytes, SumMap;
    FreeTotals(c, s, e);
    FreeCallers(c, s, e);
    if c.livePage {
      OrdersFree(s.live, s.orderStats, e.page);
      FreeCallersPositive(c, s, e);
    } else {
      FreeAllocs(c, s, e);
    }
  }

  lemma UnmatchedFreeInv(c: Config, s: Kmem, e: Event)
    requires Inv(c, s) && e.PageFree? && Legal(c, s, e) && e.page !in s.live
    ensures forall p | p in s.live :: s.live[p].migrate < MAX_MIGRATE_TYPES
    ensures Inv(c, FreePage(c, s, e).0)
  {
    hide TableOk, OrdersOk, Bytes, SumMap, FreeCaller, CountOrder, AllocKeyOf, CallerKeyOf;
  }

  lemma LivePagesOk(c: Config, s: Kmem)
    requires Inv(c, s)
    ensures forall p | p in s.live :: LivePageOk(c, p, s.live[p])
    ensures forall p | p in s.live :: s.live[p].migrate < MAX_MIGRATE_TYPES && s.live[p].page == p
  {
    hide TableOk, OrdersOk, Bytes, SumMap;
  }

  lemma FreeKeepsInv(c: Config, s: Kmem, e: Event)
    requires Inv(c, s) && e.PageFree? && Legal(c, s, e)
    ensures forall p | p in s.live :: s.live[p].migrate < MAX_MIGRATE_TYPES
    ensures Inv(c, FreePage(c, s, e).0)
  {
    hide FreePage, AfterFree, TableOk, OrdersOk, TotalsOk, LivePageOk;
    LivePagesOk(c, s);
    if e.page in s.live {
      FreeEntryKeys(c, s, e);
      FreeEffect(c, s, e);
      AfterFreeInv(c, s, e);
    } else {
      UnmatchedFreeInv(c, s, e);
    }
  }

  // Whole runs, with what is live taken from the trace.

  datatype Allocation = Allocation(order: nat, migrate: nat, gfp: nat, callsite: nat)

  function AllocationOf(e: Event): Allocation
    requires e.PageAlloc?
  {
    Allocation(e.order, e.migrate, e.gfp, e.callsite)
  }

  /** An allocation got a page: its page frame number is not -1, or its page not null. */
  predicate Succeeds(c: Config, e: Event) {
    e.PageAlloc? && e.page != if c.usePfn then 0xFFFF_FFFF_FFFF_FFFF else 0
  }

  predicate WellFormedTrace(trace: seq<Event>) {
    forall i | 0 <= i < |trace| :: WellFormed(trace[i])
  }

  /**
   The pages allocated and not freed since, with their allocations. A page allocated again while live
   takes the new call site and keeps the rest.
   */
  function LiveNext(c: Config, m: map<nat, Allocation>, e: Event): map<nat, Allocation> {
    if Succeeds(c, e) then
      m[e.page := if e.page in m then m[e.page].(callsite := e.callsite) else AllocationOf(e)]
    else if e.PageFree? then m - {e.page}
    else m
  }

  function LiveAllocs(c: Config, trace: seq<Event>): map<nat, Allocation> {
    if trace == [] then map[] else LiveNext(c, LiveAllocs(c, trace[..|trace| - 1]), trace[|trace| - 1])
  }

  predicate EntryFor(st: PageStat, page: nat, x: Allocation) {
    st.page == page && x == Allocation(st.order, st.migrate, st.gfp, st.callsite) && x.migrate < MAX_MIGRATE_TYPES
  }

  /** The live table has the pages of the trace under their own keys. */
  ghost predicate Tracked(s: Kmem, m: map<nat, Allocation>) {
    Shape(s) && s.live.Keys == m.Keys && forall p | p in m :: EntryFor(s.live[p], p, m[p])
  }

  lemma AllocTracked(c: Config, s: Kmem, e: Event, m: map<nat, Allocation>)
    requires Tracked(s, m) && WellFormed(e) && e.PageAlloc?
    ensures Tracked(AllocPage(c, s, e), LiveNext(c, m, e))
  {
    hide Bytes;
  }

  lemma FreeTracked(c: Config, s: Kmem, e: Event, m: map<nat, Allocation>)
    requires Tracked(s, m) && WellFormed(e) && e.PageFree?
    ensures forall p | p in s.live :: s.live[p].migrate < MAX_MIGRATE_TYPES
    ensures Tracked(FreePage(c, s, e).0, LiveNext(c, m, e))
  {
    hide Bytes, FreeCaller;
  }

  /** The state after any trace of well-formed events, double allocations and mismatched frees included. */
  ghost function Run(c: Config, trace: seq<Event>): (s: Kmem)
    requires WellFormedTrace(trace)
    ensures Tracked(s, LiveAllocs(c, trace))
  {
    if trace == [] then Empty()
    else
      var before, e := trace[..|trace| - 1], trace[|trace| - 1];
      var s := Run(c, before);
      if e.PageAlloc? then
        AllocTracked(c, s, e, LiveAllocs(c, before));
        AllocPage(c, s, e)
      else
        FreeTracked(c, s, e, LiveAllocs(c, before));
        FreePage(c, s, e).0
  }

  lemma LiveMigrates(s: Kmem, m: map<nat, Allocation>)
    requires Tracked(s, m)
    ensures Shape(s) && forall p | p in s.live :: s.live[p].migrate < MAX_MIGRATE_TYPES
  {
  }

  /** What the free handler returns for some free after the trace. */
  ghost function FreeResult(c: Config, trace: seq<Event>, e: Event): int
    requires WellFormedTrace(trace) && e.PageFree? && WellFormed(e)
  {
    LiveMigrates(Run(c, trace), LiveAllocs(c, trace));
    FreePage(c, Run(c, trace), e).1
  }

  // Legal traces.

  predicate LegalNext(c: Config, trace: seq<Event>, e: Event) {
    && WellFormed(e)
    && (Succeeds(c, e) ==> e.page !in LiveAllocs(c, trace))
    && (e.PageFree? && e.page in LiveAllocs(c, trace) ==> LiveAllocs(c, trace)[e.page].order == e.order)
  }

  predicate LegalSteps(c: Config, trace: seq<Event>) {
    trace == [] || (LegalSteps(c, trace[..|trace| - 1]) && LegalNext(c, trace[..|trace| - 1], trace[|trace| - 1]))
  }

  predicate LegalRun(c: Config, trace: seq<Event>) {
    WellFormedTrace(trace) && LegalSteps(c, trace)
  }

  /** The live table's entry for a page of a legal trace. */
  function LiveEntry(c: Config, page: nat, x: Allocation): PageStat {
    PageStat(page, x.callsite, x.order, x.gfp, x.migrate, Bytes(c, x.order), 0, 1, 0)
  }

  ghost predicate LiveIs(c: Config, live: map<nat, PageStat>, m: map<nat, Allocation>) {
    live.Keys == m.Keys && forall p | p in m :: live[p] == LiveEntry(c, p, m[p])
  }

  lemma AllocLive(c: Config, s: Kmem, e: Event, m: map<nat, Allocation>)
    requires Shape(s) && WellFormed(e) && e.PageAlloc? && LiveIs(c, s.live, m) && (Succeeds(c, e) ==> e.page !in m)
    ensures LiveIs(c, AllocPage(c, s, e).live, LiveNext(c, m, e))
  {
    hide Bytes, CountOrder;
  }

  lemma FreeLive(c: Config, s: Kmem, e: Event, m: map<nat, Allocation>)
    requires Shape(s) && WellFormed(e) && e.PageFree? && LiveIs(c, s.live, m)
    requires forall p | p in s.live :: s.live[p].migrate < MAX_MIGRATE_TYPES
    ensures LiveIs(c, FreePage(c, s, e).0.live, LiveNext(c, m, e))
  {
    hide Bytes, CountOrder, FreeCaller;
  }

  lemma LegalHere(c: Config, s: Kmem, trace: seq<Event>, e: Event)
    requires LegalNext(c, trace, e) && LiveIs(c, s.live, LiveAllocs(c, trace))
    ensures Legal(c, s, e)
  {
  }

  /** After every legal trace the invariant holds and the live table is what the trace allocated and did not free. */
  lemma {:induction false} LegalInv(c: Config, trace: seq<Event>)
    requires LegalRun(c, trace)
    ensures Inv(c, Run(c, trace)) && LiveIs(c, Run(c, trace).live, LiveAllocs(c, trace))
  {
    hide Inv, LiveIs, Legal, AllocPage, FreePage, LiveNext, Tracked;
    if trace == [] {
      NothingLive(c);
    } else {
      var before, e := trace[..|trace| - 1], trace[|trace| - 1];
      var s, m := Run(c, before), LiveAllocs(c, before);
      LegalInv(c, before);
      LegalHere(c, s, before, e);
      LiveMigrates(s, m);
      if e.PageAlloc? {
        AllocKeepsInv(c, s, e);
        AllocLive(c, s, e, m);
      } else {
        FreeKeepsInv(c, s, e);
        FreeLive(c, s, e, m);
      }
    }
  }

  lemma NothingLive(c: Config)
    ensures Inv(c, Run(c, [])) && LiveIs(c, Run(c, []).live, LiveAllocs(c, []))
  {
    hide Inv;
    EmptyInv(c);
  }

  /** On legal traces the error returns of the free handler are unreachable. */
  lemma FreeNeverFails(c: Config, trace: seq<Event>, e: Event)
    requires LegalRun(c, trace) && e.PageFree? && LegalNext(c, trace, e)
    ensures FreeResult(c, trace, e) == 0
  {
    hide Inv, FreePage;
    LegalInv(c, trace);
    LegalHere(c, Run(c, trace), trace, e);
    FreeSucceeds(c, Run(c, trace), e);
  }

  function CallerKeyIn(x: Allocation): CallerKey { CallerKey(x.callsite, x.order, x.migrate, x.gfp) }
  function OrderKeyIn(x: Allocation): (nat, nat) { (x.order, x.migrate) }

  /** In live mode a call site is listed exactly while it has live pages, with their number and bytes. */
  lemma LiveCallersExact(c: Config, trace: seq<Event>, k: CallerKey)
    requires LegalRun(c, trace) && c.livePage
    ensures var s := Run(c, trace);
            var n := |Having(LiveAllocs(c, trace), CallerKeyIn, k)|;
            && (k in s.caller <==> n > 0)
            && (k in s.caller ==> s.caller[k].nrAlloc == n && s.caller[k].allocBytes == n * Bytes(c, k.order))
  {
    hide Run, LegalSteps, LiveAllocs, Bytes, OrdersOk, TotalsOk;
    LegalInv(c, trace);
    var s := Run(c, trace);
    assert Having(s.live, CallerKeyOf, k) == Having(LiveAllocs(c, trace), CallerKeyIn, k);
    if k in s.caller {
      assert EntryOk(c, s.live, CallerKeyOf, k, s.caller[k]);
    } else {
      assert Having(s.live, CallerKeyOf, k) == {};
    }
  }

  /** In live mode the order statistics count the live pages of each order and migrate type. */
  lemma LiveOrdersExact(c: Config, trace: seq<Event>, o: nat, m: nat)
    requires LegalRun(c, trace) && c.livePage && o < MAX_PAGE_ORDER && m < MAX_MIGRATE_TYPES
    ensures Shape(Run(c, trace))
    ensures Run(c, trace).orderStats[o][m] == |Having(LiveAllocs(c, trace), OrderKeyIn, (o, m))|
  {
    hide Run, LegalSteps, LiveAllocs, Bytes, TableOk, TotalsOk;
    LegalInv(c, trace);
    assert Having(Run(c, trace).live, OrderKeyOf, (o, m)) == Having(LiveAllocs(c, trace), OrderKeyIn, (o, m));
  }

  function BytesIn(c: Config): Allocation -> int {
    (x: Allocation) => Bytes(c, x.order)
  }

  /**
   What was allocated, did not fail and was not freed again is exactly what the trace leaves live, in pages
   and in bytes.
   */
  lemma PagesConserved(c: Config, trace: seq<Event>)
    requires LegalRun(c, trace)
    ensures var s, m := Run(c, trace), LiveAllocs(c, trace);
            && s.nrAllocs - s.nrFails - (s.nrFrees - s.nrNomatch) == |m|
            && s.allocBytes - s.failBytes - (s.freeBytes - s.nomatchBytes) == SumMap(BytesIn(c), m)
  {
    hide Run, LegalSteps, LiveAllocs, Bytes, TableOk, OrdersOk, SumMap;
    LegalInv(c, trace);
    var s, m := Run(c, trace), LiveAllocs(c, trace);
    assert |s.live| == |s.live.Keys| && |m| == |m.Keys|;
    SumMapSame(LiveBytes, s.live, BytesIn(c), m);
  }

  // Exactly when a free fails, after any trace.

  function AllocKeyIn(page: nat, x: Allocation): AllocKey { AllocKey(page, x.order, x.migrate, x.gfp) }

  /** Some allocation of the trace succeeded with this call site, order, migrate type and flags. */
  predicate EverCalled(c: Config, trace: seq<Event>, k: CallerKey) {
    exists e | e in trace :: Succeeds(c, e) && CallerKeyIn(AllocationOf(e)) == k
  }

  predicate EverAllocated(c: Config, trace: seq<Event>, k: AllocKey) {
    exists e | e in trace :: Succeeds(c, e) && AllocKeyIn(e.page, AllocationOf(e)) == k
  }

  lemma AllocAddsKeys(c: Config, s: Kmem, e: Event)
    requires Shape(s) && WellFormed(e) && e.PageAlloc? && !c.livePage
    ensures var t := AllocPage(c, s, e);
            && t.caller.Keys == s.caller.Keys + (if Succeeds(c, e) then {CallerKeyIn(AllocationOf(e))} else {})
            && t.alloc.Keys == s.alloc.Keys + if Succeeds(c, e) then {AllocKeyIn(e.page, AllocationOf(e))} else {}
  {
    hide Bytes, CountOrder;
  }

  lemma FreeKeepsKeys(c: Config, s: Kmem, e: Event)
    requires Shape(s) && WellFormed(e) && e.PageFree? && !c.livePage
    requires forall p | p in s.live :: s.live[p].migrate < MAX_MIGRATE_TYPES
    ensures FreePage(c, s, e).0.caller.Keys == s.caller.Keys && FreePage(c, s, e).0.alloc.Keys == s.alloc.Keys
  {
    hide Bytes, CountOrder;
  }

  /** Outside live mode the tables list exactly what was ever allocated. */
  lemma {:induction false} KeysFromTrace(c: Config, trace: seq<Event>, k: CallerKey, j: AllocKey)
    requires WellFormedTrace(trace) && !c.livePage
    ensures k in Run(c, trace).caller <==> EverCalled(c, trace, k)
    ensures j in Run(c, trace).alloc <==> EverAllocated(c, trace, j)
  {
    hide AllocPage, FreePage, Tracked, LiveNext;
    if trace != [] {
      var before, e := trace[..|trace| - 1], trace[|trace| - 1];
      KeysFromTrace(c, before, k, j);
      assert trace == before + [e];
      var s := Run(c, before);
      LiveMigrates(s, LiveAllocs(c, before));
      if e.PageAlloc? { AllocAddsKeys(c, s, e); } else { FreeKeepsKeys(c, s, e); }
    }
  }

  /** The free of a live page counts against this key, which has the order of the free. */
  predicate FreesKey(m: map<nat, Allocation>, e: Event, k: CallerKey) {
    e.PageFree? && e.page in m && CallerKeyIn(m[e.page].(order := e.order)) == k
  }

  /** In live mode: the allocations with the key less the frees that count against it, never below 0. */
  function CallerCount(c: Config, trace: seq<Event>, k: CallerKey): nat {
    if trace == [] then 0
    else
      var before, e := trace[..|trace| - 1], trace[|trace| - 1];
      var n := CallerCount(c, before, k);
      if Succeeds(c, e) && CallerKeyIn(AllocationOf(e)) == k then n + 1
      else if FreesKey(LiveAllocs(c, before), e, k) && n > 0 then n - 1
      else n
  }

  /** The count that a caller table has for a key. */
  function CountIn(caller: map<CallerKey, PageStat>, k: CallerKey): int {
    if k in caller then caller[k].nrAlloc else 0
  }

  lemma AllocCounts(c: Config, s: Kmem, e: Event, k: CallerKey)
    requires Shape(s) && WellFormed(e) && e.PageAlloc?
    requires k in s.caller ==> s.caller[k].nrAlloc > 0
    ensures var t, here := AllocPage(c, s, e).caller, Succeeds(c, e) && CallerKeyIn(AllocationOf(e)) == k;
            && CountIn(t, k) == CountIn(s.caller, k) + (if here then 1 else 0)
            && (k in t ==> t[k].nrAlloc > 0)
  {
    hide Bytes, CountOrder;
  }

  lemma FreeCounts(c: Config, s: Kmem, e: Event, m: map<nat, Allocation>, k: CallerKey)
    requires Tracked(s, m) && WellFormed(e) && e.PageFree? && c.livePage
    requires forall p | p in s.live :: s.live[p].migrate < MAX_MIGRATE_TYPES
    requires k in s.caller ==> s.caller[k].nrAlloc > 0
    ensures var t := FreePage(c, s, e).0.caller;
            && CountIn(t, k) == CountIn(s.caller, k) - (if FreesKey(m, e, k) && k in s.caller then 1 else 0)
            && (k in t ==> t[k].nrAlloc > 0)
  {
    hide Bytes, CountOrder;
  }

  /** In live mode the caller table counts so after every trace, and lists a key while its count is positive. */
  lemma {:induction false} CallersCounted(c: Config, trace: seq<Event>, k: CallerKey)
    requires WellFormedTrace(trace) && c.livePage
    ensures k in Run(c, trace).caller <==> CallerCount(c, trace, k) > 0
    ensures CountIn(Run(c, trace).caller, k) == CallerCount(c, trace, k)
  {
    hide AllocPage, FreePage, Tracked, LiveNext;
    if trace != [] {
      var before, e := trace[..|trace| - 1], trace[|trace| - 1];
      var s, m := Run(c, before), LiveAllocs(c, before);
      CallersCounted(c, before, k);
      LiveMigrates(s, m);
      if e.PageAlloc? { AllocCounts(c, s, e, k); } else { FreeCounts(c, s, e, m, k); }
    }
  }

  /** After a legal trace this is the number of live pages with the key. */
  lemma LegalCount(c: Config, trace: seq<Event>, k: CallerKey)
    requires LegalRun(c, trace) && c.livePage
    ensures CallerCount(c, trace, k) == |Having(LiveAllocs(c, trace), CallerKeyIn, k)|
  {
    hide Run, LegalSteps, LiveAllocs, CallerCount, Having, Bytes, Tracked;
    LiveCallersExact(c, trace, k);
    CallersCounted(c, trace, k);
  }

  /** The call site is listed with the order of the free. */
  predicate CallerListed(c: Config, trace: seq<Event>, k: CallerKey) {
    if c.livePage then CallerCount(c, trace, k) > 0 else EverCalled(c, trace, k)
  }

  predicate AllocListed(c: Config, trace: seq<Event>, k: AllocKey) {
    c.livePage || EverAllocated(c, trace, k)
  }

  lemma CallerListedIs(c: Config, trace: seq<Event>, k: CallerKey)
    requires WellFormedTrace(trace)
    ensures k in Run(c, trace).caller <==> CallerListed(c, trace, k)
  {
    hide Run, Tracked, CallerCount, EverCalled;
    if c.livePage { CallersCounted(c, trace, k); } else { KeysFromTrace(c, trace, k, AllocKey(0, 0, 0, 0)); }
  }

  /**
   After every trace, for every free: it returns 0 if and only if the page is not live, or the
   entries it looks for, with the order of the free in place of the allocation's, are listed; -ENOMEM
   tells that the alloc entry is missing, -ENOENT the caller entry.
   */
  lemma FreeFailsExactly(c: Config, trace: seq<Event>, e: Event)
    requires WellFormedTrace(trace) && e.PageFree? && WellFormed(e)
    ensures var rc := FreeResult(c, trace, e);
            if e.page !in LiveAllocs(c, trace) then rc == 0
            else
              var x := LiveAllocs(c, trace)[e.page].(order := e.order);
              if !AllocListed(c, trace, AllocKeyIn(e.page, x)) then rc == -ENOMEM
              else if !CallerListed(c, trace, CallerKeyIn(x)) then rc == -ENOENT
              else rc == 0
  {
    hide Run, LiveAllocs, Bytes, CountOrder, FreeCaller, CallerListed, EverAllocated, WellFormedTrace;
    var m := LiveAllocs(c, trace);
    LiveMigrates(Run(c, trace), m);
    if e.page in m {
      var x := m[e.page].(order := e.order);
      CallerListedIs(c, trace, CallerKeyIn(x));
      if !c.livePage { KeysFromTrace(c, trace, CallerKeyIn(x), AllocKeyIn(e.page, x)); }
    }
  }

  // Every reported number, after any trace.

  function Power(n: nat): nat { if n == 0 then 1 else 2 * Power(n - 1) }

  lemma {:induction false} BytesAre(c: Config, order: nat)
    ensures Bytes(c, order) == c.pageSize * Power(order)
  {
    if order > 0 {
      BytesAre(c, order - 1);
      assert 2 * (c.pageSize * Power(order - 1)) == c.pageSize * (2 * Power(order - 1));
    }
  }

  /** Something about an event, given what came before it. */
  type Which = (seq<Event>, Event) -> bool

  function Tally(trace: seq<Event>, p: Which): nat {
    if trace == [] then 0
    else
      var before, e := trace[..|trace| - 1], trace[|trace| - 1];
      Tally(before, p) + if p(before, e) then 1 else 0
  }

  function TallyBytes(c: Config, trace: seq<Event>, p: Which): nat {
    if trace == [] then 0
    else
      var before, e := trace[..|trace| - 1], trace[|trace| - 1];
      TallyBytes(c, before, p) + if p(before, e) then Bytes(c, e.order) else 0
  }

  function Allocates(): Which { (before: seq<Event>, e: Event) => e.PageAlloc? }
  function Frees(): Which { (before: seq<Event>, e: Event) => e.PageFree? }

  function Fails(c: Config): Which {
    (before: seq<Event>, e: Event) => e.PageAlloc? && !Succeeds(c, e)
  }

  function Unmatched(c: Config): Which {
    (before: seq<Event>, e: Event) => e.PageFree? && e.page !in LiveAllocs(c, before)
  }

  lemma {:induction false} TotalsCounted(c: Config, trace: seq<Event>)
    requires WellFormedTrace(trace)
    ensures var s := Run(c, trace);
            && s.nrAllocs == Tally(trace, Allocates()) && s.allocBytes == TallyBytes(c, trace, Allocates())
            && s.nrFails == Tally(trace, Fails(c)) && s.failBytes == TallyBytes(c, trace, Fails(c))
            && s.nrFrees == Tally(trace, Frees()) && s.freeBytes == TallyBytes(c, trace, Frees())
            && s.nrNomatch == Tally(trace, Unmatched(c)) && s.nomatchBytes == TallyBytes(c, trace, Unmatched(c))
  {
    hide AllocPage, FreePage, LiveNext, Bytes, Tracked;
    if trace != [] {
      var before, e := trace[..|trace| - 1], trace[|trace| - 1];
      TotalsCounted(c, before);
      var s, m := Run(c, before), LiveAllocs(c, before);
      LiveMigrates(s, m);
      if e.PageAlloc? { AllocSums(c, s, e); } else { FreeSums(c, s, e, m); }
    }
  }

  lemma AllocSums(c: Config, s: Kmem, e: Event)
    requires Shape(s) && WellFormed(e) && e.PageAlloc?
    ensures var t, bytes := AllocPage(c, s, e), Bytes(c, e.order);
            && t.nrAllocs == s.nrAllocs + 1 && t.allocBytes == s.allocBytes + bytes
            && t.nrFails == s.nrFails + (if Succeeds(c, e) then 0 else 1)
            && t.failBytes == s.failBytes + (if Succeeds(c, e) then 0 else bytes)
            && t.nrFrees == s.nrFrees && t.freeBytes == s.freeBytes
            && t.nrNomatch == s.nrNomatch && t.nomatchBytes == s.nomatchBytes
  {
    hide Bytes, CountOrder;
  }

  lemma FreeSums(c: Config, s: Kmem, e: Event, m: map<nat, Allocation>)
    requires Tracked(s, m) && WellFormed(e) && e.PageFree?
    requires forall p | p in s.live :: s.live[p].migrate < MAX_MIGRATE_TYPES
    ensures var t, bytes := FreePage(c, s, e).0, Bytes(c, e.order);
            && t.nrFrees == s.nrFrees + 1 && t.freeBytes == s.freeBytes + bytes
            && t.nrNomatch == s.nrNomatch + (if e.page in m then 0 else 1)
            && t.nomatchBytes == s.nomatchBytes + (if e.page in m then 0 else bytes)
            && t.nrAllocs == s.nrAllocs && t.allocBytes == s.allocBytes
            && t.nrFails == s.nrFails && t.failBytes == s.failBytes
  {
    hide Bytes, CountOrder, FreeCaller;
  }

  /** What an entry counts; a missing one counts nothing. */
  datatype Numbers = Numbers(nrAlloc: int, allocBytes: int, nrFree: int, freeBytes: int)

  function NumbersOf<K>(t: map<K, PageStat>, k: K): Numbers {
    if k in t then Numbers(t[k].nrAlloc, t[k].allocBytes, t[k].nrFree, t[k].freeBytes) else Numbers(0, 0, 0, 0)
  }

  function Called(c: Config, k: CallerKey): Which {
    (before: seq<Event>, e: Event) => Succeeds(c, e) && CallerKeyIn(AllocationOf(e)) == k
  }

  function PageCalled(c: Config, k: AllocKey): Which {
    (before: seq<Event>, e: Event) => Succeeds(c, e) && AllocKeyIn(e.page, AllocationOf(e)) == k
  }

  /** A free of a live page whose alloc entry, with the order of the free, is listed. */
  predicate FreesPage(c: Config, before: seq<Event>, e: Event) {
    && e.PageFree? && e.page in LiveAllocs(c, before)
    && AllocListed(c, before, AllocKeyIn(e.page, LiveAllocs(c, before)[e.page].(order := e.order)))
  }

  function PageFreed(c: Config, k: AllocKey): Which {
    (before: seq<Event>, e: Event) =>
      FreesPage(c, before, e) && AllocKeyIn(e.page, LiveAllocs(c, before)[e.page].(order := e.order)) == k
  }

  function CallerFreed(c: Config, k: CallerKey): Which {
    (before: seq<Event>, e: Event) =>
      FreesPage(c, before, e) && FreesKey(LiveAllocs(c, before), e, k) && CallerListed(c, before, k)
  }

  lemma AllocNumbers(c: Config, s: Kmem, e: Event, k: CallerKey, j: AllocKey)
    requires Shape(s) && WellFormed(e) && e.PageAlloc?
    ensures var t, bytes := AllocPage(c, s, e), Bytes(c, e.order);
            var n, a := NumbersOf(s.caller, k), NumbersOf(s.alloc, j);
            && NumbersOf(t.caller, k) ==
               (if Succeeds(c, e) && CallerKeyIn(AllocationOf(e)) == k
                then n.(nrAlloc := n.nrAlloc + 1, allocBytes := n.allocBytes + bytes) else n)
            && NumbersOf(t.alloc, j) ==
               (if !c.livePage && Succeeds(c, e) && AllocKeyIn(e.page, AllocationOf(e)) == j
                then a.(nrAlloc := a.nrAlloc + 1, allocBytes := a.allocBytes + bytes) else a)
  {
    hide Bytes, CountOrder;
  }

  /** The numbers of an entry after a free that counts against it. */
  function FreedNumbers(n: Numbers, bytes: nat): Numbers {
    n.(nrFree := n.nrFree + 1, freeBytes := n.freeBytes + bytes)
  }

  lemma FreeNumbers(c: Config, s: Kmem, e: Event, m: map<nat, Allocation>, k: CallerKey, j: AllocKey)
    requires Tracked(s, m) && WellFormed(e) && e.PageFree? && !c.livePage
    requires forall p | p in s.live :: s.live[p].migrate < MAX_MIGRATE_TYPES
    ensures var t, bytes := FreePage(c, s, e).0, Bytes(c, e.order);
            var found := e.page in m && AllocKeyIn(e.page, m[e.page].(order := e.order)) in s.alloc;
            && NumbersOf(t.caller, k) ==
               (if found && FreesKey(m, e, k) && k in s.caller then FreedNumbers(NumbersOf(s.caller, k), bytes)
                else NumbersOf(s.caller, k))
            && NumbersOf(t.alloc, j) ==
               (if found && AllocKeyIn(e.page, m[e.page].(order := e.order)) == j
                then FreedNumbers(NumbersOf(s.alloc, j), bytes) else NumbersOf(s.alloc, j))
  {
    hide Bytes, CountOrder;
  }

  /**
   Outside live mode, after every trace: an entry of either table counts the successful allocations with
   its key and the frees found under it, in pages and in bytes.
   */
  lemma {:induction false} EntriesCounted(c: Config, trace: seq<Event>, k: CallerKey, j: AllocKey)
    requires WellFormedTrace(trace) && !c.livePage
    ensures NumbersOf(Run(c, trace).caller, k) ==
            Numbers(Tally(trace, Called(c, k)), TallyBytes(c, trace, Called(c, k)),
                    Tally(trace, CallerFreed(c, k)), TallyBytes(c, trace, CallerFreed(c, k)))
    ensures NumbersOf(Run(c, trace).alloc, j) ==
            Numbers(Tally(trace, PageCalled(c, j)), TallyBytes(c, trace, PageCalled(c, j)),
                    Tally(trace, PageFreed(c, j)), TallyBytes(c, trace, PageFreed(c, j)))
  {
    hide AllocPage, FreePage, LiveNext, Bytes, Tracked, EverAllocated, CallerListed, NumbersOf;
    if trace == [] {
      NoNumbers(k, j);
    } else {
      var before, e := trace[..|trace| - 1], trace[|trace| - 1];
      EntriesCounted(c, before, k, j);
      var s, m := Run(c, before), LiveAllocs(c, before);
      LiveMigrates(s, m);
      if e.PageAlloc? {
        AllocNumbers(c, s, e, k, j);
      } else {
        FreeNumbers(c, s, e, m, k, j);
        CallerListedIs(c, before, k);
        if e.page in m {
          KeysFromTrace(c, before, k, AllocKeyIn(e.page, m[e.page].(order := e.order)));
        }
      }
    }
  }

  lemma NoNumbers(k: CallerKey, j: AllocKey)
    ensures NumbersOf(Empty().caller, k) == Numbers(0, 0, 0, 0) == NumbersOf(Empty().alloc, j)
  {
  }

  /** In live mode an entry counts what is left of its key, and starts over once nothing is left. */
  function LiveNumbers(c: Config, trace: seq<Event>, k: CallerKey): Numbers {
    if trace == [] then Numbers(0, 0, 0, 0)
    else
      var before, e := trace[..|trace| - 1], trace[|trace| - 1];
      var n, bytes := LiveNumbers(c, before, k), Bytes(c, e.order);
      if Succeeds(c, e) && CallerKeyIn(AllocationOf(e)) == k then
        n.(nrAlloc := n.nrAlloc + 1, allocBytes := n.allocBytes + bytes)
      else if FreesKey(LiveAllocs(c, before), e, k) && CallerCount(c, before, k) > 0 then
        if CallerCount(c, before, k) == 1 then Numbers(0, 0, 0, 0)
        else FreedNumbers(n, bytes).(nrAlloc := n.nrAlloc - 1, allocBytes := n.allocBytes - bytes)
      else n
  }

  lemma FreeLiveNumbers(c: Config, s: Kmem, e: Event, m: map<nat, Allocation>, k: CallerKey)
    requires Tracked(s, m) && WellFormed(e) && e.PageFree? && c.livePage
    requires forall p | p in s.live :: s.live[p].migrate < MAX_MIGRATE_TYPES
    ensures var n, bytes := NumbersOf(s.caller, k), Bytes(c, e.order);
            NumbersOf(FreePage(c, s, e).0.caller, k) ==
            if !FreesKey(m, e, k) || k !in s.caller then n
            else if n.nrAlloc == 1 then Numbers(0, 0, 0, 0)
            else FreedNumbers(n, bytes).(nrAlloc := n.nrAlloc - 1, allocBytes := n.allocBytes - bytes)
  {
    hide Bytes, CountOrder;
  }

  lemma {:induction false} LiveEntriesCounted(c: Config, trace: seq<Event>, k: CallerKey)
    requires WellFormedTrace(trace) && c.livePage
    ensures NumbersOf(Run(c, trace).caller, k) == LiveNumbers(c, trace, k)
  {
    hide AllocPage, FreePage, LiveNext, Bytes, Tracked, CallerCount, FreesKey;
    if trace == [] {
      NoNumbers(k, AllocKey(0, 0, 0, 0));
    } else {
      var before, e := trace[..|trace| - 1], trace[|trace| - 1];
      LiveEntriesCounted(c, before, k);
      CallersCounted(c, before, k);
      var s, m := Run(c, before), LiveAllocs(c, before);
      LiveMigrates(s, m);
      if e.PageAlloc? {
        AllocNumbers(c, s, e, k, AllocKey(0, 0, 0, 0));
        NoFree(m, e, k);
      } else {
        FreeLiveNumbers(c, s, e, m, k);
      }
    }
  }

  lemma NoFree(m: map<nat, Allocation>, e: Event, k: CallerKey)
    requires e.PageAlloc?
    ensures !FreesKey(m, e, k)
  {
  }

  /** Pages of an order and migrate type: those allocated and, in live mode, less the live ones freed so. */
  function OrderCount(c: Config, trace: seq<Event>, o: nat, t: nat): int {
    if trace == [] then 0
    else
      var before, e := trace[..|trace| - 1], trace[|trace| - 1];
      OrderCount(c, before, o, t) +
      if Succeeds(c, e) && e.order == o && e.migrate == t then 1
      else if c.livePage && e.PageFree? && e.order == o && e.page in LiveAllocs(c, before) &&
              LiveAllocs(c, before)[e.page].migrate == t then -1
      else 0
  }

  lemma AllocOrder(c: Config, s: Kmem, e: Event, o: nat, t: nat)
    requires Shape(s) && WellFormed(e) && e.PageAlloc? && o < MAX_PAGE_ORDER && t < MAX_MIGRATE_TYPES
    ensures var r := AllocPage(c, s, e);
            Shape(r) && r.orderStats[o][t] ==
              s.orderStats[o][t] + if Succeeds(c, e) && e.order == o && e.migrate == t then 1 else 0
  {
    hide Bytes;
  }

  lemma FreeOrder(c: Config, s: Kmem, e: Event, m: map<nat, Allocation>, o: nat, t: nat)
    requires Tracked(s, m) && WellFormed(e) && e.PageFree? && o < MAX_PAGE_ORDER && t < MAX_MIGRATE_TYPES
    requires forall p | p in s.live :: s.live[p].migrate < MAX_MIGRATE_TYPES
    ensures var r := FreePage(c, s, e).0;
            Shape(r) && r.orderStats[o][t] ==
              s.orderStats[o][t] - if c.livePage && e.page in m && e.order == o && m[e.page].migrate == t then 1 else 0
  {
    hide Bytes, FreeCaller;
  }

  /** After every trace, in both modes. */
  lemma {:induction false} OrdersCounted(c: Config, trace: seq<Event>, o: nat, t: nat)
    requires WellFormedTrace(trace) && o < MAX_PAGE_ORDER && t < MAX_MIGRATE_TYPES
    ensures Shape(Run(c, trace)) && Run(c, trace).orderStats[o][t] == OrderCount(c, trace, o, t)
  {
    hide AllocPage, FreePage, LiveNext, Tracked, Shape;
    if trace == [] {
      NoOrders(o, t);
    } else {
      var before, e := trace[..|trace| - 1], trace[|trace| - 1];
      OrdersCounted(c, before, o, t);
      var s, m := Run(c, before), LiveAllocs(c, before);
      LiveMigrates(s, m);
      if e.PageAlloc? { AllocOrder(c, s, e, o, t); } else { FreeOrder(c, s, e, m, o, t); }
    }
  }

  lemma NoOrders(o: nat, t: nat)
    requires o < MAX_PAGE_ORDER && t < MAX_MIGRATE_TYPES
    ensures Shape(Empty()) && Empty().orderStats[o][t] == 0
  {
  }

  /** The call site shown for a page is that of the last allocation with its key. */
  function LastSite(c: Config, trace: seq<Event>, k: AllocKey): nat {
    if trace == [] then 0
    else
      var e := trace[|trace| - 1];
      if Succeeds(c, e) && AllocKeyIn(e.page, AllocationOf(e)) == k then e.callsite
      else LastSite(c, trace[..|trace| - 1], k)
  }

  lemma {:induction false} SitesShown(c: Config, trace: seq<Event>, k: AllocKey)
    requires WellFormedTrace(trace) && !c.livePage && k in Run(c, trace).alloc
    ensures Run(c, trace).alloc[k].callsite == LastSite(c, trace, k)
  {
    hide AllocPage, FreePage, LiveNext, Tracked;
    var before, e := trace[..|trace| - 1], trace[|trace| - 1];
    var s := Run(c, before);
    LiveMigrates(s, LiveAllocs(c, before));
    StepSites(c, s, e, k);
    if k in s.alloc { SitesShown(c, before, k); }
  }

  lemma StepSites(c: Config, s: Kmem, e: Event, k: AllocKey)
    requires Shape(s) && WellFormed(e) && !c.livePage
    requires forall p | p in s.live :: s.live[p].migrate < MAX_MIGRATE_TYPES
    ensures var t := (if e.PageAlloc? then AllocPage(c, s, e) else FreePage(c, s, e).0).alloc;
            var here := Succeeds(c, e) && AllocKeyIn(e.page, AllocationOf(e)) == k;
            && (k in t <==> k in s.alloc || here)
            && (k in t ==> t[k].callsite == if here then e.callsite else s.alloc[k].callsite)
  {
    hide Bytes, CountOrder, FreeCaller;
  }

  lemma Longer(c: Config, t: seq<Event>, e: Event)
    ensures LegalRun(c, t + [e]) <==> LegalRun(c, t) && LegalNext(c, t, e)
    ensures WellFormedTrace(t + [e]) <==> WellFormedTrace(t) && WellFormed(e)
    ensures LiveAllocs(c, t + [e]) == LiveNext(c, LiveAllocs(c, t), e)
  {
    hide LiveNext;
    var u := t + [e];
    assert u[..|u| - 1] == t && u[|u| - 1] == e;
    assert WellFormedTrace(u) ==> WellFormed(u[|t|]);
    assert WellFormedTrace(u) ==> forall i | 0 <= i < |t| :: t[i] == u[i] && WellFormed(t[i]);
  }

  lemma CountLonger(c: Config, t: seq<Event>, e: Event, k: CallerKey)
    ensures CallerCount(c, t + [e], k) ==
            var n := CallerCount(c, t, k);
            if Succeeds(c, e) && CallerKeyIn(AllocationOf(e)) == k then n + 1
            else if FreesKey(LiveAllocs(c, t), e, k) && n > 0 then n - 1
            else n
  {
    hide LiveAllocs, FreesKey;
    assert (t + [e])[..|t + [e]| - 1] == t;
  }

  /** One page allocated with order 0 and freed with order 1. */
  lemma MismatchedOrderFails(livePage: bool)
    ensures var c := Config(false, livePage, 4096);
            var s := AllocPage(c, Empty(), PageAlloc(1, 0, 0, 0, 7));
            Shape(s) && FreePage(c, s, PageFree(1, 1)).1 == if livePage then -ENOENT else -ENOMEM
  {
  }

  /**
   In live mode, when two live pages free against the same key and it counts only one: whichever is freed
   first takes the count, and the free of the other fails.
   */
  lemma MismatchFailsLater(c: Config, t: seq<Event>, e: Event, f: Event, k: CallerKey)
    requires WellFormedTrace(t) && c.livePage && WellFormed(e) && WellFormed(f) && e.page != f.page
    requires FreesKey(LiveAllocs(c, t), e, k) && FreesKey(LiveAllocs(c, t), f, k) && CallerCount(c, t, k) == 1
    ensures WellFormedTrace(t + [e])
    ensures FreeResult(c, t, e) == 0 && FreeResult(c, t + [e], f) == -ENOENT
  {
    hide FreeResult, LiveAllocs, CallerCount, EverAllocated;
    FreeFailsExactly(c, t, e);
    Longer(c, t, e);
    CountLonger(c, t, e, k);
    FreeFailsExactly(c, t + [e], f);
  }

  /** Such a trace: the free of page 1 with order 1 takes the count of page 2, whose own free then fails. */
  lemma MismatchedOrderPassesLive(c: Config, a: Event, b: Event)
    requires c == Config(false, true, 4096) && a == PageAlloc(2, 1, 0, 0, 7) && b == PageAlloc(1, 0, 0, 0, 7)
    ensures LegalRun(c, [a] + [b]) && LegalNext(c, [a] + [b], PageFree(2, 1))
    ensures FreeResult(c, [a] + [b], PageFree(1, 1)) == 0
    ensures WellFormedTrace([a] + [b] + [PageFree(1, 1)])
    ensures FreeResult(c, [a] + [b] + [PageFree(1, 1)], PageFree(2, 1)) == -ENOENT
  {
    hide FreeResult, LiveAllocs, CallerCount, LegalSteps;
    var none: seq<Event>, k := [], CallerKey(7, 1, 0, 0);
    assert none + [a] == [a];
    NoneYet(c, k);
    Longer(c, none, a);
    Longer(c, [a], b);
    CountLonger(c, none, a, k);
    CountLonger(c, [a], b, k);
    assert LiveAllocs(c, [a]) == map[2 := AllocationOf(a)];
    assert LiveAllocs(c, [a] + [b]) == map[2 := AllocationOf(a), 1 := AllocationOf(b)];
    MismatchFailsLater(c, [a] + [b], PageFree(1, 1), PageFree(2, 1), k);
  }

  lemma NoneYet(c: Config, k: CallerKey)
    ensures LegalRun(c, []) && LiveAllocs(c, []) == map[] && CallerCount(c, [], k) == 0
  {
  }

  /** Outside live mode it passes if the page was allocated with that order before. */
  lemma MismatchedOrderPassesOnce(c: Config, a: Event, f: Event, b: Event)
    requires c == Config(false, false, 4096)
    requires a == PageAlloc(1, 1, 0, 0, 7) && f == PageFree(1, 1) && b == PageAlloc(1, 0, 0, 0, 7)
    ensures LegalRun(c, [a] + [f] + [b]) && FreeResult(c, [a] + [f] + [b], PageFree(1, 1)) == 0
  {
    hide FreeResult, LiveAllocs, LegalSteps;
    var none: seq<Event> := [];
    assert none + [a] == [a];
    NoneYet(c, CallerKey(7, 1, 0, 0));
    Longer(c, none, a);
    Longer(c, [a], f);
    Longer(c, [a] + [f], b);
    var t := [a] + [f] + [b];
    assert LiveAllocs(c, t) == map[1 := AllocationOf(b)];
    assert t[0] == a && a in t;
    assert EverAllocated(c, t, AllocKey(1, 1, 0, 0)) && EverCalled(c, t, CallerKey(7, 1, 0, 0));
    FreeFailsExactly(c, t, PageFree(1, 1));
  }

  /** After a double allocation the free looks for the second call site with the first one's flags. */
  lemma DoubleAllocation(c: Config, a: Event, b: Event)
    requires c == Config(false, false, 4096) && a == PageAlloc(1, 0, 0, 0, 7) && b == PageAlloc(1, 0, 0, 1, 8)
    ensures WellFormedTrace([a] + [b]) && !LegalRun(c, [a] + [b])
    ensures FreeResult(c, [a] + [b], PageFree(1, 0)) == -ENOENT
  {
    hide FreeResult, LiveAllocs, LegalSteps;
    var none: seq<Event>, t := [], [a] + [b];
    assert none + [a] == [a];
    NoneYet(c, CallerKey(8, 0, 0, 0));
    Longer(c, none, a);
    Longer(c, [a], b);
    assert LiveAllocs(c, t) == map[1 := AllocationOf(a).(callsite := 8)];
    assert t[0] == a && a in t;
    assert EverAllocated(c, t, AllocKey(1, 0, 0, 0)) && !EverCalled(c, t, CallerKey(8, 0, 0, 0));
    FreeFailsExactly(c, t, PageFree(1, 0));
  }
}
