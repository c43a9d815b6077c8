/** Slab mode of `perf kmem`: one tree per pointer, one per call site, and totals that all agree. */
module KmemSlab {
  import opened Sums
  import opened RbTree

  datatype SlabStat = SlabStat(callSite: nat, ptr: nat, bytesReq: int, bytesAlloc: int, lastAlloc: int,
                               hit: int, pingpong: int, allocCpu: int)

  datatype Slab = Slab(allocs: map<int, SlabStat>, callers: map<int, SlabStat>,
                       totalRequested: int, totalAllocated: int, totalFreed: int, nrAllocs: int, nrCrossAllocs: int)

  datatype Event =
    | Kmalloc(callSite: nat, ptr: nat, bytesReq: int, bytesAlloc: int, cpu: nat, crossNode: bool)
    | Kfree(ptr: nat, cpu: nat)

  function Empty(): Slab { Slab(map[], map[], 0, 0, 0, 0, 0) }

  /** A CPU number stored in a C short. */
  function Short(cpu: nat): int {
    var u := cpu % 0x1_0000;
    if u < 0x8000 then u else u - 0x1_0000
  }

  function Counted(s: SlabStat, req: int, bytes: int): SlabStat {
    s.(hit := s.hit + 1, bytesReq := s.bytesReq + req, bytesAlloc := s.bytesAlloc + bytes)
  }

  function NewAlloc(ptr: nat): SlabStat { SlabStat(0, ptr, 0, 0, 0, 0, 0, 0) }
  function NewCaller(callSite: nat): SlabStat { SlabStat(callSite, 0, 0, 0, 0, 0, 0, 0) }

  function Bounced(s: SlabStat): SlabStat { s.(pingpong := s.pingpong + 1) }

  function Alloc(s: Slab, e: Event): Slab
    requires e.Kmalloc?
  {
    var a := Counted(Get(s.allocs, e.ptr, NewAlloc(e.ptr)), e.bytesReq, e.bytesAlloc)
             .(callSite := e.callSite, allocCpu := Short(e.cpu), lastAlloc := e.bytesAlloc);
    Slab(s.allocs[e.ptr := a],
         s.callers[e.callSite := Counted(Get(s.callers, e.callSite, NewCaller(e.callSite)), e.bytesReq, e.bytesAlloc)],
         s.totalRequested + e.bytesReq, s.totalAllocated + e.bytesAlloc, s.totalFreed, s.nrAllocs + 1,
         s.nrCrossAllocs + if e.crossNode then 1 else 0)
  }

  /** The new state and the return value; freeing an unknown pointer does nothing. */
  function Free(s: Slab, e: Event): (Slab, int)
    requires e.Kfree?
  {
    if e.ptr !in s.allocs then (s, 0)
    else
      var a := s.allocs[e.ptr];
      var s := s.(totalFreed := s.totalFreed + a.lastAlloc);
      if Short(e.cpu) == a.allocCpu then (s.(allocs := s.allocs[e.ptr := a.(allocCpu := -1)]), 0)
      else if a.callSite !in s.callers then (s.(allocs := s.allocs[e.ptr := Bounced(a)]), -1)
      else
        (s.(allocs := s.allocs[e.ptr := Bounced(a).(allocCpu := -1)],
            callers := s.callers[a.callSite := Bounced(s.callers[a.callSite])]), 0)
  }

  function Step(s: Slab, e: Event): Slab {
    if e.Kmalloc? then Alloc(s, e) else Free(s, e).0
  }

  function Run(trace: seq<Event>): Slab {
    if trace == [] then Empty() else Step(Run(trace[..|trace| - 1]), trace[|trace| - 1])
  }

  // The trees agree with each other and with the totals.

  function Hit(s: SlabStat): int { s.hit }
  function Req(s: SlabStat): int { s.bytesReq }
  function Bytes(s: SlabStat): int { s.bytesAlloc }
  function Pingpong(s: SlabStat): int { s.pingpong }

  ghost predicate Inv(s: Slab) {
    && (forall p | p in s.allocs :: s.allocs[p].ptr == p && s.allocs[p].callSite in s.callers)
    && (forall k | k in s.callers :: s.callers[k].callSite == k)
    && SumMap(Hit, s.allocs) == SumMap(Hit, s.callers) == s.nrAllocs
    && SumMap(Req, s.allocs) == SumMap(Req, s.callers) == s.totalRequested
    && SumMap(Bytes, s.allocs) == SumMap(Bytes, s.callers) == s.totalAllocated
    && SumMap(Pingpong, s.allocs) == SumMap(Pingpong, s.callers)
  }

  lemma PutSums(m: map<int, SlabStat>, k: int, v: SlabStat)
    ensures SumMap(Hit, m[k := v]) == SumMap(Hit, m) + v.hit - (if k in m then m[k].hit else 0)
    ensures SumMap(Req, m[k := v]) == SumMap(Req, m) + v.bytesReq - (if k in m then m[k].bytesReq else 0)
    ensures SumMap(Bytes, m[k := v]) == SumMap(Bytes, m) + v.bytesAlloc - (if k in m then m[k].bytesAlloc else 0)
    ensures SumMap(Pingpong, m[k := v]) == SumMap(Pingpong, m) + v.pingpong - (if k in m then m[k].pingpong else 0)
  {
    hide SumMap;
    SumMapPut(Hit, m, k, v);
    SumMapPut(Req, m, k, v);
    SumMapPut(Bytes, m, k, v);
    SumMapPut(Pingpong, m, k, v);
  }

  lemma AllocKeepsInv(s: Slab, e: Event)
    requires Inv(s) && e.Kmalloc?
    ensures Inv(Alloc(s, e))
  {
    hide SumMap;
    var s' := Alloc(s, e);
    PutSums(s.allocs, e.ptr, s'.allocs[e.ptr]);
    PutSums(s.callers, e.callSite, s'.callers[e.callSite]);
  }

  /** The caller of a known pointer is always found, so a free never fails. */
  lemma FreeKeepsInv(s: Slab, e: Event)
    requires Inv(s) && e.Kfree?
    ensures Inv(Free(s, e).0) && Free(s, e).1 == 0
  {
    hide SumMap;
    if e.ptr in s.allocs {
      var s', a := Free(s, e).0, s.allocs[e.ptr];
      PutSums(s.allocs, e.ptr, s'.allocs[e.ptr]);
      PutSums(s.callers, a.callSite, s'.callers[a.callSite]);
      assert s'.callers[a.callSite := s'.callers[a.callSite]] == s'.callers;
    }
  }

  /**
   For every trace: hits, requested and allocated bytes agree in both trees and with the totals, and so do
   ping-pongs.
   */
  lemma {:induction false} TreesAgree(trace: seq<Event>)
    ensures Inv(Run(trace))
  {
    if trace != [] {
      TreesAgree(trace[..|trace| - 1]);
      var e := trace[|trace| - 1];
      if e.Kmalloc? {
        AllocKeepsInv(Run(trace[..|trace| - 1]), e);
      } else {
        FreeKeepsInv(Run(trace[..|trace| - 1]), e);
      }
    }
  }

  lemma FreeNeverFails(trace: seq<Event>, e: Event)
    requires e.Kfree?
    ensures Free(Run(trace), e).1 == 0
  {
    TreesAgree(trace);
    FreeKeepsInv(Run(trace), e);
  }

  // Bytes in use.

  /** The pointers allocated and not freed since. */
  function LivePtrs(trace: seq<Event>): set<int> {
    if trace == [] then {}
    else
      var live, e := LivePtrs(trace[..|trace| - 1]), trace[|trace| - 1];
      if e.Kmalloc? then live + {e.ptr} else live - {e.ptr}
  }

  /** The pointers ever allocated. */
  function Allocated(trace: seq<Event>): set<int> {
    if trace == [] then {}
    else
      var before, e := Allocated(trace[..|trace| - 1]), trace[|trace| - 1];
      if e.Kmalloc? then before + {e.ptr} else before
  }

  /** The bytes of the last allocation of a pointer, 0 if it was never allocated. */
  function LastBytes(trace: seq<Event>, ptr: int): int {
    if trace == [] then 0
    else
      var e := trace[|trace| - 1];
      if e.Kmalloc? && e.ptr == ptr then e.bytesAlloc else LastBytes(trace[..|trace| - 1], ptr)
  }

  /** What each live pointer holds. */
  function Held(trace: seq<Event>): map<int, int> {
    map p | p in LivePtrs(trace) :: LastBytes(trace, p)
  }

  function Amount(bytes: int): int { bytes }

  ghost function BytesHeld(trace: seq<Event>): int { SumMap(Amount, Held(trace)) }

  /** No pointer is allocated while in use, and none is freed twice. */
  predicate Alternates(trace: seq<Event>) {
    trace == [] ||
    (var before, e := trace[..|trace| - 1], trace[|trace| - 1];
     Alternates(before) &&
     if e.Kmalloc? then e.ptr !in LivePtrs(before) else e.ptr in Allocated(before) ==> e.ptr in LivePtrs(before))
  }

  /** Bytes lost when a live pointer is allocated again, less the bytes a repeated free counts again. */
  function Drift(trace: seq<Event>): int {
    if trace == [] then 0
    else
      var before, e := trace[..|trace| - 1], trace[|trace| - 1];
      var last := LastBytes(before, e.ptr);
      Drift(before) +
      if e.Kmalloc? then (if e.ptr in LivePtrs(before) then last else 0)
      else (if e.ptr in LivePtrs(before) then 0 else -last)
  }

  /** The pointer tree has the pointers ever allocated, each with the bytes of its last allocation. */
  lemma {:induction false} LastAllocs(trace: seq<Event>)
    ensures Run(trace).allocs.Keys == Allocated(trace)
    ensures forall p | p in Allocated(trace) :: Run(trace).allocs[p].lastAlloc == LastBytes(trace, p)
    ensures forall p | p !in Allocated(trace) :: LastBytes(trace, p) == 0
  {
    hide Step;
    if trace != [] {
      LastAllocs(trace[..|trace| - 1]);
      StepLast(Run(trace[..|trace| - 1]), trace[|trace| - 1]);
    }
  }

  lemma StepLast(s: Slab, e: Event)
    ensures Step(s, e).allocs.Keys == s.allocs.Keys + if e.Kmalloc? then {e.ptr} else {}
    ensures e.Kmalloc? ==> Step(s, e).allocs[e.ptr].lastAlloc == e.bytesAlloc
    ensures forall p | p in s.allocs && !(e.Kmalloc? && p == e.ptr) ::
              Step(s, e).allocs[p].lastAlloc == s.allocs[p].lastAlloc
  {
  }

  lemma {:induction false} LiveAllocated(trace: seq<Event>)
    ensures LivePtrs(trace) <= Allocated(trace)
  {
    if trace != [] { LiveAllocated(trace[..|trace| - 1]); }
  }

  /** The pointer tree and the trace agree on what the live pointers hold. */
  lemma LiveTree(trace: seq<Event>)
    ensures LivePtrs(trace) <= Run(trace).allocs.Keys
    ensures Held(trace) == map p | p in LivePtrs(trace) :: Run(trace).allocs[p].lastAlloc
  {
    hide Run, LastBytes, Allocated, LivePtrs;
    LastAllocs(trace);
    LiveAllocated(trace);
  }

  lemma HeldNext(trace: seq<Event>)
    requires trace != []
    ensures var before, e := trace[..|trace| - 1], trace[|trace| - 1];
            BytesHeld(trace) == BytesHeld(before) +
              (if e.Kmalloc? then e.bytesAlloc else 0) -
              if e.ptr in LivePtrs(before) then LastBytes(before, e.ptr) else 0
  {
    hide SumMap;
    var before, e := trace[..|trace| - 1], trace[|trace| - 1];
    if e.Kmalloc? {
      assert Held(trace) == Held(before)[e.ptr := e.bytesAlloc];
      SumMapPut(Amount, Held(before), e.ptr, e.bytesAlloc);
    } else {
      assert Held(trace) == Held(before) - {e.ptr};
      if e.ptr in LivePtrs(before) {
        SumMapAny(Amount, Held(before), e.ptr);
      } else {
        assert Held(before) - {e.ptr} == Held(before);
      }
    }
  }

  /** For every trace: allocated minus freed bytes are what the live pointers hold, plus the drift. */
  lemma {:induction false} BytesAccounted(trace: seq<Event>)
    ensures Run(trace).totalAllocated - Run(trace).totalFreed == BytesHeld(trace) + Drift(trace)
  {
    hide BytesHeld, LastBytes, LivePtrs, Allocated;
    if trace == [] {
      NothingHeld();
    } else {
      var before := trace[..|trace| - 1];
      BytesAccounted(before);
      LastAllocs(before);
      LiveAllocated(before);
      HeldNext(trace);
    }
  }

  lemma NothingHeld()
    ensures BytesHeld([]) == 0
  {
    assert Held([]) == map[];
  }

  /** The totals tell what is in use exactly when there is no drift; when pointers alternate there is none. */
  lemma BytesInUse(trace: seq<Event>)
    ensures Run(trace).totalAllocated - Run(trace).totalFreed == BytesHeld(trace) <==> Drift(trace) == 0
    ensures Alternates(trace) ==> Drift(trace) == 0
  {
    hide Run, BytesHeld, Drift, Alternates;
    BytesAccounted(trace);
    if Alternates(trace) { NoDrift(trace); }
  }

  lemma {:induction false} NoDrift(trace: seq<Event>)
    requires Alternates(trace)
    ensures Drift(trace) == 0
  {
    if trace != [] {
      NoDrift(trace[..|trace| - 1]);
      LastAllocs(trace[..|trace| - 1]);
    }
  }

  // Every number of both trees.

  /** The CPU of the allocation that a pointer still has; none once it is freed. */
  datatype Home = Nowhere | At(cpu: nat)

  function HomeOf(trace: seq<Event>, ptr: int): Home {
    if trace == [] then Nowhere
    else
      var e := trace[|trace| - 1];
      if e.ptr != ptr then HomeOf(trace[..|trace| - 1], ptr) else if e.Kmalloc? then At(e.cpu) else Nowhere
  }

  /** CPU numbers are compared as 16-bit numbers, and -1 stands for no CPU. */
  predicate SameCpu(h: Home, cpu: nat) {
    cpu % 0x1_0000 == match h case Nowhere => 0xFFFF case At(c) => c % 0x1_0000
  }

  /** A free on another CPU than the allocation; also a repeated free. */
  predicate Bounces(before: seq<Event>, e: Event) {
    e.Kfree? && e.ptr in Allocated(before) && !SameCpu(HomeOf(before, e.ptr), e.cpu)
  }

  /** The call site of the last allocation of a pointer. */
  function LastSite(trace: seq<Event>, ptr: int): nat {
    if trace == [] then 0
    else
      var e := trace[|trace| - 1];
      if e.Kmalloc? && e.ptr == ptr then e.callSite else LastSite(trace[..|trace| - 1], ptr)
  }

  function PtrBounces(trace: seq<Event>, ptr: int): nat {
    if trace == [] then 0
    else
      var before, e := trace[..|trace| - 1], trace[|trace| - 1];
      PtrBounces(before, ptr) + if Bounces(before, e) && e.ptr == ptr then 1 else 0
  }

  function SiteBounces(trace: seq<Event>, site: int): nat {
    if trace == [] then 0
    else
      var before, e := trace[..|trace| - 1], trace[|trace| - 1];
      SiteBounces(before, site) + if Bounces(before, e) && LastSite(before, e.ptr) == site then 1 else 0
  }

  function FreedBytes(trace: seq<Event>): int {
    if trace == [] then 0
    else
      var before, e := trace[..|trace| - 1], trace[|trace| - 1];
      FreedBytes(before) + if e.Kfree? then LastBytes(before, e.ptr) else 0
  }

  /** What an allocation adds to the hits, the requested and the allocated bytes, if it is one of those meant. */
  datatype Amounts = Amounts(hit: int, req: int, bytes: int)

  function AmountsOf(trace: seq<Event>, meant: Event -> bool): Amounts {
    if trace == [] then Amounts(0, 0, 0)
    else
      var e, a := trace[|trace| - 1], AmountsOf(trace[..|trace| - 1], meant);
      if e.Kmalloc? && meant(e) then Amounts(a.hit + 1, a.req + e.bytesReq, a.bytes + e.bytesAlloc) else a
  }

  function OfPtr(ptr: int): Event -> bool { (e: Event) => e.ptr == ptr }
  function FromSite(site: int): Event -> bool { (e: Event) => e.Kmalloc? && e.callSite == site }
  function Any(): Event -> bool { (e: Event) => true }
  function Crossing(): Event -> bool { (e: Event) => e.Kmalloc? && e.crossNode }

  function AmountsIn(s: SlabStat): Amounts { Amounts(s.hit, s.bytesReq, s.bytesAlloc) }

  function PtrStat(s: Slab, ptr: nat): SlabStat { Get(s.allocs, ptr, NewAlloc(ptr)) }
  function SiteStat(s: Slab, site: nat): SlabStat { Get(s.callers, site, NewCaller(site)) }

  predicate HomeIs(cpu: int, h: Home) {
    match h
    case Nowhere => cpu == -1
    case At(c) => -0x8000 <= cpu < 0x8000 && cpu % 0x1_0000 == c % 0x1_0000
  }

  /** A 16-bit number and its remainder determine each other. */
  lemma Remainder(x: int)
    requires -0x8000 <= x < 0x8000
    ensures x % 0x1_0000 == if x < 0 then x + 0x1_0000 else x
  {
  }

  lemma ShortIs(c: nat)
    ensures HomeIs(Short(c), At(c))
  {
    Remainder(Short(c));
  }

  lemma ShortSame(cpu: nat, home: int, h: Home)
    requires HomeIs(home, h)
    ensures Short(cpu) == home <==> SameCpu(h, cpu)
  {
    Remainder(home);
    Remainder(Short(cpu));
  }

  /** What one event does to the entry of a pointer. */
  lemma StepPtr(s: Slab, e: Event, ptr: nat)
    ensures var a, b := PtrStat(s, ptr), PtrStat(Step(s, e), ptr);
            if e.ptr != ptr then b == a
            else if e.Kmalloc? then
              b == SlabStat(e.callSite, a.ptr, a.bytesReq + e.bytesReq, a.bytesAlloc + e.bytesAlloc, e.bytesAlloc,
                            a.hit + 1, a.pingpong, Short(e.cpu))
            else if ptr !in s.allocs then b == a
            else if Short(e.cpu) == a.allocCpu then b == a.(allocCpu := -1)
            else a.callSite in s.callers ==> b == a.(allocCpu := -1, pingpong := a.pingpong + 1)
  {
  }

  /** For every trace, all that is known of a pointer. */
  lemma {:induction false} PointersTold(trace: seq<Event>, ptr: nat)
    ensures var a := PtrStat(Run(trace), ptr);
            && a.ptr == ptr && a.callSite == LastSite(trace, ptr)
            && AmountsIn(a) == AmountsOf(trace, OfPtr(ptr)) && a.pingpong == PtrBounces(trace, ptr)
            && (ptr in Run(trace).allocs ==> HomeIs(a.allocCpu, HomeOf(trace, ptr)))
  {
    hide Step, HomeIs, SameCpu, Short, Inv, Allocated, LastBytes;
    if trace != [] {
      var before, e := trace[..|trace| - 1], trace[|trace| - 1];
      var s := Run(before);
      PointersTold(before, ptr);
      LastAllocs(before);
      StepLast(s, e);
      StepPtr(s, e, ptr);
      NowhereIs();
      if e.ptr == ptr {
        ShortIs(e.cpu);
        if e.Kfree? && ptr in s.allocs {
          SiteKnown(before, ptr);
          ShortSame(e.cpu, PtrStat(s, ptr).allocCpu, HomeOf(before, ptr));
        }
      }
    }
  }

  lemma NowhereIs()
    ensures HomeIs(-1, Nowhere)
  {
  }

  lemma SiteKnown(trace: seq<Event>, ptr: nat)
    requires ptr in Run(trace).allocs
    ensures Run(trace).allocs[ptr].callSite in Run(trace).callers
  {
    hide SumMap, Run;
    TreesAgree(trace);
  }

  lemma StepSite(s: Slab, e: Event, site: nat)
    ensures var a, b := SiteStat(s, site), SiteStat(Step(s, e), site);
            if e.Kmalloc? then
              b == if e.callSite == site then Counted(a, e.bytesReq, e.bytesAlloc) else a
            else
              var bounced := e.ptr in s.allocs && Short(e.cpu) != s.allocs[e.ptr].allocCpu &&
                s.allocs[e.ptr].callSite == site && site in s.callers;
              b == a.(pingpong := a.pingpong + if bounced then 1 else 0)
  {
  }

  /** For every trace, all that is known of a call site. */
  lemma {:induction false} SitesTold(trace: seq<Event>, site: nat)
    ensures var a := SiteStat(Run(trace), site);
            AmountsIn(a) == AmountsOf(trace, FromSite(site)) && a.pingpong == SiteBounces(trace, site)
  {
    hide Step, HomeIs, SameCpu, Short, Inv, Allocated, LastBytes, LastSite, HomeOf;
    if trace != [] {
      var before, e := trace[..|trace| - 1], trace[|trace| - 1];
      var s := Run(before);
      SitesTold(before, site);
      StepSite(s, e, site);
      LastAllocs(before);
      if e.Kfree? && e.ptr in s.allocs {
        PointersTold(before, e.ptr);
        SiteKnown(before, e.ptr);
        ShortSame(e.cpu, PtrStat(s, e.ptr).allocCpu, HomeOf(before, e.ptr));
      }
    }
  }

  /** And the totals. */
  lemma {:induction false} TotalsTold(trace: seq<Event>)
    ensures var s := Run(trace);
            && Amounts(s.nrAllocs, s.totalRequested, s.totalAllocated) == AmountsOf(trace, Any())
            && s.nrCrossAllocs == AmountsOf(trace, Crossing()).hit && s.totalFreed == FreedBytes(trace)
  {
    hide Allocated, LastBytes;
    if trace != [] {
      var before := trace[..|trace| - 1];
      TotalsTold(before);
      LastAllocs(before);
    }
  }

  /** A double free is counted twice: more bytes freed than were ever allocated. */
  lemma DoubleFreeOvercounts()
    ensures var trace := [Kmalloc(1, 2, 8, 8, 0, false), Kfree(2, 0), Kfree(2, 0)];
            Run(trace).totalFreed > Run(trace).totalAllocated
  {
    var e0, e1 := Kmalloc(1, 2, 8, 8, 0, false), Kfree(2, 0);
    assert [e0, e1, e1][..2] == [e0, e1] && [e0, e1][..1] == [e0] && [e0][..0] == [];
    var s1 := Alloc(Empty(), e0);
    assert Run([e0]) == s1;
    var s2 := Free(s1, e1).0;
    assert Run([e0, e1]) == s2;
    assert s2.allocs[2].lastAlloc == 8 && s2.totalFreed == 8;
  }

  // The trees themselves.

  function PtrOf(s: SlabStat): int { s.ptr }
  function SiteOf(s: SlabStat): int { s.callSite }

  class SlabTracker {
    var allocs: seq<SlabStat>
    var callers: seq<SlabStat>
    var totalRequested: int
    var totalAllocated: int
    var totalFreed: int
    var nrAllocs: int
    var nrCrossAllocs: int

    ghost predicate Good()
      reads this
    {
      && Ascending(allocs, PtrOf) && DistinctKeys(allocs, PtrOf)
      && Ascending(callers, SiteOf) && DistinctKeys(callers, SiteOf)
    }

    ghost function State(): Slab
      requires Good()
      reads this
    {
      Slab(ToMap(allocs, PtrOf), ToMap(callers, SiteOf), totalRequested, totalAllocated, totalFreed, nrAllocs,
          nrCrossAllocs)
    }

    constructor ()
      ensures Good() && State() == Empty()
    {
      allocs, callers := [], [];
      totalRequested, totalAllocated, totalFreed, nrAllocs, nrCrossAllocs := 0, 0, 0, 0, 0;
      new;
      assert ToMap(allocs, PtrOf) == map[] && ToMap(callers, SiteOf) == map[];
    }

    method InsertAllocStat(e: Event)
      requires Good() && e.Kmalloc?
      modifies `allocs
      ensures Good() && State() == old(State()).(allocs := Alloc(old(State()), e).allocs)
    {
      hide Ascending, DistinctKeys, ToMap;
      var r, found, pos := FindNewRanked(allocs, PtrOf, NewAlloc(e.ptr), true);
      var a := Counted(r[pos], e.bytesReq, e.bytesAlloc).(callSite := e.callSite, allocCpu := Short(e.cpu),
        lastAlloc := e.bytesAlloc);
      RankedUpdate(r, PtrOf, pos, a);
      allocs := r[pos := a];
    }

    method InsertCallerStat(e: Event)
      requires Good() && e.Kmalloc?
      modifies `callers
      ensures Good() && State() == old(State()).(callers := Alloc(old(State()), e).callers)
    {
      hide Ascending, DistinctKeys, ToMap;
      var r, found, pos := FindNewRanked(callers, SiteOf, NewCaller(e.callSite), true);
      var k := Counted(r[pos], e.bytesReq, e.bytesAlloc);
      RankedUpdate(r, SiteOf, pos, k);
      callers := r[pos := k];
    }

    method ProcessAllocEvent(e: Event)
      requires Good() && e.Kmalloc?
      modifies this
      ensures Good() && State() == Alloc(old(State()), e)
    {
      hide Ascending, DistinctKeys, ToMap;
      InsertAllocStat(e);
      InsertCallerStat(e);
      totalRequested := totalRequested + e.bytesReq;
      totalAllocated := totalAllocated + e.bytesAlloc;
      nrAllocs := nrAllocs + 1;
      if e.crossNode { nrCrossAllocs := nrCrossAllocs + 1; }
    }

    method BounceCaller(callSite: nat) returns (known: bool)
      requires Good()
      modifies `callers
      ensures Good() && (known <==> callSite in old(State()).callers)
      ensures State() == if !known then old(State())
                         else old(State()).(callers :=
                             old(State()).callers[callSite := Bounced(old(State()).callers[callSite])])
    {
      hide Ascending, DistinctKeys, ToMap;
      var r, pos;
      r, known, pos := FindNewRanked(callers, SiteOf, NewCaller(callSite), false);
      if known {
        var k := Bounced(callers[pos]);
        RankedUpdate(callers, SiteOf, pos, k);
        callers := callers[pos := k];
      }
    }

    method ProcessFreeEvent(e: Event) returns (rc: int)
      requires Good() && e.Kfree?
      modifies this
      ensures Good() && (State(), rc) == Free(old(State()), e)
    {
      hide Ascending, DistinctKeys, ToMap;
      var r, found, pos := FindNewRanked(allocs, PtrOf, NewAlloc(e.ptr), false);
      if !found { return 0; }
      var a := allocs[pos];
      totalFreed := totalFreed + a.lastAlloc;
      if Short(e.cpu) != a.allocCpu {
        RankedUpdate(allocs, PtrOf, pos, Bounced(a));
        allocs := allocs[pos := Bounced(a)];
        var known := BounceCaller(a.callSite);
        if !known { return -1; }
        a := Bounced(a);
      }
      RankedUpdate(allocs, PtrOf, pos, a.(allocCpu := -1));
      allocs := allocs[pos := a.(allocCpu := -1)];
      assert State().allocs == Free(old(State()), e).0.allocs;
      return 0;
    }
  }
}
