/**
 `perf lock`: every (thread, lock) pair runs a small state machine over acquire, acquired, contended
 and release events, and feeds the statistics of its lock. A lock whose events do not fit is discarded.

 The read release is modelled as written: it keeps the sequence when the last reader leaves and
 frees it while readers remain.
 */
module LockStats {
  import opened Sums
  import opened RbTree

  const U64: nat := 0x1_0000_0000_0000_0000

  datatype Phase = Uninitialized | Released | Acquiring | Acquired | ReadAcquired | Contended

  datatype Sequence = Sequence(addr: int, phase: Phase, prevTime: nat, readCount: int)

  datatype LockStat = LockStat(
    nrAcquire: nat, nrAcquired: nat, nrContended: nat, nrRelease: nat, nrReadlock: nat, nrTrylock: nat,
    avgWait: nat, waitTotal: nat, waitMin: nat, waitMax: nat, discard: bool)

  datatype EventKind = Acquire(tryLock: bool, readLock: bool) | GotIt | Contend | Release

  datatype Event = Event(kind: EventKind, tid: int, addr: int, time: nat)

  datatype BadHist = BadHist(acquire: nat, acquired: nat, contended: nat, release: nat)

  datatype Locks = Locks(stats: map<int, LockStat>, threads: map<int, map<int, Sequence>>, bad: BadHist)

  /** What becomes of the sequence: it stays, it is freed, or a BUG_ON fires. */
  datatype Outcome = Keep(q: Sequence) | Drop | Broken | Bug

  function NewLock(): LockStat { LockStat(0, 0, 0, 0, 0, 0, 0, 0, U64 - 1, 0, false) }
  function NewSequence(addr: int): Sequence { Sequence(addr, Uninitialized, 0, 0) }

  // One event on one lock and one sequence.

  function OnAcquire(ls: LockStat, q: Sequence, e: Event): (LockStat, Outcome)
    requires e.kind.Acquire?
  {
    match q.phase
    case Uninitialized | Released =>
      if !e.kind.tryLock && !e.kind.readLock then
        (ls.(nrAcquire := ls.nrAcquire + 1), Keep(q.(phase := Acquiring, prevTime := e.time)))
      else
        (ls.(nrTrylock := ls.nrTrylock + if e.kind.tryLock then 1 else 0,
             nrReadlock := ls.nrReadlock + if e.kind.readLock then 1 else 0,
             nrAcquired := ls.nrAcquired + 1, nrAcquire := ls.nrAcquire + 1),
         Keep(q.(phase := ReadAcquired, readCount := 1, prevTime := e.time)))
    case ReadAcquired =>
      if e.kind.readLock then (ls.(nrAcquired := ls.nrAcquired + 1), Keep(q.(readCount := q.readCount + 1)))
      else (ls.(discard := true), Broken)
    case Acquired | Acquiring | Contended => (ls.(discard := true), Broken)
  }

  /** A 64-bit result. */
  function Wrap(x: int): (r: nat)
    ensures r < U64
  {
    x % U64
  }

  lemma WrapAdd(x: int, w: int)
    ensures Wrap(Wrap(x) + w) == Wrap(x + w)
  {
  }

  function Waited(q: Sequence, e: Event): nat { Wrap(e.time - q.prevTime) }

  function Average(total: nat, n: nat): nat { if n == 0 then 0 else total / n }

  function AddWait(ls: LockStat, w: nat): LockStat {
    ls.(waitTotal := Wrap(ls.waitTotal + w),
        waitMin := if w < ls.waitMin then w else ls.waitMin,
        waitMax := if ls.waitMax < w then w else ls.waitMax)
  }

  function Granted(ls: LockStat, q: Sequence, e: Event): (LockStat, Outcome) {
    (ls.(nrAcquired := ls.nrAcquired + 1, avgWait := Average(ls.waitTotal, ls.nrContended)),
     Keep(q.(phase := Acquired, prevTime := e.time)))
  }

  function OnAcquired(ls: LockStat, q: Sequence, e: Event): (LockStat, Outcome) {
    match q.phase
    case Uninitialized => (ls, Keep(q))
    case Acquiring => Granted(ls, q, e)
    case Contended => Granted(AddWait(ls, Waited(q, e)), q, e)
    case Released | Acquired | ReadAcquired => (ls.(discard := true), Broken)
  }

  function OnContended(ls: LockStat, q: Sequence, e: Event): (LockStat, Outcome) {
    match q.phase
    case Uninitialized => (ls, Keep(q))
    case Acquiring =>
      (ls.(nrContended := ls.nrContended + 1, avgWait := ls.waitTotal / (ls.nrContended + 1)),
       Keep(q.(phase := Contended, prevTime := e.time)))
    case Released | Acquired | ReadAcquired | Contended => (ls.(discard := true), Broken)
  }

  function OnRelease(ls: LockStat, q: Sequence): (LockStat, Outcome) {
    match q.phase
    case Uninitialized => (ls, Keep(q))
    case Acquired => (ls.(nrRelease := ls.nrRelease + 1), Drop)
    case ReadAcquired =>
      var left := q.readCount - 1;
      if left < 0 then (ls, Bug)
      else if left == 0 then (ls.(nrRelease := ls.nrRelease + 1), Keep(q.(readCount := 0)))
      else (ls.(nrRelease := ls.nrRelease + 1), Drop)
    case Acquiring | Contended | Released => (ls.(discard := true), Broken)
  }

  function Handle(ls: LockStat, q: Sequence, e: Event): (LockStat, Outcome) {
    match e.kind
    case Acquire(_, _) => OnAcquire(ls, q, e)
    case GotIt => OnAcquired(ls, q, e)
    case Contend => OnContended(ls, q, e)
    case Release => OnRelease(ls, q)
  }

  function CountBroken(b: BadHist, k: EventKind): BadHist {
    match k
    case Acquire(_, _) => b.(acquire := b.acquire + 1)
    case GotIt => b.(acquired := b.acquired + 1)
    case Contend => b.(contended := b.contended + 1)
    case Release => b.(release := b.release + 1)
  }

  // The whole table.

  datatype Result = Ok(s: Locks) | Crashed

  function StatOf(s: Locks, addr: int): LockStat { Get(s.stats, addr, NewLock()) }
  function ThreadOf(s: Locks, tid: int): map<int, Sequence> { Get(s.threads, tid, map[]) }
  function SequenceOf(s: Locks, tid: int, addr: int): Sequence { Get(ThreadOf(s, tid), addr, NewSequence(addr)) }

  function Step(s: Locks, e: Event): Result {
    var ls := StatOf(s, e.addr);
    if ls.discard then Ok(s)
    else
      var th := ThreadOf(s, e.tid);
      match Handle(ls, SequenceOf(s, e.tid, e.addr), e)
      case (ls', Keep(q)) => Ok(Locks(s.stats[e.addr := ls'], s.threads[e.tid := th[e.addr := q]], s.bad))
      case (ls', Drop) => Ok(Locks(s.stats[e.addr := ls'], s.threads[e.tid := th - {e.addr}], s.bad))
      case (ls', Broken) => Ok(Locks(s.stats[e.addr := ls'], s.threads[e.tid := th - {e.addr}],
          CountBroken(s.bad, e.kind)))
      case (_, Bug) => Crashed
  }

  function Empty(): Locks { Locks(map[], map[], BadHist(0, 0, 0, 0)) }

  function Run(trace: seq<Event>): Result {
    if trace == [] then Ok(Empty())
    else
      match Run(trace[..|trace| - 1])
      case Ok(s) => Step(s, trace[|trace| - 1])
      case Crashed => Crashed
  }

  // What the numbers of a lock mean.

  function IsContended(a: int): map<int, Sequence> -> int {
    (th: map<int, Sequence>) => if a in th && th[a].phase == Contended then 1 else 0
  }

  function HoldsOf(q: Sequence): int {
    if q.phase == Acquired then 1 else if q.phase == ReadAcquired then q.readCount else 0
  }

  function Holds(a: int): map<int, Sequence> -> int {
    (th: map<int, Sequence>) => if a in th then HoldsOf(th[a]) else 0
  }

  /** The waits completed on lock `a` as its sequences have them; LockTrace finds them in the trace. */
  ghost function HandledWaits(trace: seq<Event>, a: int): seq<nat> {
    if trace == [] || Run(trace[..|trace| - 1]).Crashed? then []
    else
      var s, e := Run(trace[..|trace| - 1]).s, trace[|trace| - 1];
      HandledWaits(trace[..|trace| - 1], a) + NewWaits(s, e, a)
  }

  function NewWaits(s: Locks, e: Event, a: int): seq<nat> {
    var q := SequenceOf(s, e.tid, e.addr);
    if e.addr == a && !StatOf(s, a).discard && e.kind == GotIt && q.phase == Contended then [Waited(q, e)] else []
  }

  /** The read holds that go away when a sequence is freed while readers remain. */
  function NewDropped(s: Locks, e: Event, a: int): int {
    var q := SequenceOf(s, e.tid, e.addr);
    if e.addr == a && !StatOf(s, a).discard && e.kind == Release && q.phase == ReadAcquired && q.readCount > 1
    then q.readCount - 1 else 0
  }

  ghost function HandledDrops(trace: seq<Event>, a: int): int {
    if trace == [] || Run(trace[..|trace| - 1]).Crashed? then 0
    else HandledDrops(trace[..|trace| - 1], a) + NewDropped(Run(trace[..|trace| - 1]).s, trace[|trace| - 1], a)
  }

  function Self(x: nat): int { x }

  /** The statistics of one lock, given its completed waits and its dropped holds. */
  ghost predicate LockOk(s: Locks, a: int, waits: seq<nat>, dropped: int) {
    var ls := StatOf(s, a);
    && ls.nrContended == |waits| + SumMap(IsContended(a), s.threads)
    && ls.waitTotal == Wrap(SumOf(Self, waits))
    && (forall w | w in waits :: ls.waitMin <= w <= ls.waitMax)
    && (waits != [] ==> ls.waitMin in waits && ls.waitMax in waits)
    && (waits == [] ==> ls.waitMin == U64 - 1 && ls.waitMax == 0)
    && ls.avgWait == Average(ls.waitTotal, ls.nrContended)
    && ls.nrAcquired - ls.nrRelease == SumMap(Holds(a), s.threads) + dropped
  }

  ghost predicate SequencesOk(s: Locks) {
    forall t, a | t in s.threads && a in s.threads[t] ::
      var q := s.threads[t][a]; q.addr == a && q.phase != Released && q.readCount >= 0
  }

  // How one step moves the sums.

  /** The sequences of thread `e.tid` after a step that does not crash. */
  function ThreadAfter(s: Locks, e: Event): map<int, Sequence> {
    var th := ThreadOf(s, e.tid);
    match Handle(StatOf(s, e.addr), SequenceOf(s, e.tid, e.addr), e).1
    case Keep(q) => th[e.addr := q]
    case Drop => th - {e.addr}
    case Broken => th - {e.addr}
    case Bug => th
  }

  lemma StepEffect(s: Locks, e: Event)
    requires !StatOf(s, e.addr).discard && Step(s, e).Ok?
    ensures var s' := Step(s, e).s;
            && s'.threads == s.threads[e.tid := ThreadAfter(s, e)]
            && s'.stats == s.stats[e.addr := Handle(StatOf(s, e.addr), SequenceOf(s, e.tid, e.addr), e).0]
  {
    hide Handle;
  }

  lemma ThreadSum(s: Locks, tid: int, th: map<int, Sequence>, f: map<int, Sequence> -> int)
    requires f(map[]) == 0
    ensures SumMap(f, s.threads[tid := th]) == SumMap(f, s.threads) + f(th) - f(ThreadOf(s, tid))
  {
    hide SumMap;
    SumMapPut(f, s.threads, tid, th);
  }

  lemma OtherLockUnmoved(s: Locks, e: Event, a: int, waits: seq<nat>, dropped: int)
    requires LockOk(s, a, waits, dropped) && Step(s, e).Ok? && e.addr != a
    ensures LockOk(Step(s, e).s, a, waits, dropped)
  {
    hide SumMap, SumOf, Handle, Average;
    if !StatOf(s, e.addr).discard {
      StepEffect(s, e);
      ThreadSum(s, e.tid, ThreadAfter(s, e), IsContended(a));
      ThreadSum(s, e.tid, ThreadAfter(s, e), Holds(a));
    }
  }

  /** The counts of one transition: contended sequences, holds, and what is completed or dropped. */
  lemma HandleBalances(ls: LockStat, q: Sequence, e: Event)
    requires q.phase != Released
    ensures var (ls', o) := Handle(ls, q, e);
            !ls'.discard && !o.Bug? ==>
              var isC := if q.phase == Contended then 1 else 0;
              var isC' := if o.Keep? && o.q.phase == Contended then 1 else 0;
              var held' := if o.Keep? then HoldsOf(o.q) else 0;
              var done := if e.kind == GotIt && q.phase == Contended then 1 else 0;
              var lost := if e.kind == Release && q.phase == ReadAcquired && q.readCount > 1 then q.readCount - 1
                else 0;
              && ls'.nrContended - ls.nrContended == done + isC' - isC
              && (ls'.nrAcquired - ls'.nrRelease) - (ls.nrAcquired - ls.nrRelease) == held' - HoldsOf(q) + lost
              && !o.Broken?
  {
  }

  /** Waiting times change only when a contended sequence is granted; the average follows both numbers. */
  lemma HandleWaits(ls: LockStat, q: Sequence, e: Event)
    requires ls.avgWait == Average(ls.waitTotal, ls.nrContended)
    ensures var (ls', o) := Handle(ls, q, e);
            var base := if e.kind == GotIt && q.phase == Contended then AddWait(ls, Waited(q, e)) else ls;
            && ls'.waitTotal == base.waitTotal && ls'.waitMin == base.waitMin && ls'.waitMax == base.waitMax
            && ls'.avgWait == Average(ls'.waitTotal, ls'.nrContended)
  {
  }

  lemma SameLockMoves(s: Locks, e: Event, waits: seq<nat>, dropped: int)
    requires LockOk(s, e.addr, waits, dropped) && SequencesOk(s) && Step(s, e).Ok?
    ensures var s' := Step(s, e).s;
            !StatOf(s', e.addr).discard ==>
              && StatOf(s', e.addr).nrContended ==
                  |waits + NewWaits(s, e, e.addr)| + SumMap(IsContended(e.addr), s'.threads)
              && StatOf(s', e.addr).nrAcquired - StatOf(s', e.addr).nrRelease ==
                 SumMap(Holds(e.addr), s'.threads) + dropped + NewDropped(s, e, e.addr)
  {
    hide SumMap, SumOf, Handle, Average;
    if !StatOf(s, e.addr).discard {
      StepEffect(s, e);
      ThreadSum(s, e.tid, ThreadAfter(s, e), IsContended(e.addr));
      ThreadSum(s, e.tid, ThreadAfter(s, e), Holds(e.addr));
      HandleBalances(StatOf(s, e.addr), SequenceOf(s, e.tid, e.addr), e);
    }
  }

  lemma SameLockWaits(s: Locks, e: Event, waits: seq<nat>, dropped: int)
    requires LockOk(s, e.addr, waits, dropped) && Step(s, e).Ok?
    ensures var ls, waits' := StatOf(Step(s, e).s, e.addr), waits + NewWaits(s, e, e.addr);
            && ls.waitTotal == Wrap(SumOf(Self, waits'))
            && (forall w | w in waits' :: ls.waitMin <= w <= ls.waitMax)
            && (waits' != [] ==> ls.waitMin in waits' && ls.waitMax in waits')
            && (waits' == [] ==> ls.waitMin == U64 - 1 && ls.waitMax == 0)
            && ls.avgWait == Average(ls.waitTotal, ls.nrContended)
  {
    hide SumMap, SumOf, Handle, Average, Wrap;
    if !StatOf(s, e.addr).discard {
      StepEffect(s, e);
      var q := SequenceOf(s, e.tid, e.addr);
      WrapAdd(SumOf(Self, waits), Waited(q, e));
      HandleWaits(StatOf(s, e.addr), q, e);
      var new_ := NewWaits(s, e, e.addr);
      if new_ != [] { SumAppend(Self, waits, Waited(q, e)); } else { assert waits + new_ == waits; }
    } else {
      assert waits + NewWaits(s, e, e.addr) == waits;
    }
  }

  lemma SameLockOk(s: Locks, e: Event, waits: seq<nat>, dropped: int)
    requires LockOk(s, e.addr, waits, dropped) && SequencesOk(s) && Step(s, e).Ok?
    ensures !StatOf(Step(s, e).s, e.addr).discard ==>
              LockOk(Step(s, e).s, e.addr, waits + NewWaits(s, e, e.addr), dropped + NewDropped(s, e, e.addr))
  {
    hide SumMap, SumOf, Step, Average, Wrap, SequencesOk, NewWaits, NewDropped;
    SameLockMoves(s, e, waits, dropped);
    SameLockWaits(s, e, waits, dropped);
  }

  lemma HandleKeepsSequence(ls: LockStat, q: Sequence, e: Event)
    requires q.addr == e.addr && q.phase != Released && q.readCount >= 0
    ensures var o := Handle(ls, q, e).1;
            o.Keep? ==> o.q.addr == e.addr && o.q.phase != Released && o.q.readCount >= 0
  {
  }

  lemma StepKeepsSequences(s: Locks, e: Event)
    requires SequencesOk(s) && Step(s, e).Ok?
    ensures SequencesOk(Step(s, e).s)
  {
    hide Handle;
    if !StatOf(s, e.addr).discard {
      StepEffect(s, e);
      HandleKeepsSequence(StatOf(s, e.addr), SequenceOf(s, e.tid, e.addr), e);
    }
  }

  /** A discarded lock stays as it was. */
  lemma DiscardedFrozen(s: Locks, e: Event, a: int)
    requires Step(s, e).Ok? && StatOf(s, a).discard
    ensures StatOf(Step(s, e).s, a) == StatOf(s, a)
  {
    hide Handle;
  }

  /** For every run without a crash and every lock not discarded, with the waits that its sequences had. */
  lemma {:induction false} StateNumbers(trace: seq<Event>, a: int)
    requires Run(trace).Ok?
    ensures SequencesOk(Run(trace).s)
    ensures !StatOf(Run(trace).s, a).discard ==> LockOk(Run(trace).s, a, HandledWaits(trace, a), HandledDrops(trace, a))
  {
    hide Handle, Average, SumMap, SumOf, Step, Wrap, LockOk, SequencesOk;
    if trace == [] {
      EmptyOk(a);
    } else {
      var before, e := trace[..|trace| - 1], trace[|trace| - 1];
      StateNumbers(before, a);
      var s := Run(before).s;
      StepKeepsSequences(s, e);
      if StatOf(s, a).discard {
        DiscardedFrozen(s, e, a);
      } else if e.addr != a {
        OtherLockUnmoved(s, e, a, HandledWaits(before, a), HandledDrops(before, a));
        assert HandledWaits(trace, a) == HandledWaits(before, a) + [];
        assert HandledWaits(before, a) + [] == HandledWaits(before, a);
      } else {
        SameLockOk(s, e, HandledWaits(before, a), HandledDrops(before, a));
      }
    }
  }

  lemma EmptyOk(a: int)
    ensures SequencesOk(Empty()) && LockOk(Empty(), a, [], 0)
  {
  }

  lemma {:induction false} SumAtMost(waits: seq<nat>, bound: nat)
    requires forall w | w in waits :: w <= bound
    ensures 0 <= SumOf(Self, waits) <= |waits| * bound
  {
    if waits != [] {
      var n := |waits| - 1;
      assert forall w | w in waits[..n] :: w in waits;
      SumAtMost(waits[..n], bound);
      assert waits[n] in waits;
      assert (n + 1) * bound == n * bound + bound;
    }
  }

  lemma AverageAtMost(total: nat, n: nat, bound: nat)
    requires total <= n * bound
    ensures Average(total, n) <= bound
  {
  }

  /** The average wait never exceeds the longest one. */
  lemma AverageBelowMax(trace: seq<Event>, a: int)
    requires Run(trace).Ok? && !StatOf(Run(trace).s, a).discard
    ensures StatOf(Run(trace).s, a).avgWait <= StatOf(Run(trace).s, a).waitMax
  {
    hide SumMap, SumOf, Step, Average, Run, HandledWaits, HandledDrops;
    StateNumbers(trace, a);
    var s, ls, waits := Run(trace).s, StatOf(Run(trace).s, a), HandledWaits(trace, a);
    SumAtMost(waits, ls.waitMax);
    SumMapNonneg(IsContended(a), s.threads);
    More(|waits|, ls.nrContended, ls.waitMax);
    AverageAtMost(ls.waitTotal, ls.nrContended, ls.waitMax);
  }

  lemma {:induction false} More(n: nat, m: nat, k: nat)
    requires n <= m
    ensures n * k <= m * k
  {
    if n < m {
      More(n, m - 1, k);
      assert m * k == (m - 1) * k + k;
    }
  }
}
