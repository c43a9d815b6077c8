/**
 What a lock's numbers are in terms of the trace alone. How a thread stands to a lock depends on no
 more than the last three events of that pair, and on how many read acquires come last.
 */
module LockTrace {
  import opened Sums
  import opened LockStats

  /** The events of one thread on one lock. */
  function History(trace: seq<Event>, tid: int, a: int): seq<Event> {
    if trace == [] then []
    else
      var e := trace[|trace| - 1];
      History(trace[..|trace| - 1], tid, a) + if e.tid == tid && e.addr == a then [e] else []
  }

  /** A read or try acquire holds the lock at once; a plain one has to wait for the acquired event. */
  predicate IsRead(e: Event) { e.kind.Acquire? && (e.kind.tryLock || e.kind.readLock) }
  predicate IsPlain(e: Event) { e.kind == Acquire(false, false) }

  function Last(h: seq<Event>): Event
    requires h != []
  {
    h[|h| - 1]
  }

  function Before(h: seq<Event>): seq<Event>
    requires h != []
  {
    h[..|h| - 1]
  }

  /** How many read acquires the history ends with. */
  function Readers(h: seq<Event>): nat {
    if h != [] && IsRead(Last(h)) then Readers(Before(h)) + 1 else 0
  }

  predicate EndsPlain(h: seq<Event>) { h != [] && IsPlain(Last(h)) }

  /** How the thread stands to the lock. A release that leaves no reader does not end a read hold. */
  function Standing(h: seq<Event>): Phase {
    if h == [] then Uninitialized
    else
      match Last(h).kind
      case Acquire(_, _) => if IsPlain(Last(h)) then Acquiring else ReadAcquired
      case Contend => if EndsPlain(Before(h)) then Contended else Uninitialized
      case GotIt =>
        if EndsPlain(Before(h)) || (Before(h) != [] && Last(Before(h)).kind == Contend && EndsPlain(Before(Before(h))))
        then Acquired else Uninitialized
      case Release => if Readers(Before(h)) == 1 then ReadAcquired else Uninitialized
  }

  /** The event does not fit how the thread stands to the lock. */
  predicate Breaks(h: seq<Event>, e: Event) {
    var p := Standing(h);
    match e.kind
    case Acquire(_, read) => p == Acquiring || p == Contended || p == Acquired || (p == ReadAcquired && !read)
    case GotIt => p == Acquired || p == ReadAcquired
    case Contend => p == Contended || p == Acquired || p == ReadAcquired
    case Release => p == Acquiring || p == Contended
  }

  /** The lone reader has left and a release follows. */
  predicate ReleasesNothing(h: seq<Event>, e: Event) {
    e.kind == Release && h != [] && Last(h).kind == Release && Readers(Before(h)) == 1
  }

  /** Some event on the lock did not fit. */
  predicate Spoiled(trace: seq<Event>, a: int) {
    trace != [] &&
    var before, e := trace[..|trace| - 1], trace[|trace| - 1];
    Spoiled(before, a) || (e.addr == a && Breaks(History(before, e.tid, a), e))
  }

  predicate Crashes(before: seq<Event>, e: Event) {
    ReleasesNothing(History(before, e.tid, e.addr), e) && !Spoiled(before, e.addr)
  }

  predicate CrashesIn(trace: seq<Event>) {
    trace != [] && (CrashesIn(trace[..|trace| - 1]) || Crashes(trace[..|trace| - 1], trace[|trace| - 1]))
  }

  // The handlers keep sequences that say just this.

  predicate Fits(q: Sequence, h: seq<Event>) {
    && q.phase == Standing(h)
    && (q.phase == ReadAcquired ==> q.readCount == Readers(h))
    && (q.phase == Acquiring || q.phase == Contended || q.phase == Acquired ==> h != [] && q.prevTime == Last(h).time)
  }

  lemma Extend(h: seq<Event>, e: Event)
    ensures Before(h + [e]) == h && Last(h + [e]) == e
  {
  }

  lemma HandleFits(ls: LockStat, q: Sequence, e: Event, h: seq<Event>)
    requires Fits(q, h) && !ls.discard && q.addr == e.addr
    ensures var (ls', o) := Handle(ls, q, e);
            && (o.Bug? <==> ReleasesNothing(h, e))
            && (o.Broken? <==> Breaks(h, e)) && (ls'.discard <==> Breaks(h, e))
            && (o.Keep? ==> Fits(o.q, h + [e]))
            && (o.Drop? ==> Fits(NewSequence(e.addr), h + [e]))
  {
    Extend(h, e);
    if h != [] {
      Extend(Before(h), Last(h));
      assert h == Before(h) + [Last(h)];
    }
  }

  ghost predicate Agrees(s: Locks, trace: seq<Event>, tid: int, a: int) {
    && (StatOf(s, a).discard <==> Spoiled(trace, a))
    && (!Spoiled(trace, a) ==> SequenceOf(s, tid, a).addr == a && Fits(SequenceOf(s, tid, a), History(trace, tid, a)))
  }

  /** What a step does to the lock and sequence it is about, and to no other. */
  lemma StepMoves(s: Locks, e: Event, tid: int, a: int)
    requires Step(s, e).Ok?
    ensures var t := Step(s, e).s;
            && (e.addr != a || StatOf(s, a).discard ==>
                  StatOf(t, a) == StatOf(s, a) && SequenceOf(t, tid, a) == SequenceOf(s, tid, a))
            && (e.addr == a && !StatOf(s, a).discard ==>
                  var (ls, o) := Handle(StatOf(s, a), SequenceOf(s, e.tid, a), e);
                  && !o.Bug? && StatOf(t, a) == ls
                  && SequenceOf(t, tid, a) ==
                     if tid != e.tid then SequenceOf(s, tid, a) else if o.Keep? then o.q else NewSequence(a))
  {
    hide Handle;
  }

  /** What one more event does to what the trace says of a pair and of a lock. */
  lemma OneMore(before: seq<Event>, e: Event, tid: int, a: int)
    ensures History(before + [e], tid, a) == History(before, tid, a) + if e.tid == tid && e.addr == a then [e] else []
    ensures Spoiled(before + [e], a) <==> Spoiled(before, a) || (e.addr == a && Breaks(History(before, e.tid, a), e))
  {
    hide Breaks;
    assert (before + [e])[..|before + [e]| - 1] == before;
  }

  lemma StepAgrees(s: Locks, before: seq<Event>, e: Event, tid: int, a: int)
    requires Step(s, e).Ok? && Agrees(s, before, tid, a) && Agrees(s, before, e.tid, a)
    ensures Agrees(Step(s, e).s, before + [e], tid, a)
  {
    hide Handle, Fits, Breaks, Step, StatOf, SequenceOf, History, Spoiled, Standing, Readers;
    OneMore(before, e, tid, a);
    StepMoves(s, e, tid, a);
    assert History(before, tid, a) + [] == History(before, tid, a);
    if e.addr == a && !StatOf(s, a).discard {
      HandleFits(StatOf(s, a), SequenceOf(s, e.tid, a), e, History(before, e.tid, a));
      HandleAddr(StatOf(s, a), SequenceOf(s, e.tid, a), e);
    }
  }

  lemma HandleAddr(ls: LockStat, q: Sequence, e: Event)
    requires q.addr == e.addr
    ensures Handle(ls, q, e).1.Keep? ==> Handle(ls, q, e).1.q.addr == e.addr
  {
  }

  lemma CrashAgrees(s: Locks, before: seq<Event>, e: Event)
    requires Agrees(s, before, e.tid, e.addr)
    ensures Step(s, e).Crashed? <==> Crashes(before, e)
  {
    hide Handle, Fits, Breaks;
    if !StatOf(s, e.addr).discard {
      HandleFits(StatOf(s, e.addr), SequenceOf(s, e.tid, e.addr), e, History(before, e.tid, e.addr));
    }
  }

  lemma NothingYet(tid: int, a: int)
    ensures Agrees(Empty(), [], tid, a)
  {
  }

  /**
   For every trace: the run hits the BUG_ON if and only if some release follows the one of a lone
   reader; otherwise a lock is discarded if and only if some event on it did not fit, and until then
   each sequence has the phase, the read count and the time that the trace gives it.
   */
  lemma {:induction false} RunAgrees(trace: seq<Event>, tid: int, a: int)
    ensures Run(trace).Crashed? <==> CrashesIn(trace)
    ensures Run(trace).Ok? ==> Agrees(Run(trace).s, trace, tid, a)
  {
    hide Agrees, Step, Crashes;
    if trace == [] {
      NothingYet(tid, a);
    } else {
      var before, e := trace[..|trace| - 1], trace[|trace| - 1];
      RunAgrees(before, tid, a);
      RunAgrees(before, e.tid, e.addr);
      if Run(before).Ok? {
        RunAgrees(before, e.tid, a);
        CrashAgrees(Run(before).s, before, e);
        assert before + [e] == trace;
        if Step(Run(before).s, e).Ok? { StepAgrees(Run(before).s, before, e, tid, a); }
      }
    }
  }

  // When it goes wrong.

  /** A run crashes with the next event exactly at a second release after a lone reader's, on a lock not discarded. */
  lemma CrashExactly(trace: seq<Event>, e: Event)
    ensures Run(trace + [e]).Crashed? <==> Run(trace).Crashed? || Crashes(trace, e)
  {
    assert (trace + [e])[..|trace + [e]| - 1] == trace;
    RunAgrees(trace, e.tid, e.addr);
    RunAgrees(trace + [e], e.tid, e.addr);
  }

  /**
   An acquire discards its lock exactly when the lock was not discarded and the thread holds or awaits
   it already, unless both are reads; the hold of a lone reader that has left still counts.
   */
  lemma AcquireDiscardsExactly(trace: seq<Event>, e: Event)
    requires Run(trace).Ok? && e.kind.Acquire?
    ensures Run(trace + [e]).Ok?
    ensures StatOf(Run(trace + [e]).s, e.addr).discard && !StatOf(Run(trace).s, e.addr).discard <==>
            && !Spoiled(trace, e.addr)
            && var p := Standing(History(trace, e.tid, e.addr));
               p == Acquiring || p == Contended || p == Acquired || (p == ReadAcquired && !e.kind.readLock)
  {
    hide Run, Standing;
    CrashExactly(trace, e);
    assert (trace + [e])[..|trace + [e]| - 1] == trace;
    RunAgrees(trace, e.tid, e.addr);
    RunAgrees(trace + [e], e.tid, e.addr);
  }

  lemma CrashesLater(t: seq<Event>, e: Event)
    ensures CrashesIn(t + [e]) <==> CrashesIn(t) || Crashes(t, e)
  {
    hide Crashes;
    assert (t + [e])[..|t + [e]| - 1] == t;
  }

  /** A thread takes a lock for reading and releases it: it still stands as a reader. */
  lemma LoneReader(a: Event, b: Event)
    requires IsRead(a) && b.kind == Release && a.tid == b.tid && a.addr == b.addr
    ensures var t := [a] + [b];
            && History(t, a.tid, a.addr) == t && !Spoiled(t, a.addr) && !CrashesIn(t)
            && Last(t) == b && Readers(Before(t)) == 1 && Standing(t) == ReadAcquired
  {
    hide History, Spoiled, CrashesIn;
    var none: seq<Event> := [];
    assert none + [a] == [a];
    assert History(none, a.tid, a.addr) == none && !Spoiled(none, a.addr) && !CrashesIn(none) by { NoHistory(a); }
    OneMore(none, a, a.tid, a.addr);
    CrashesLater(none, a);
    Extend(none, a);
    assert Last([a]) == a && !IsPlain(a);
    assert Standing(none) == Uninitialized && Readers([a]) == 1;
    assert Standing([a]) == ReadAcquired;
    OneMore([a], b, a.tid, a.addr);
    CrashesLater([a], b);
    Extend([a], b);
  }

  lemma NoHistory(a: Event)
    ensures History([], a.tid, a.addr) == [] && !Spoiled([], a.addr) && !CrashesIn([])
  {
  }

  /** Whoever takes a lock for reading once and releases it twice makes the run hit the BUG_ON. */
  lemma ReleasedTwice(a: Event, b: Event, c: Event)
    requires IsRead(a) && b.kind == Release && c.kind == Release
    requires a.tid == b.tid == c.tid && a.addr == b.addr == c.addr
    ensures Run([a] + [b] + [c]).Crashed?
  {
    hide Run, History, Spoiled, Readers;
    LoneReader(a, b);
    OneMore([a] + [b], c, c.tid, c.addr);
    CrashesLater([a] + [b], c);
    RunAgrees([a] + [b] + [c], a.tid, a.addr);
  }

  /** An acquire that is not a read, after a lone read hold was released, discards the lock. */
  lemma ReleasedThenAcquired(a: Event, b: Event, c: Event)
    requires IsRead(a) && b.kind == Release && c.kind.Acquire? && !c.kind.readLock
    requires a.tid == b.tid == c.tid && a.addr == b.addr == c.addr
    ensures Run([a] + [b] + [c]).Ok? && StatOf(Run([a] + [b] + [c]).s, a.addr).discard
  {
    hide Run, History, Spoiled, Standing, Readers;
    LoneReader(a, b);
    OneMore([a] + [b], c, c.tid, c.addr);
    CrashesLater([a] + [b], c);
    RunAgrees([a] + [b] + [c], a.tid, a.addr);
  }

  // The waits and the dropped holds of the trace.

  /** From the contended event to the acquired event that ends the wait. */
  function WaitEnded(before: seq<Event>, e: Event, a: int): seq<nat> {
    var h := History(before, e.tid, a);
    if e.addr == a && e.kind == GotIt && !Spoiled(before, a) && Standing(h) == Contended && h != []
    then [(e.time - Last(h).time) % 0x1_0000_0000_0000_0000] else []
  }

  function Waits(trace: seq<Event>, a: int): seq<nat> {
    if trace == [] then [] else Waits(trace[..|trace| - 1], a) + WaitEnded(trace[..|trace| - 1], trace[|trace| - 1], a)
  }

  /** A release while several readers hold the lock frees the sequence, and the other holds with it. */
  function HoldsDropped(before: seq<Event>, e: Event, a: int): int {
    var n := Readers(History(before, e.tid, a));
    if e.addr == a && e.kind == Release && !Spoiled(before, a) && n > 1 then n - 1 else 0
  }

  function DroppedHolds(trace: seq<Event>, a: int): int {
    if trace == [] then 0
    else DroppedHolds(trace[..|trace| - 1], a) + HoldsDropped(trace[..|trace| - 1], trace[|trace| - 1], a)
  }

  lemma StandingReaders(h: seq<Event>)
    ensures Readers(h) > 0 ==> Standing(h) == ReadAcquired
    ensures h == [] ==> Standing(h) == Uninitialized
  {
  }

  lemma NewIs(s: Locks, before: seq<Event>, e: Event, a: int)
    requires Agrees(s, before, e.tid, a)
    ensures NewWaits(s, e, a) == WaitEnded(before, e, a) && NewDropped(s, e, a) == HoldsDropped(before, e, a)
  {
    hide Standing, Spoiled, History;
    StandingReaders(History(before, e.tid, a));
  }

  lemma {:induction false} HandledIs(trace: seq<Event>, a: int)
    requires Run(trace).Ok?
    ensures HandledWaits(trace, a) == Waits(trace, a) && HandledDrops(trace, a) == DroppedHolds(trace, a)
  {
    hide Step, Agrees, NewWaits, WaitEnded, NewDropped, HoldsDropped;
    if trace != [] {
      var before, e := trace[..|trace| - 1], trace[|trace| - 1];
      HandledIs(before, a);
      RunAgrees(before, e.tid, a);
      NewIs(Run(before).s, before, e, a);
    }
  }

  /**
   For every run without a crash and every lock on which all events fit: the total (64 bits wide), minimum,
   maximum and average are those of the waits of the trace, the lock was contended once for each of them
   and for each sequence that still waits, and acquired minus released is what live sequences hold plus
   the read holds dropped.
   */
  lemma LockNumbers(trace: seq<Event>, a: int)
    requires Run(trace).Ok? && !Spoiled(trace, a)
    ensures SequencesOk(Run(trace).s) && !StatOf(Run(trace).s, a).discard
    ensures var s, waits := Run(trace).s, Waits(trace, a);
            var ls := StatOf(s, a);
            && ls.waitTotal == SumOf(Self, waits) % 0x1_0000_0000_0000_0000
            && (forall w | w in waits :: ls.waitMin <= w <= ls.waitMax)
            && (if waits == [] then ls.waitMin == 0xFFFF_FFFF_FFFF_FFFF && ls.waitMax == 0
                else ls.waitMin in waits && ls.waitMax in waits)
            && ls.avgWait == (if ls.nrContended == 0 then 0 else ls.waitTotal / ls.nrContended)
            && ls.nrContended == |waits| + SumMap(IsContended(a), s.threads)
            && ls.nrAcquired - ls.nrRelease == SumMap(Holds(a), s.threads) + DroppedHolds(trace, a)
  {
    hide Run, Spoiled, SumOf, SumMap, SequencesOk, Waits, DroppedHolds;
    RunAgrees(trace, 0, a);
    StateNumbers(trace, a);
    HandledIs(trace, a);
  }

  // Every counter.

  datatype Counts = Counts(acquire: nat, acquired: nat, contended: nat, release: nat, readlock: nat, trylock: nat)

  function One(yes: bool): nat { if yes then 1 else 0 }

  /** What an event counts, by how the thread stands to the lock; one that does not fit counts nothing. */
  function Adds(h: seq<Event>, e: Event): Counts {
    var p := Standing(h);
    match e.kind
    case Acquire(try, read) =>
      var first := p == Uninitialized;
      Counts(One(first), One(if first then try || read else p == ReadAcquired && read), 0, 0,
             One(first && read), One(first && try))
    case GotIt => Counts(0, One(p == Acquiring || p == Contended), 0, 0, 0, 0)
    case Contend => Counts(0, 0, One(p == Acquiring), 0, 0, 0)
    case Release => Counts(0, 0, 0, One(p == Acquired || p == ReadAcquired), 0, 0)
  }

  function Plus(a: Counts, b: Counts): Counts {
    Counts(a.acquire + b.acquire, a.acquired + b.acquired, a.contended + b.contended, a.release + b.release,
           a.readlock + b.readlock, a.trylock + b.trylock)
  }

  /** The counts of a lock, up to the event that spoils it. */
  function CountsOf(trace: seq<Event>, a: int): Counts {
    if trace == [] then Counts(0, 0, 0, 0, 0, 0)
    else
      var before, e := trace[..|trace| - 1], trace[|trace| - 1];
      if e.addr == a && !Spoiled(before, a)
      then Plus(CountsOf(before, a), Adds(History(before, e.tid, a), e)) else CountsOf(before, a)
  }

  function CountsIn(ls: LockStat): Counts {
    Counts(ls.nrAcquire, ls.nrAcquired, ls.nrContended, ls.nrRelease, ls.nrReadlock, ls.nrTrylock)
  }

  lemma HandleCounts(ls: LockStat, q: Sequence, e: Event, h: seq<Event>)
    requires Fits(q, h) && !Handle(ls, q, e).1.Bug?
    ensures CountsIn(Handle(ls, q, e).0) == Plus(CountsIn(ls), Adds(h, e))
  {
    hide Wrap, Average;
    NeverReleased(h);
  }

  lemma NeverReleased(h: seq<Event>)
    ensures Standing(h) != Released
  {
    hide Readers;
  }

  /** For every run without a crash, each counter of each lock is the count of its events in the trace. */
  lemma {:induction false} CountsTold(trace: seq<Event>, a: int)
    requires Run(trace).Ok?
    ensures CountsIn(StatOf(Run(trace).s, a)) == CountsOf(trace, a)
  {
    hide Step, Handle, Adds, Plus, History, Spoiled, Fits, Standing, StatOf, SequenceOf, CountsIn;
    if trace == [] {
      NoCounts(a);
    } else {
      var before, e := trace[..|trace| - 1], trace[|trace| - 1];
      CountsTold(before, a);
      var s := Run(before).s;
      RunAgrees(before, e.tid, a);
      StepMoves(s, e, e.tid, a);
      if e.addr == a && !Spoiled(before, a) {
        HandleCounts(StatOf(s, a), SequenceOf(s, e.tid, a), e, History(before, e.tid, a));
      }
    }
  }

  lemma NoCounts(a: int)
    ensures CountsIn(StatOf(Empty(), a)) == Counts(0, 0, 0, 0, 0, 0)
  {
  }

  /** The event spoils its lock. */
  predicate Spoils(before: seq<Event>, e: Event) {
    !Spoiled(before, e.addr) && Breaks(History(before, e.tid, e.addr), e)
  }

  /** How many locks were spoiled by each kind of event. */
  function BadOf(trace: seq<Event>): BadHist {
    if trace == [] then BadHist(0, 0, 0, 0)
    else
      var before, e, b := trace[..|trace| - 1], trace[|trace| - 1], BadOf(trace[..|trace| - 1]);
      if !Spoils(before, e) then b
      else
        BadHist(b.acquire + One(e.kind.Acquire?), b.acquired + One(e.kind == GotIt),
                b.contended + One(e.kind == Contend), b.release + One(e.kind == Release))
  }

  lemma StepBad(s: Locks, e: Event)
    requires Step(s, e).Ok?
    ensures var o := Handle(StatOf(s, e.addr), SequenceOf(s, e.tid, e.addr), e).1;
            Step(s, e).s.bad ==
            if !StatOf(s, e.addr).discard && o.Broken? then
              BadHist(s.bad.acquire + One(e.kind.Acquire?), s.bad.acquired + One(e.kind == GotIt),
                      s.bad.contended + One(e.kind == Contend), s.bad.release + One(e.kind == Release))
            else s.bad
  {
    hide Handle;
  }

  lemma {:induction false} BadTold(trace: seq<Event>)
    requires Run(trace).Ok?
    ensures Run(trace).s.bad == BadOf(trace)
  {
    hide Step, Handle, History, Spoiled, Fits, Standing, StatOf, SequenceOf, Breaks;
    if trace != [] {
      var before, e := trace[..|trace| - 1], trace[|trace| - 1];
      BadTold(before);
      var s := Run(before).s;
      RunAgrees(before, e.tid, e.addr);
      StepBad(s, e);
      if !Spoiled(before, e.addr) {
        HandleFits(StatOf(s, e.addr), SequenceOf(s, e.tid, e.addr), e, History(before, e.tid, e.addr));
      }
    }
  }
}
