/**
 The two event queues of `perf top`: the reader queues events on `qe.in` while the flusher swaps
 the queues, waits for the reader to acknowledge the swap, and delivers the queue it took out.

 One step per shared-memory action and any interleaving. The condition variable wakes the flusher
 only by the reader's signal, and a signal nobody waits for is lost.
 */
module TopQueues {

  type Event = nat

  datatype Reader = RLoad | REnqueue(q: bool, e: Event) | RCheck | RLock | RClear | RSignal | RUnlock

  datatype Flusher =
    | FLoad | FPeek(q: bool) | FRotate
    | FLock(out: bool) | FSet(out: bool) | FWait(out: bool)
    | FAsleep(out: bool) | FRelock(out: bool) | FUnlock(out: bool)
    | FFlush(out: bool) | FExit

  datatype Mutex = Free | ByReader | ByFlusher

  /** `input` is qe.in; queue 1 is `true`. `queued` and `delivered` are history. */
  datatype Top = Top(
    queue0: seq<Event>, queue1: seq<Event>, input: bool, rotate: bool, mutex: Mutex,
    reader: Reader, flusher: Flusher, queued: seq<Event>, delivered: seq<Event>)

  /** The reader meets event `e`, and queueing may fail; the flusher may be told to stop, and delivery may fail. */
  datatype Actor = ReaderMoves(e: Event, ok: bool) | FlusherMoves(stop: bool, ok: bool)

  function Queue(s: Top, q: bool): seq<Event> {
    if q then s.queue1 else s.queue0
  }

  function SetQueue(s: Top, q: bool, v: seq<Event>): Top {
    if q then s.(queue1 := v) else s.(queue0 := v)
  }

  function Init(): Top {
    Top([], [], false, false, Free, RLoad, FLoad, [], [])
  }

  /** perf_top__mmap_read_idx, for one event after another. A failed queueing skips the check of `rotate`. */
  function ReaderStep(s: Top, e: Event, ok: bool): Top {
    match s.reader
    case RLoad => s.(reader := REnqueue(s.input, e))
    case REnqueue(q, ev) =>
      if ok then SetQueue(s, q, Queue(s, q) + [ev]).(queued := s.queued + [ev], reader := RCheck)
      else s.(reader := RLoad)
    case RCheck => s.(reader := if s.rotate then RLock else RLoad)
    case RLock => s.(mutex := ByReader, reader := RClear)
    case RClear => s.(rotate := false, reader := RSignal)
    case RSignal => s.(flusher := if s.flusher.FAsleep? then FRelock(s.flusher.out) else s.flusher, reader := RUnlock)
    case RUnlock => s.(mutex := Free, reader := RLoad)
  }

  predicate ReaderEnabled(s: Top) {
    s.reader.RLock? ==> s.mutex.Free?
  }

  /** process_thread and rotate_queues. Only the flusher writes `input`. */
  function FlusherStep(s: Top, stop: bool, ok: bool): Top {
    match s.flusher
    case FLoad => s.(flusher := if stop then FExit else FPeek(s.input))
    case FPeek(q) => s.(flusher := if Queue(s, q) == [] then FLoad else FRotate)
    case FRotate => s.(input := !s.input, flusher := FLock(s.input))
    case FLock(out) => s.(mutex := ByFlusher, flusher := FSet(out))
    case FSet(out) => s.(rotate := true, flusher := FWait(out))
    case FWait(out) => s.(mutex := Free, flusher := FAsleep(out))
    case FAsleep(out) => s
    case FRelock(out) => s.(mutex := ByFlusher, flusher := FUnlock(out))
    case FUnlock(out) => s.(mutex := Free, flusher := FFlush(out))
    case FFlush(out) =>
      var q := Queue(s, out);
      if q == [] || !ok then s.(flusher := FLoad)
      else SetQueue(s, out, q[1..]).(delivered := s.delivered + [q[0]])
    case FExit => s
  }

  predicate FlusherEnabled(s: Top) {
    match s.flusher
    case FLock(_) => s.mutex.Free?
    case FRelock(_) => s.mutex.Free?
    case FAsleep(_) => false
    case FExit => false
    case _ => true
  }

  predicate Enabled(s: Top, a: Actor) {
    match a
    case ReaderMoves(_, _) => ReaderEnabled(s)
    case FlusherMoves(_, _) => FlusherEnabled(s)
  }

  function Step(s: Top, a: Actor): Top {
    match a
    case ReaderMoves(e, ok) => ReaderStep(s, e, ok)
    case FlusherMoves(stop, ok) => FlusherStep(s, stop, ok)
  }

  /** An actor that cannot move is skipped. */
  function Next(s: Top, a: Actor): Top {
    if Enabled(s, a) then Step(s, a) else s
  }

  /** The state reached when the actors of `run` move in turn. */
  function Run(run: seq<Actor>): Top {
    if run == [] then Init()
    else
      Next(Run(run[..|run| - 1]), run[|run| - 1])
  }

  // The invariant.

  predicate ReaderHolds(r: Reader) {
    r.RClear? || r.RSignal? || r.RUnlock?
  }

  predicate FlusherHolds(f: Flusher) {
    f.FSet? || f.FWait? || f.FUnlock?
  }

  predicate Swapped(f: Flusher) {
    f.FLock? || f.FSet? || f.FWait? || f.FAsleep? || f.FRelock? || f.FUnlock? || f.FFlush?
  }

  predicate Acknowledged(f: Flusher) {
    f.FRelock? || f.FUnlock? || f.FFlush?
  }

  predicate Protocol(s: Top) {
    && (s.mutex.ByReader? <==> ReaderHolds(s.reader))
    && (s.mutex.ByFlusher? <==> FlusherHolds(s.flusher))
    && (Swapped(s.flusher) ==> s.flusher.out != s.input)
    && (s.rotate ==> s.flusher.FWait? || s.flusher.FAsleep?)
    && (s.flusher.FWait? ==> s.rotate)
    && (s.flusher.FAsleep? ==> s.rotate || s.reader.RSignal?)
    && (s.reader.RLock? || s.reader.RClear? ==> s.rotate)
    && (s.reader.RSignal? ==> !s.rotate && s.flusher.FAsleep?)
    && (s.reader.REnqueue? && !Swapped(s.flusher) ==> s.reader.q == s.input)
    && (s.reader.REnqueue? && Acknowledged(s.flusher) ==> s.reader.q == s.input)
  }

  predicate Conserved(s: Top) {
    multiset(s.queued) == multiset(s.queue0) + multiset(s.queue1) + multiset(s.delivered)
  }

  predicate Inv(s: Top) {
    Protocol(s) && Conserved(s)
  }

  lemma ReaderKeepsProtocol(s: Top, e: Event, ok: bool)
    requires Protocol(s) && ReaderEnabled(s)
    ensures Protocol(ReaderStep(s, e, ok))
  {
  }

  lemma FlusherKeepsProtocol(s: Top, stop: bool, ok: bool)
    requires Protocol(s) && FlusherEnabled(s)
    ensures Protocol(FlusherStep(s, stop, ok))
  {
  }

  lemma EnqueueConserves(s: Top, q: bool, e: Event)
    requires Conserved(s)
    ensures Conserved(SetQueue(s, q, Queue(s, q) + [e]).(queued := s.queued + [e], reader := RCheck))
  {
  }

  lemma DeliverConserves(s: Top, q: bool)
    requires Conserved(s) && Queue(s, q) != []
    ensures Conserved(SetQueue(s, q, Queue(s, q)[1..]).(delivered := s.delivered + [Queue(s, q)[0]]))
  {
    assert Queue(s, q) == [Queue(s, q)[0]] + Queue(s, q)[1..];
  }

  lemma OthersConserve(s: Top, s': Top)
    requires Conserved(s)
    requires s'.queue0 == s.queue0 && s'.queue1 == s.queue1 && s'.queued == s.queued && s'.delivered == s.delivered
    ensures Conserved(s')
  {
  }

  lemma ReaderConserves(s: Top, e: Event, ok: bool)
    requires Conserved(s)
    ensures Conserved(ReaderStep(s, e, ok))
  {
    hide Conserved;
    if s.reader.REnqueue? && ok {
      EnqueueConserves(s, s.reader.q, s.reader.e);
    } else {
      OthersConserve(s, ReaderStep(s, e, ok));
    }
  }

  lemma FlusherConserves(s: Top, stop: bool, ok: bool)
    requires Conserved(s)
    ensures Conserved(FlusherStep(s, stop, ok))
  {
    hide Conserved;
    if s.flusher.FFlush? && Queue(s, s.flusher.out) != [] && ok {
      DeliverConserves(s, s.flusher.out);
    } else {
      OthersConserve(s, FlusherStep(s, stop, ok));
    }
  }

  lemma StepKeepsInv(s: Top, a: Actor)
    requires Inv(s) && Enabled(s, a)
    ensures Inv(Step(s, a))
  {
    hide Protocol, Conserved, ReaderStep, FlusherStep;
    match a
    case ReaderMoves(e, ok) =>
      ReaderKeepsProtocol(s, e, ok);
      ReaderConserves(s, e, ok);
    case FlusherMoves(stop, ok) =>
      FlusherKeepsProtocol(s, stop, ok);
      FlusherConserves(s, stop, ok);
  }

  lemma {:induction false} RunInv(run: seq<Actor>)
    ensures Inv(Run(run))
  {
    if run != [] {
      RunInv(run[..|run| - 1]);
      var s := Run(run[..|run| - 1]);
      if Enabled(s, run[|run| - 1]) { StepKeepsInv(s, run[|run| - 1]); }
    }
  }

  // What follows.

  /** The flusher never delivers from the queue the reader is adding to. */
  lemma QueuesNotShared(run: seq<Actor>)
    ensures var s := Run(run); s.flusher.FFlush? && s.reader.REnqueue? ==> s.flusher.out != s.reader.q
  {
    RunInv(run);
  }

  /** Every queued event is in one queue or delivered, as often as it was queued. */
  lemma EventsConserved(run: seq<Actor>, e: Event)
    ensures var s := Run(run);
            multiset(s.queued)[e] == multiset(s.queue0)[e] + multiset(s.queue1)[e] + multiset(s.delivered)[e]
  {
    RunInv(run);
  }

  /** A signal is only sent while the flusher waits for it, so no acknowledgement is lost. */
  lemma SignalNeverMissed(run: seq<Actor>)
    ensures var s := Run(run); s.reader.RSignal? ==>
        s.flusher.FAsleep? && ReaderEnabled(s) && ReaderStep(s, 0, true).flusher.FRelock?
  {
    RunInv(run);
  }

  /** The reader is stuck only on a mutex whose holder can move; so is the flusher. */
  lemma NoDeadlock(run: seq<Actor>)
    ensures var s := Run(run);
            && (!ReaderEnabled(s) ==> FlusherEnabled(s))
            && (!FlusherEnabled(s) && !s.flusher.FAsleep? && !s.flusher.FExit? ==> ReaderEnabled(s))
  {
    RunInv(run);
  }

  /** How many steps of its own the reader needs to acknowledge a waiting flusher. */
  function AckDistance(r: Reader): nat {
    match r
    case RUnlock => 7
    case RLoad => 6
    case REnqueue(_, _) => 5
    case RCheck => 4
    case RLock => 3
    case RClear => 2
    case RSignal => 1
  }

  /** While the flusher sleeps the reader can always move and each step brings the signal nearer, if queueing works. */
  lemma AckApproaches(run: seq<Actor>, e: Event)
    requires Run(run).flusher.FAsleep?
    ensures var s := Run(run);
            && ReaderEnabled(s)
            && var s' := ReaderStep(s, e, true);
               if s.reader.RSignal? then s'.flusher == FRelock(s.flusher.out)
               else s'.flusher == s.flusher && AckDistance(s'.reader) < AckDistance(s.reader)
  {
    RunInv(run);
  }

  /** One more queued event is enough: within seven steps of the reader a sleeping flusher is woken. */
  lemma {:induction false} AckBounded(run: seq<Actor>, more: seq<Actor>)
    requires Run(run).flusher.FAsleep?
    requires forall a | a in more :: a.ReaderMoves? && a.ok
    requires |more| >= AckDistance(Run(run).reader)
    ensures exists k | 0 <= k <= |more| :: Run(run + more[..k]).flusher == FRelock(Run(run).flusher.out)
    decreases AckDistance(Run(run).reader)
  {
    var a := more[0];
    AckApproaches(run, a.e);
    assert (run + [a])[..|run|] == run;
    assert Run(run + [a]) == ReaderStep(Run(run), a.e, true);
    assert more[..1] == [a];
    if !Run(run).reader.RSignal? {
      AckBounded(run + [a], more[1..]);
      var k :| 0 <= k <= |more[1..]| && Run(run + [a] + more[1..][..k]).flusher == FRelock(Run(run + [a]).flusher.out);
      assert more[..k + 1] == [a] + more[1..][..k];
      assert run + ([a] + more[1..][..k]) == run + [a] + more[1..][..k];
    }
  }

  // Exactly when a sleeping flusher is woken.

  predicate Idle(r: Reader) { r.RLoad? || r.REnqueue? }

  /** An event was queued and the reader is about to look for a swap to acknowledge, or acknowledging one. */
  predicate Acknowledging(r: Reader) { r.RCheck? || r.RLock? || r.RClear? || r.RSignal? }

  /** The state after some moves. */
  function After(s: Top, moves: seq<Actor>): Top {
    if moves == [] then s else Next(After(s, moves[..|moves| - 1]), moves[|moves| - 1])
  }

  lemma {:induction false} RunAfter(run: seq<Actor>, moves: seq<Actor>)
    ensures Run(run + moves) == After(Run(run), moves)
  {
    hide Next;
    if moves == [] {
      assert run + moves == run;
    } else {
      assert (run + moves)[..|run + moves| - 1] == run + moves[..|moves| - 1];
      RunAfter(run, moves[..|moves| - 1]);
    }
  }

  lemma {:induction false} AfterInv(s: Top, moves: seq<Actor>)
    requires Inv(s)
    ensures Inv(After(s, moves))
  {
    hide Inv, Step, Enabled;
    if moves != [] {
      AfterInv(s, moves[..|moves| - 1]);
      var t, a := After(s, moves[..|moves| - 1]), moves[|moves| - 1];
      if Enabled(t, a) { StepKeepsInv(t, a); }
    }
  }

  /** The flusher sleeps through all the moves. */
  predicate SleepsThrough(s: Top, moves: seq<Actor>) {
    After(s, moves).flusher == s.flusher && (moves != [] ==> SleepsThrough(s, moves[..|moves| - 1]))
  }

  /**
   One move while the flusher sleeps: only queueing takes an idle reader to acknowledging, and only the
   signal takes it back.
   */
  lemma AsleepMoves(s: Top, a: Actor)
    requires Protocol(s) && s.flusher.FAsleep?
    ensures var t := Next(s, a);
            && (Idle(s.reader) ==> t.flusher == s.flusher)
            && (Idle(s.reader) && Idle(t.reader) ==> t.queued == s.queued)
            && (Idle(s.reader) && !Idle(t.reader) ==> Acknowledging(t.reader) && |t.queued| > |s.queued|)
            && (Acknowledging(s.reader) ==> Acknowledging(t.reader) || !t.flusher.FAsleep?)
  {
  }

  lemma QueuedGrows(s: Top, a: Actor)
    ensures |Next(s, a).queued| >= |s.queued|
  {
  }

  /** While the flusher sleeps, the reader has queued an event if and only if it is acknowledging the swap. */
  lemma {:induction false} AsleepMeans(s: Top, moves: seq<Actor>)
    requires Inv(s) && s.flusher.FAsleep? && Idle(s.reader) && SleepsThrough(s, moves)
    ensures var t := After(s, moves);
            if Idle(t.reader) then t.queued == s.queued else Acknowledging(t.reader) && |t.queued| > |s.queued|
  {
    hide Protocol, Conserved, Next;
    if moves != [] {
      var before, a := moves[..|moves| - 1], moves[|moves| - 1];
      AsleepMeans(s, before);
      AfterInv(s, before);
      AsleepMoves(After(s, before), a);
      QueuedGrows(After(s, before), a);
    }
  }

  /** Without a newly queued event the flusher sleeps on, whoever moves. */
  lemma {:induction false} WokenByTraffic(s: Top, moves: seq<Actor>)
    requires Inv(s) && s.flusher.FAsleep? && Idle(s.reader)
    ensures var t := After(s, moves);
            |t.queued| >= |s.queued| && (|t.queued| == |s.queued| ==> SleepsThrough(s, moves) && Idle(t.reader))
  {
    hide Protocol, Conserved, Next;
    if moves != [] {
      var before, a := moves[..|moves| - 1], moves[|moves| - 1];
      WokenByTraffic(s, before);
      AfterInv(s, before);
      QueuedGrows(After(s, before), a);
      if |After(s, before).queued| == |s.queued| { AsleepMoves(After(s, before), a); }
    }
  }

  /**
   From every state of every run (RunInv, RunAfter), over every interleaving that takes the reader from
   idle to idle, a sleeping flusher sleeps on if and only if no event is queued meanwhile.
   */
  lemma WokenExactly(s: Top, moves: seq<Actor>)
    requires Inv(s) && s.flusher.FAsleep? && Idle(s.reader) && Idle(After(s, moves).reader)
    ensures SleepsThrough(s, moves) <==> After(s, moves).queued == s.queued
  {
    hide After, SleepsThrough;
    WokenByTraffic(s, moves);
    if SleepsThrough(s, moves) { AsleepMeans(s, moves); }
  }

  lemma AfterMore(s: Top, moves: seq<Actor>, a: Actor)
    ensures After(s, moves + [a]) == Next(After(s, moves), a)
  {
    hide Next;
    assert (moves + [a])[..|moves + [a]| - 1] == moves;
  }

  /** One event is queued and the flusher swaps the queues: it sleeps, and the reader is idle. */
  lemma AsleepReached(r: Actor, f: Actor)
    requires r == ReaderMoves(0, true) && f == FlusherMoves(false, true)
    ensures var s := After(Init(), [r] + [r] + [r] + [f] + [f] + [f] + [f] + [f] + [f]);
            s.flusher == FAsleep(false) && s.reader == RLoad && s.rotate && s.queue0 == [0]
  {
    hide After, Next;
    var none: seq<Actor>, s := [], Init();
    assert none + [r] == [r];
    AfterNone(s);
    AfterMore(s, none, r);
    AfterMore(s, [r], r);
    AfterMore(s, [r] + [r], r);
    ReaderQueues(r);
    AfterMore(s, [r] + [r] + [r], f);
    AfterMore(s, [r] + [r] + [r] + [f], f);
    AfterMore(s, [r] + [r] + [r] + [f] + [f], f);
    FlusherSwaps(f);
    AfterMore(s, [r] + [r] + [r] + [f] + [f] + [f], f);
    AfterMore(s, [r] + [r] + [r] + [f] + [f] + [f] + [f], f);
    AfterMore(s, [r] + [r] + [r] + [f] + [f] + [f] + [f] + [f], f);
    FlusherWaits(f);
  }

  /** The event is in the queue that the reader uses; then the flusher has swapped the queues. */
  function Queued(): Top { Init().(queue0 := [0], queued := [0]) }
  function Taken(): Top { Queued().(input := true, flusher := FLock(false)) }

  lemma ReaderQueues(r: Actor)
    requires r == ReaderMoves(0, true)
    ensures Next(Next(Next(Init(), r), r), r) == Queued()
  {
  }

  lemma FlusherSwaps(f: Actor)
    requires f == FlusherMoves(false, true)
    ensures Next(Next(Next(Queued(), f), f), f) == Taken()
  {
  }

  lemma FlusherWaits(f: Actor)
    requires f == FlusherMoves(false, true)
    ensures Next(Next(Next(Taken(), f), f), f) == Taken().(rotate := true, flusher := FAsleep(false))
  {
  }

  lemma AfterNone(s: Top)
    ensures After(s, []) == s
  {
  }

  // Delivery.

  /** What the reader loads is what it queues, on the queue it saw then; nothing leaves that queue in between. */
  lemma {:induction false} EventQueued(s: Top, e: Event, ok: bool, moves: seq<Actor>, f: Event)
    requires Inv(s) && s.reader.RLoad? && forall a | a in moves :: a.FlusherMoves?
    ensures var t := Next(After(Next(s, ReaderMoves(e, ok)), moves), ReaderMoves(f, true));
            t.queued == s.queued + [e] && Queue(t, s.input) == Queue(s, s.input) + [e]
  {
    hide After, Inv;
    var r := ReaderMoves(e, ok);
    StepKeepsInv(s, r);
    FlusherLeaves(Next(s, r), moves);
  }

  lemma {:induction false} FlusherLeaves(s: Top, moves: seq<Actor>)
    requires Inv(s) && s.reader.REnqueue? && forall a | a in moves :: a.FlusherMoves?
    ensures var t := After(s, moves);
            t.reader == s.reader && t.queued == s.queued && Queue(t, s.reader.q) == Queue(s, s.reader.q)
  {
    hide Conserved;
    if moves != [] {
      assert moves[|moves| - 1] in moves;
      FlusherLeaves(s, moves[..|moves| - 1]);
      AfterInv(s, moves[..|moves| - 1]);
    }
  }

  /** The flusher takes only a queue with events, and it still has them when the flush begins. */
  predicate TakesSomething(s: Top) {
    && (s.flusher.FPeek? ==> s.flusher.q == s.input)
    && (s.flusher.FRotate? ==> Queue(s, s.input) != [])
    && (Swapped(s.flusher) && !s.flusher.FFlush? ==> Queue(s, s.flusher.out) != [])
  }

  lemma {:induction false} NeverTakesEmpty(run: seq<Actor>)
    ensures TakesSomething(Run(run))
  {
    hide Next, TakesSomething;
    if run == [] {
      assert TakesSomething(Init()) by { NothingTaken(); }
    } else {
      NeverTakesEmpty(run[..|run| - 1]);
      RunInv(run[..|run| - 1]);
      TakesOn(Run(run[..|run| - 1]), run[|run| - 1]);
    }
  }

  lemma NothingTaken()
    ensures TakesSomething(Init())
  {
  }

  lemma TakesOn(s: Top, a: Actor)
    requires Protocol(s) && TakesSomething(s)
    ensures TakesSomething(Next(s, a))
  {
  }

  function FlusherCount(moves: seq<Actor>): nat {
    if moves == [] then 0
    else FlusherCount(moves[..|moves| - 1]) + if moves[|moves| - 1].FlusherMoves? then 1 else 0
  }

  predicate NoneFails(moves: seq<Actor>) {
    forall a | a in moves :: a.FlusherMoves? ==> a.ok
  }

  /** Each successful move of a flushing flusher delivers the next event, whatever the reader does meanwhile. */
  lemma {:induction false} FlushAdvances(s: Top, moves: seq<Actor>)
    requires Inv(s) && s.flusher.FFlush? && NoneFails(moves)
    requires FlusherCount(moves) <= |Queue(s, s.flusher.out)|
    ensures var t, q, n := After(s, moves), Queue(s, s.flusher.out), FlusherCount(moves);
            t.flusher == s.flusher && Queue(t, s.flusher.out) == q[n..] && t.delivered == s.delivered + q[..n]
  {
    hide Conserved, Protocol, Next;
    if moves != [] {
      var before, a := moves[..|moves| - 1], moves[|moves| - 1];
      assert a in moves && forall b | b in before :: b in moves;
      FlushAdvances(s, before);
      AfterInv(s, before);
      FlushMove(After(s, before), a);
      var q, n := Queue(s, s.flusher.out), FlusherCount(before);
      if a.FlusherMoves? {
        assert q[..n + 1] == q[..n] + [q[n]];
      }
    }
  }

  /** One move: only a delivery touches the queue that is flushed. */
  lemma FlushMove(s: Top, a: Actor)
    requires Protocol(s) && s.flusher.FFlush? && (a.FlusherMoves? ==> a.ok && Queue(s, s.flusher.out) != [])
    ensures var t, q := Next(s, a), Queue(s, s.flusher.out);
            && t.flusher == s.flusher
            && (a.FlusherMoves? ==> Queue(t, s.flusher.out) == q[1..] && t.delivered == s.delivered + [q[0]])
            && (a.ReaderMoves? ==> Queue(t, s.flusher.out) == q && t.delivered == s.delivered)
  {
  }

  lemma {:induction false} PrefixWith(moves: seq<Actor>, n: nat) returns (k: nat)
    requires n <= FlusherCount(moves)
    ensures k <= |moves| && FlusherCount(moves[..k]) == n
  {
    k := |moves|;
    assert moves[..k] == moves;
    if n < FlusherCount(moves) {
      k := PrefixWith(moves[..|moves| - 1], n);
      assert moves[..|moves| - 1][..k] == moves[..k];
    }
  }

  /**
   From every state of every run in which the flusher flushes a queue, over every interleaving with at least
   as many moves of the flusher as it has events, none failing, there is a moment when the queue is empty
   and exactly its events were delivered, in order.
   */
  lemma FlushDelivers(s: Top, moves: seq<Actor>)
    requires Inv(s) && s.flusher.FFlush? && NoneFails(moves)
    requires FlusherCount(moves) >= |Queue(s, s.flusher.out)|
    ensures exists k | 0 <= k <= |moves| ::
              && Queue(After(s, moves[..k]), s.flusher.out) == []
              && After(s, moves[..k]).delivered == s.delivered + Queue(s, s.flusher.out)
  {
    hide After, Inv;
    var q := Queue(s, s.flusher.out);
    var k := PrefixWith(moves, |q|);
    FlushAdvances(s, moves[..k]);
    assert q[..|q|] == q;
  }

  /** The flusher leaves a flush exactly when the queue is empty or a delivery fails, and then starts over. */
  lemma FlushEnds(s: Top, a: Actor)
    requires Inv(s) && s.flusher.FFlush?
    ensures Next(s, a).flusher != s.flusher <==> a.FlusherMoves? && (Queue(s, s.flusher.out) == [] || !a.ok)
    ensures Next(s, a).flusher != s.flusher ==>
              Next(s, a).flusher == FLoad && Queue(Next(s, a), s.flusher.out) == Queue(s, s.flusher.out)
  {
    hide Conserved;
  }

  /** Events come out as they went in: first what is out for delivery, then what is being queued. */
  predicate InOrder(s: Top) {
    && s.queued == s.delivered + Queue(s, !s.input) + Queue(s, s.input)
    && (!Swapped(s.flusher) ==> Queue(s, !s.input) == [])
    && (s.reader.REnqueue? && s.reader.q != s.input ==> Queue(s, s.input) == [])
  }

  lemma ReaderInOrder(s: Top, e: Event, ok: bool)
    requires Protocol(s) && InOrder(s)
    ensures InOrder(ReaderStep(s, e, ok))
  {
    if s.reader.REnqueue? && ok {
      var t := ReaderStep(s, e, ok);
      assert t.delivered + Queue(t, !t.input) + Queue(t, t.input) == s.queued + [s.reader.e];
    }
  }

  /** The move is a delivery that fails. */
  predicate FailsDelivery(s: Top, a: Actor) {
    s.flusher.FFlush? && Queue(s, s.flusher.out) != [] && a.FlusherMoves? && !a.ok
  }

  lemma FlusherInOrder(s: Top, stop: bool, ok: bool)
    requires Protocol(s) && InOrder(s) && !FailsDelivery(s, FlusherMoves(stop, ok))
    ensures InOrder(FlusherStep(s, stop, ok))
  {
    if s.flusher.FFlush? && Queue(s, s.flusher.out) != [] {
      DeliveryInOrder(s);
    }
  }

  lemma DeliveryInOrder(s: Top)
    requires Protocol(s) && InOrder(s) && s.flusher.FFlush? && Queue(s, s.flusher.out) != []
    ensures InOrder(SetQueue(s, s.flusher.out, Queue(s, s.flusher.out)[1..]).(delivered :=
        s.delivered + [Queue(s, s.flusher.out)[0]]))
  {
    var q, rest := Queue(s, !s.input), Queue(s, s.input);
    assert s.delivered + q + rest == s.delivered + [q[0]] + q[1..] + rest;
  }

  predicate NoDeliveryFails(run: seq<Actor>) {
    run == [] || (NoDeliveryFails(run[..|run| - 1]) && !FailsDelivery(Run(run[..|run| - 1]), run[|run| - 1]))
  }

  /** In every run without a failed delivery, events are delivered in the order in which they were queued. */
  lemma {:induction false} DeliveredInOrder(run: seq<Actor>)
    requires NoDeliveryFails(run)
    ensures InOrder(Run(run)) && Run(run).delivered <= Run(run).queued
  {
    hide Protocol, Conserved, ReaderStep, FlusherStep, FailsDelivery;
    if run != [] {
      var before, a := run[..|run| - 1], run[|run| - 1];
      DeliveredInOrder(before);
      RunInv(before);
      match a {
        case ReaderMoves(e, ok) => ReaderInOrder(Run(before), e, ok);
        case FlusherMoves(stop, ok) => FlusherInOrder(Run(before), stop, ok);
      }
    }
  }
}
