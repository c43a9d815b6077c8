/**
 The asynchronous writes of `perf record`. A control block carries one request at a time; when the
 kernel wrote only part of it, the rest is queued again. What the kernel answers is an input.

 The state keeps, beside the control blocks, every request ever pushed and what became of it, and
 the contents of the file.
 */
module AioWrite {
  import opened Sums

  const FREE := -1

  /** A control block: the file it writes to, or FREE, and where the rest of its data is and goes. */
  datatype Block = Block(fd: int, buf: nat, nbytes: nat, offset: nat)

  /** A request as it was pushed. */
  datatype Job = Job(buf: nat, data: seq<int>, off: nat)
  datatype Status = Pending(block: nat) | Done | Lost

  datatype Aio = Aio(
    blocks: seq<Block>, refcount: int,
    job: seq<nat>, jobs: seq<Job>, status: seq<Status>, file: map<nat, int>)

  /** What the kernel says of a request, and what it says when the request is queued. */
  datatype Answer = InProgress | Failed | Wrote(n: nat)
  datatype Reply = Reply(answer: Answer, again: nat, queued: bool)

  predicate Busy(b: Block) { b.fd != FREE }

  function Written(r: Reply): nat { if r.answer.Wrote? then r.answer.n else 0 }

  /** The kernel never writes more than it was asked to. */
  predicate Possible(b: Block, r: Reply) { Written(r) <= b.nbytes }

  // The file.

  function Store(file: map<nat, int>, off: nat, bytes: seq<int>): map<nat, int> {
    if bytes == [] then file
    else Store(file, off, bytes[..|bytes| - 1])[off + |bytes| - 1 := bytes[|bytes| - 1]]
  }

  lemma {:induction false} StoreIs(file: map<nat, int>, off: nat, bytes: seq<int>)
    ensures var r := Store(file, off, bytes);
            && (forall k: nat :: k in r <==> k in file || off <= k < off + |bytes|)
            && (forall k: nat | k in r :: r[k] == if off <= k < off + |bytes| then bytes[k - off] else file[k])
  {
    if bytes != [] { StoreIs(file, off, bytes[..|bytes| - 1]); }
  }

  predicate ByteAt(file: map<nat, int>, k: nat, v: int) {
    k in file && file[k] == v
  }

  predicate Holds(file: map<nat, int>, off: nat, bytes: seq<int>) {
    forall k | 0 <= k < |bytes| :: ByteAt(file, off + k, bytes[k])
  }

  lemma StoreExtends(file: map<nat, int>, off: nat, bytes: seq<int>, a: nat, n: nat)
    requires a + n <= |bytes| && Holds(file, off, bytes[..a])
    ensures Holds(Store(file, off + a, bytes[a..a + n]), off, bytes[..a + n])
  {
    hide Store;
    StoreIs(file, off + a, bytes[a..a + n]);
    var f, part := Store(file, off + a, bytes[a..a + n]), bytes[..a + n];
    forall k | 0 <= k < |part| ensures ByteAt(f, off + k, part[k]) {
      if k < a {
        assert bytes[..a][k] == part[k];
      } else {
        assert bytes[a..a + n][k - a] == part[k];
      }
    }
  }

  /** Two requests for different parts of the file. */
  predicate Apart(x: Job, y: Job) {
    x.off + |x.data| <= y.off || y.off + |y.data| <= x.off
  }

  lemma StoreApart(file: map<nat, int>, x: Job, y: Job, a: nat, n: nat, m: nat)
    requires Apart(x, y) && a + n <= |x.data| && m <= |y.data| && Holds(file, y.off, y.data[..m])
    ensures Holds(Store(file, x.off + a, x.data[a..a + n]), y.off, y.data[..m])
  {
    hide Store;
    StoreIs(file, x.off + a, x.data[a..a + n]);
  }

  // The operations.

  predicate Sized(s: Aio) {
    && |s.job| == |s.blocks| && |s.status| == |s.jobs|
    && (forall i | 0 <= i < |s.job| :: s.job[i] < |s.jobs| || !Busy(s.blocks[i]))
  }

  /** Queue a request on a free block. */
  function Push(s: Aio, i: nat, fd: int, j: Job, r: Reply): Aio
    requires Sized(s) && i < |s.blocks|
  {
    if r.queued then
      s.(blocks := s.blocks[i := Block(fd, j.buf, |j.data|, j.off)], refcount := s.refcount + 1,
         job := s.job[i := |s.jobs|], jobs := s.jobs + [j], status := s.status + [Pending(i)])
    else
      s.(blocks := s.blocks[i := Block(FREE, j.buf, |j.data|, j.off)])
  }

  function Restarted(b: Block, written: nat, queued: bool): Block
    requires written <= b.nbytes
  {
    Block(if queued then b.fd else FREE, b.buf + written, b.nbytes - written, b.offset + written)
  }

  /** The part of its data that a request writes next. */
  function Part(j: Job, b: Block, n: nat): seq<int>
    requires j.buf <= b.buf && b.buf - j.buf + n <= |j.data|
  {
    j.data[b.buf - j.buf..b.buf - j.buf + n]
  }

  /** The request in a block is the rest of the one that was pushed. */
  predicate RestOf(j: Job, b: Block) {
    && j.off <= b.offset && b.offset + b.nbytes == j.off + |j.data|
    && b.buf == j.buf + (b.offset - j.off)
  }

  predicate Completable(s: Aio, i: nat, r: Reply) {
    && Sized(s) && i < |s.blocks| && Busy(s.blocks[i]) && Possible(s.blocks[i], r)
    && RestOf(s.jobs[s.job[i]], s.blocks[i])
  }

  /** Look at a request: not finished, finished in full, or the rest is queued again. */
  function Complete(s: Aio, i: nat, r: Reply): Aio
    requires Completable(s, i, r)
  {
    var b, id, w := s.blocks[i], s.job[i], Written(r);
    if r.answer.InProgress? then s
    else
      var file := Store(s.file, b.offset, Part(s.jobs[id], b, w));
      if w == b.nbytes then
        s.(blocks := s.blocks[i := b.(fd := FREE)], refcount := s.refcount - 1, status := s.status[id := Done],
            file := file)
      else
        s.(blocks := s.blocks[i := Restarted(b, w, r.queued)],
           status := if r.queued then s.status else s.status[id := Lost], file := file)
  }

  /** Whether the block is reported free. */
  predicate Freed(b: Block, r: Reply) {
    !r.answer.InProgress? && Written(r) == b.nbytes
  }

  // What every operation keeps.

  /** A busy block and its request belong to each other, and what is not left to write is in the file. */
  predicate BlockOk(s: Aio, i: nat)
    requires Sized(s) && i < |s.blocks|
  {
    var b := s.blocks[i];
    Busy(b) ==>
      var j := s.jobs[s.job[i]];
      && s.status[s.job[i]] == Pending(i)
      && RestOf(j, b)
      && Holds(s.file, j.off, j.data[..b.offset - j.off])
  }

  predicate JobOk(s: Aio, id: nat)
    requires Sized(s) && id < |s.jobs|
  {
    match s.status[id]
    case Pending(i) => i < |s.blocks| && Busy(s.blocks[i]) && s.job[i] == id
    case Done => Holds(s.file, s.jobs[id].off, s.jobs[id].data)
    case Lost => true
  }

  function BusyOf(b: Block): int { if Busy(b) then 1 else 0 }
  function LostOf(x: Status): int { if x.Lost? then 1 else 0 }

  predicate AllApart(jobs: seq<Job>) {
    forall x, y | 0 <= x < |jobs| && 0 <= y < |jobs| && x != y :: Apart(jobs[x], jobs[y])
  }

  predicate BlocksOk(s: Aio)
    requires Sized(s)
  {
    forall i: nat | i < |s.blocks| :: BlockOk(s, i)
  }

  predicate JobsOk(s: Aio)
    requires Sized(s)
  {
    forall id: nat | id < |s.jobs| :: JobOk(s, id)
  }

  /** The reference count is held once for each request under way, and for each that was lost. */
  predicate CountOk(s: Aio) {
    s.refcount == SumOf(BusyOf, s.blocks) + SumOf(LostOf, s.status)
  }

  predicate Inv(s: Aio) {
    Sized(s) && AllApart(s.jobs) && BlocksOk(s) && JobsOk(s) && CountOk(s)
  }

  // Pushing.

  lemma PushKeeps(s: Aio, i: nat, fd: int, j: Job, r: Reply)
    requires Inv(s) && i < |s.blocks| && !Busy(s.blocks[i]) && fd != FREE
    requires forall id | 0 <= id < |s.jobs| :: Apart(s.jobs[id], j)
    ensures Inv(Push(s, i, fd, j, r))
  {
    hide Holds, SumOf;
    var t := Push(s, i, fd, j, r);
    SumUpdate(BusyOf, s.blocks, i, t.blocks[i]);
    SumAppend(LostOf, s.status, Pending(i));
    forall k: nat | k < |t.blocks| ensures BlockOk(t, k) {
      assert BlockOk(s, k);
      if k == i { NothingHeld(t.file, j.off, j.data); }
    }
    forall id: nat | id < |t.jobs| ensures JobOk(t, id) {
      if id < |s.jobs| { assert JobOk(s, id); }
    }
  }

  lemma NothingHeld(file: map<nat, int>, off: nat, bytes: seq<int>)
    ensures Holds(file, off, bytes[..0])
  {
  }

  // Completing.

  /** What a completion does to the file, seen from any request. */
  lemma CompleteFile(s: Aio, i: nat, r: Reply)
    requires Inv(s) && Completable(s, i, r) && !r.answer.InProgress?
    ensures var id, b := s.job[i], s.blocks[i];
            var t := Complete(s, i, r);
            && Holds(t.file, s.jobs[id].off, s.jobs[id].data[..b.offset - s.jobs[id].off + Written(r)])
            && (forall x: nat, m: nat | x < |s.jobs| && x != id && m <= |s.jobs[x].data| &&
                Holds(s.file, s.jobs[x].off, s.jobs[x].data[..m]) ::
                  Holds(t.file, s.jobs[x].off, s.jobs[x].data[..m]))
  {
    hide Holds, Store, AllApart, JobsOk, CountOk;
    var id, b, w := s.job[i], s.blocks[i], Written(r);
    var j := s.jobs[id];
    assert BlockOk(s, i);
    StoreExtends(s.file, j.off, j.data, b.offset - j.off, w);
    forall x: nat, m: nat | x < |s.jobs| && x != id && m <= |s.jobs[x].data| &&
      Holds(s.file, s.jobs[x].off, s.jobs[x].data[..m])
      ensures Holds(Complete(s, i, r).file, s.jobs[x].off, s.jobs[x].data[..m])
    {
      assert Apart(j, s.jobs[x]) by { ApartAt(s.jobs, id, x); }
      StoreApart(s.file, j, s.jobs[x], b.offset - j.off, w, m);
    }
  }

  lemma ApartAt(jobs: seq<Job>, x: nat, y: nat)
    requires AllApart(jobs) && x < |jobs| && y < |jobs| && x != y
    ensures Apart(jobs[x], jobs[y])
  {
  }

  lemma CompleteBlocks(s: Aio, i: nat, r: Reply)
    requires Inv(s) && Completable(s, i, r) && !r.answer.InProgress?
    ensures Sized(Complete(s, i, r)) && BlocksOk(Complete(s, i, r))
  {
    hide Holds, Store, AllApart, JobsOk, CountOk;
    CompleteFile(s, i, r);
    var t := Complete(s, i, r);
    forall k: nat | k < |t.blocks| ensures BlockOk(t, k) {
      assert BlockOk(s, k) && BlockOk(s, i);
    }
  }

  lemma CompleteJobs(s: Aio, i: nat, r: Reply)
    requires Inv(s) && Completable(s, i, r) && !r.answer.InProgress?
    ensures Sized(Complete(s, i, r)) && JobsOk(Complete(s, i, r))
  {
    hide Holds, Store, AllApart, CountOk;
    CompleteFile(s, i, r);
    var t := Complete(s, i, r);
    assert BlockOk(s, i);
    forall id: nat | id < |t.jobs| ensures JobOk(t, id) {
      assert JobOk(s, id);
      var j := s.jobs[id];
      assert j.data[..|j.data|] == j.data;
    }
  }

  lemma CompleteCount(s: Aio, i: nat, r: Reply)
    requires Inv(s) && Completable(s, i, r)
    ensures CountOk(Complete(s, i, r))
  {
    hide Store, JobsOk, AllApart, SumOf;
    var t, id := Complete(s, i, r), s.job[i];
    assert BlockOk(s, i);
    SumUpdate(BusyOf, s.blocks, i, t.blocks[i]);
    SumUpdate(LostOf, s.status, id, t.status[id]);
    assert s.blocks[i := s.blocks[i]] == s.blocks && s.status[id := s.status[id]] == s.status;
  }

  lemma CompleteKeeps(s: Aio, i: nat, r: Reply)
    requires Inv(s) && Completable(s, i, r)
    ensures Inv(Complete(s, i, r))
  {
    hide BlocksOk, JobsOk, AllApart, CountOk, Store;
    CompleteCount(s, i, r);
    if !r.answer.InProgress? {
      CompleteBlocks(s, i, r);
      CompleteJobs(s, i, r);
    }
  }

  /** In a reachable state every possible answer can be taken. */
  lemma CompletableIn(s: Aio, i: nat, r: Reply)
    requires Inv(s) && i < |s.blocks| && Busy(s.blocks[i]) && Possible(s.blocks[i], r)
    ensures Completable(s, i, r)
  {
    assert BlockOk(s, i);
  }

  /** A restart keeps the end of the request and advances the buffer with the offset. */
  lemma RestartKeepsEnd(s: Aio, i: nat, r: Reply)
    requires Completable(s, i, r)
    ensures var b, c := s.blocks[i], Complete(s, i, r).blocks[i];
            && (!Freed(b, r) ==> c.offset + c.nbytes == b.offset + b.nbytes)
            && c.buf - b.buf == c.offset - b.offset
  {
  }

  /**
   A completion gives up a block with data left exactly when the kernel refuses to queue the rest;
   then the block is free, its reference is kept and the data is lost.
   */
  lemma FreedWithRest(s: Aio, i: nat, r: Reply)
    requires Completable(s, i, r)
    ensures var b, t := s.blocks[i], Complete(s, i, r);
            && (!Busy(t.blocks[i]) && !Freed(b, r) <==>
                !r.answer.InProgress? && Written(r) < b.nbytes && !r.queued)
            && (Freed(b, r) ==> !Busy(t.blocks[i]) && t.status[s.job[i]] == Done && t.refcount == s.refcount - 1)
            && (!Freed(b, r) ==> t.refcount == s.refcount)
  {
  }

  // Every run.

  datatype Event =
    | Queue(i: nat, fd: int, j: Job, r: Reply)
    | Check(i: nat, r: Reply)

  /** Requests are pushed on free blocks, for parts of the file not pushed before. */
  predicate Enabled(s: Aio, e: Event) {
    match e
    case Queue(i, fd, j, _) =>
      i < |s.blocks| && !Busy(s.blocks[i]) && fd != FREE && forall id | 0 <= id < |s.jobs| :: Apart(s.jobs[id], j)
    case Check(i, r) => i < |s.blocks| && Busy(s.blocks[i]) && Possible(s.blocks[i], r)
  }

  function Step(s: Aio, e: Event): (t: Aio)
    requires Inv(s) && Enabled(s, e)
    ensures Inv(t)
  {
    match e
    case Queue(i, fd, j, r) => PushKeeps(s, i, fd, j, r); Push(s, i, fd, j, r)
    case Check(i, r) => CompletableIn(s, i, r); CompleteKeeps(s, i, r); Complete(s, i, r)
  }

  lemma {:induction false} NoneBusy(blocks: seq<Block>)
    requires forall b | b in blocks :: !Busy(b)
    ensures SumOf(BusyOf, blocks) == 0
  {
    if blocks != [] { NoneBusy(blocks[..|blocks| - 1]); }
  }

  function Start(n: nat): (s: Aio)
    ensures Inv(s)
  {
    var s := Aio(seq(n, _ => Block(FREE, 0, 0, 0)), 0, seq(n, _ => 0), [], [], map[]);
    NoneBusy(s.blocks);
    s
  }

  /** With n blocks the events can happen in this order. */
  predicate Runs(n: nat, trace: seq<Event>)
    decreases |trace|, 0
  {
    trace == [] || (Runs(n, trace[..|trace| - 1]) && Enabled(Run(n, trace[..|trace| - 1]), trace[|trace| - 1]))
  }

  /** The state they lead to. */
  function Run(n: nat, trace: seq<Event>): (s: Aio)
    requires Runs(n, trace)
    ensures Inv(s)
    decreases |trace|, 1
  {
    if trace == [] then Start(n) else Step(Run(n, trace[..|trace| - 1]), trace[|trace| - 1])
  }

  // What becomes of a request, from the events alone.

  /** The requests that were queued, in order. */
  function Requests(trace: seq<Event>): seq<Job> {
    if trace == [] then []
    else
      var e := trace[|trace| - 1];
      Requests(trace[..|trace| - 1]) + if e.Queue? && e.r.queued then [e.j] else []
  }

  /** The request last queued on a block. */
  function RequestOn(trace: seq<Event>, i: nat): nat {
    if trace == [] then 0
    else
      var before, e := trace[..|trace| - 1], trace[|trace| - 1];
      if e.Queue? && e.r.queued && e.i == i then |Requests(before)| else RequestOn(before, i)
  }

  /** How much of it the kernel has not written yet. */
  function LeftOn(trace: seq<Event>, i: nat): int {
    if trace == [] then 0
    else
      var before, e := trace[..|trace| - 1], trace[|trace| - 1];
      if e.Queue? && e.r.queued && e.i == i then |e.j.data|
      else if e.Check? && e.i == i && !e.r.answer.InProgress? then LeftOn(before, i) - Written(e.r)
      else LeftOn(before, i)
  }

  /** A check of request `id` finds it ended. */
  predicate Answers(before: seq<Event>, e: Event, id: nat) {
    e.Check? && RequestOn(before, e.i) == id && !e.r.answer.InProgress?
  }

  predicate WrittenIn(trace: seq<Event>, id: nat) {
    trace != [] &&
    var before, e := trace[..|trace| - 1], trace[|trace| - 1];
    WrittenIn(before, id) || (Answers(before, e, id) && Written(e.r) == LeftOn(before, e.i))
  }

  /** A rest was left and the kernel refused it. */
  predicate RefusedIn(trace: seq<Event>, id: nat) {
    trace != [] &&
    var before, e := trace[..|trace| - 1], trace[|trace| - 1];
    RefusedIn(before, id) || (Answers(before, e, id) && Written(e.r) < LeftOn(before, e.i) && !e.r.queued)
  }

  predicate Follows(trace: seq<Event>, s: Aio) {
    && Sized(s) && s.jobs == Requests(trace)
    && forall i: nat | i < |s.blocks| && Busy(s.blocks[i]) ::
         s.job[i] == RequestOn(trace, i) && s.blocks[i].nbytes == LeftOn(trace, i)
  }

  lemma StepFollows(before: seq<Event>, e: Event, s: Aio)
    requires Inv(s) && Enabled(s, e) && Follows(before, s)
    ensures Follows(before + [e], Step(s, e))
  {
    hide Store, Part, AllApart, BlocksOk, JobsOk, CountOk;
    assert (before + [e])[..|before + [e]| - 1] == before;
    if e.Check? { CompletableIn(s, e.i, e.r); }
  }

  /** Every block holds the request that the trace put on it, with the rest that the trace leaves. */
  lemma {:induction false} RunFollows(n: nat, trace: seq<Event>)
    requires Runs(n, trace)
    ensures Follows(trace, Run(n, trace))
  {
    hide Inv, Step;
    if trace != [] {
      var before, e := trace[..|trace| - 1], trace[|trace| - 1];
      RunFollows(n, before);
      StepFollows(before, e, Run(n, before));
      assert before + [e] == trace;
    }
  }

  predicate StatusIs(trace: seq<Event>, s: Aio, id: nat)
    requires Sized(s) && id < |s.jobs|
  {
    && (s.status[id].Done? <==> WrittenIn(trace, id))
    && (s.status[id].Lost? <==> RefusedIn(trace, id))
  }

  /** Nothing is said of a request before it is queued. */
  lemma {:induction false} NotYet(n: nat, trace: seq<Event>, id: nat)
    requires Runs(n, trace) && id >= |Requests(trace)|
    ensures !WrittenIn(trace, id) && !RefusedIn(trace, id)
  {
    hide Inv, Step;
    if trace != [] {
      var before, e := trace[..|trace| - 1], trace[|trace| - 1];
      NotYet(n, before, id);
      RunFollows(n, before);
      if e.Check? { assert Run(n, before).job[e.i] < |Run(n, before).jobs|; }
    }
  }

  lemma StepStatus(before: seq<Event>, e: Event, s: Aio, id: nat)
    requires Inv(s) && Enabled(s, e) && Follows(before, s) && id < |Step(s, e).jobs|
    requires if id < |s.jobs| then StatusIs(before, s, id) else !WrittenIn(before, id) && !RefusedIn(before, id)
    ensures Sized(Step(s, e)) && StatusIs(before + [e], Step(s, e), id)
  {
    hide Store, Part, AllApart, CountOk, Holds;
    assert (before + [e])[..|before + [e]| - 1] == before;
    if e.Check? {
      CompletableIn(s, e.i, e.r);
      assert BlockOk(s, e.i);
      if id < |s.jobs| { assert JobOk(s, id); }
    }
  }

  /** A request is done, or lost, if and only if some check of it was answered so. */
  lemma {:induction false} RequestEnds(n: nat, trace: seq<Event>, id: nat)
    requires Runs(n, trace) && id < |Run(n, trace).jobs|
    ensures StatusIs(trace, Run(n, trace), id)
  {
    hide Inv, Step, StatusIs;
    var before, e := trace[..|trace| - 1], trace[|trace| - 1];
    RunFollows(n, trace);
    RunFollows(n, before);
    if id < |Run(n, before).jobs| { RequestEnds(n, before, id); } else { NotYet(n, before, id); }
    StepStatus(before, e, Run(n, before), id);
    assert before + [e] == trace;
  }

  /**
   In every run, once all blocks are free, a request is in the file in full, unless a check of it left a
   rest that the kernel refused; the references still held are those of the refused ones.
   */
  lemma AllWritten(n: nat, trace: seq<Event>, id: nat)
    requires Runs(n, trace) && id < |Requests(trace)|
    requires forall b | b in Run(n, trace).blocks :: !Busy(b)
    ensures var t := Run(n, trace);
            && (WrittenIn(trace, id) <==> !RefusedIn(trace, id))
            && (WrittenIn(trace, id) ==> Holds(t.file, Requests(trace)[id].off, Requests(trace)[id].data))
            && t.refcount == SumOf(LostOf, t.status)
  {
    hide SumOf, Run, Runs, Holds;
    var t := Run(n, trace);
    RunFollows(n, trace);
    RequestEnds(n, trace, id);
    NoneBusy(t.blocks);
    assert JobOk(t, id);
  }

  /**
   Two bytes are pushed, one is written and the kernel refuses the other: the block is free and the
   reference stays.
   */
  lemma RefusedRun()
    ensures var trace := [Queue(0, 3, Job(0, [7, 8], 0), Reply(InProgress, 0, true)),
        Check(0, Reply(Wrote(1), 0, false))];
            && Runs(1, trace)
            && Run(1, trace).blocks == [Block(FREE, 1, 1, 1)]
            && Run(1, trace).status == [Lost] && Run(1, trace).refcount == 1 && Run(1, trace).file == map[0 := 7]
  {
    var e, f := Queue(0, 3, Job(0, [7, 8], 0), Reply(InProgress, 0, true)), Check(0, Reply(Wrote(1), 0, false));
    var s := Start(1);
    assert [e, f][..1] == [e] && [e][..0] == [];
    assert Runs(1, [e][..0]) && Run(1, [e][..0]) == s;
    assert Runs(1, [e]) && Run(1, [e]) == Step(s, e);
    RefusedSteps(s, e, f);
    assert Runs(1, [e, f]) && Run(1, [e, f]) == Step(Step(s, e), f);
  }

  lemma RefusedSteps(s: Aio, e: Event, f: Event)
    requires s == Start(1)
    requires e == Queue(0, 3, Job(0, [7, 8], 0), Reply(InProgress, 0, true)) && f == Check(0, Reply(Wrote(1), 0, false))
    ensures Enabled(s, e) && Enabled(Step(s, e), f)
    ensures var t := Step(Step(s, e), f);
            t.blocks == [Block(FREE, 1, 1, 1)] && t.status == [Lost] && t.refcount == 1 && t.file == map[0 := 7]
  {
    hide Step, Inv, Start;
    QueuedStep(s, e);
    RefusedStep(Step(s, e), f);
  }

  /** Both bytes under way. */
  predicate TwoBytesQueued(t: Aio) {
    && t.blocks == [Block(3, 0, 2, 0)] && t.job == [0] && t.jobs == [Job(0, [7, 8], 0)] && t.status == [Pending(0)]
    && t.refcount == 1 && t.file == map[]
  }

  lemma QueuedStep(s: Aio, e: Event)
    requires s == Start(1) && e == Queue(0, 3, Job(0, [7, 8], 0), Reply(InProgress, 0, true))
    ensures Enabled(s, e) && TwoBytesQueued(Step(s, e))
  {
    hide Inv;
  }

  lemma RefusedStep(t: Aio, f: Event)
    requires Inv(t) && TwoBytesQueued(t) && f == Check(0, Reply(Wrote(1), 0, false))
    ensures Enabled(t, f)
    ensures var u := Step(t, f);
            u.blocks == [Block(FREE, 1, 1, 1)] && u.status == [Lost] && u.refcount == 1 && u.file == map[0 := 7]
  {
    hide Inv;
    CompletableIn(t, 0, f.r);
    assert Part(t.jobs[0], t.blocks[0], 1) == [7];
    StoreOne(t.file, 0, 7);
  }

  lemma StoreOne(file: map<nat, int>, off: nat, v: int)
    ensures Store(file, off, [v]) == file[off := v]
  {
    assert [v][..0] == [];
  }

  // Progress.

  /** What is left to do: the bytes of every request under way, and its end. */
  function LeftOf(b: Block): int { if Busy(b) then b.nbytes + 1 else 0 }
  function Outstanding(blocks: seq<Block>): int { SumOf(LeftOf, blocks) }

  lemma OutstandingNat(blocks: seq<Block>)
    ensures Outstanding(blocks) >= 0
  {
    SumBounds(LeftOf, blocks, Block(FREE, 0, 0, 0));
  }

  /** The kernel wrote something, or ended the request. */
  predicate Productive(b: Block, r: Reply) {
    !r.answer.InProgress? && (Written(r) > 0 || Freed(b, r) || !r.queued)
  }

  /** A productive answer leaves less to do, and no other one changes anything. */
  lemma CompleteProgress(s: Aio, i: nat, r: Reply)
    requires Completable(s, i, r)
    ensures var t := Complete(s, i, r);
            && (Productive(s.blocks[i], r) ==> Outstanding(t.blocks) < Outstanding(s.blocks))
            && (!Productive(s.blocks[i], r) ==> t.blocks == s.blocks)
  {
    hide Store, SumOf;
    SumUpdate(LeftOf, s.blocks, i, Complete(s, i, r).blocks[i]);
  }
}
