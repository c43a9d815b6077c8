/**
 The I/O samples of `perf timechart`, told from the events alone: which calls each comm of a process made,
 and how the samples show them, grouped and moved apart.
 */
module TimechartIoTrace {
  import opened Options
  import opened Sums
  import opened TimechartIo
  import opened TimechartIoTotals

  // The calls of a trace.

  datatype Call = Call(kind: IoType, fd: int, start: nat, end: nat, ret: int)
  datatype Pending = Pending(kind: IoType, fd: int, start: nat)

  /** A comm of a process: the call under way, the calls that ended, and when the first one began. */
  datatype Slot = Slot(name: Option<string>, pending: Option<Pending>, calls: seq<Call>, started: nat)
  datatype Book = Book(slots: seq<Slot>, current: nat)

  function NewSlot(name: Option<string>): Slot { Slot(name, None, [], 0) }

  /** A call begins; if one is under way already, neither counts. */
  function Starts(s: Slot, e: Event): Slot
    requires e.Begin?
  {
    if s.pending != None then s.(pending := None)
    else
      s.(pending := Some(Pending(e.kind, e.fd, e.time)),
         started := if s.started == 0 || e.time < s.started then e.time else s.started)
  }

  /** The end belongs to the call under way. */
  predicate Stopped(s: Slot, e: Event) {
    e.End? && s.pending != None && s.pending.value.kind == e.kind
  }

  function Stops(s: Slot, e: Event): Slot {
    if !Stopped(s, e) then s
    else
      s.(pending := None, calls := s.calls + [Call(e.kind, s.pending.value.fd, s.pending.value.start, e.time, e.ret)])
  }

  /** The newest comm of that name. */
  function SlotOf(slots: seq<Slot>, name: string): Option<nat> {
    if slots == [] then None
    else if slots[|slots| - 1].name == Some(name) then Some(|slots| - 1)
    else SlotOf(slots[..|slots| - 1], name)
  }

  /** The process takes a name: its nameless comm gets it, or it goes on with the comm of that name. */
  function Renames(b: Book, name: string): Book {
    if |b.slots| == 1 && b.slots[0].name == None then Book([b.slots[0].(name := Some(name))], 0)
    else
      match SlotOf(b.slots, name)
      case Some(i) => b.(current := i)
      case None => Book(b.slots + [NewSlot(Some(name))], |b.slots|)
  }

  function Noted(b: Book, e: Event): Book {
    match e
    case Begin(_, _, _, _) =>
      var b := if b.slots == [] then Book([NewSlot(None)], 0) else b;
      if b.current < |b.slots| then b.(slots := b.slots[b.current := Starts(b.slots[b.current], e)]) else b
    case End(_, _, _, _) =>
      if b.current < |b.slots| then b.(slots := b.slots[b.current := Stops(b.slots[b.current], e)]) else b
    case SetComm(_, name) => Renames(b, name)
  }

  function Books(trace: seq<Event>, pid: int): Book {
    if trace == [] then Book([], 0)
    else
      var before, e := Books(trace[..|trace| - 1], pid), trace[|trace| - 1];
      if e.pid == pid then Noted(before, e) else before
  }

  // How samples show calls.

  function ErrOf(c: Call): int { if c.ret < 0 then c.ret else 0 }

  /** Reads, writes, sends and receives return the bytes they moved. */
  function BytesIn(c: Call): int {
    if c.ret < 0 then 0
    else match c.kind case Read => c.ret case Write => c.ret case Tx => c.ret case Rx => c.ret case _ => 0
  }

  /** A call is drawn at least `minTime` long; the length of one that ends before it starts wraps. */
  function DrawnEnd(cfg: Settings, c: Call): nat {
    if c.start <= c.end then if c.start + cfg.minTime > c.end then c.start + cfg.minTime else c.end
    else if (c.end - c.start) % 0x1_0000_0000_0000_0000 < cfg.minTime then c.start + cfg.minTime
    else c.end
  }

  /** Two calls that follow each other are drawn as one. */
  predicate Together(cfg: Settings, a: Call, b: Call) {
    a.kind == b.kind && a.fd == b.fd && ErrOf(a) == ErrOf(b) && DrawnEnd(cfg, a) + cfg.mergeDist >= b.start
  }

  function LastCall(calls: seq<Call>): Call
    requires calls != []
  {
    calls[|calls| - 1]
  }

  /** Where a group of calls is drawn from: behind a failed call that reaches into it. */
  function DrawnStart(cfg: Settings, rest: seq<Call>, c: Call): nat {
    if rest != [] && ErrOf(LastCall(rest)) != 0 && c.start < DrawnEnd(cfg, LastCall(rest))
    then DrawnEnd(cfg, LastCall(rest)) else c.start
  }

  /** Where it is drawn to: up to the next call, if that reaches into it and it did not fail. */
  function CutEnd(cfg: Settings, c: Call, next: Option<nat>): nat {
    if next.Some? && ErrOf(c) == 0 && next.value < DrawnEnd(cfg, c) then next.value else DrawnEnd(cfg, c)
  }

  /** All calls of a group are drawn as one, and each is together with the next. */
  predicate Group(cfg: Settings, calls: seq<Call>) {
    forall i | 0 <= i < |calls| - 1 :: Together(cfg, calls[i], calls[i + 1])
  }

  /** A sample shows a group of calls, after those of `rest` and before a call that begins at `next`. */
  predicate ShowsGroup(cfg: Settings, x: IoSample, rest: seq<Call>, group: seq<Call>, next: Option<nat>) {
    && group != [] && Group(cfg, group) && (rest != [] ==> !Together(cfg, LastCall(rest), group[0]))
    && x == IoSample(DrawnStart(cfg, rest, group[0]), CutEnd(cfg, LastCall(group), next), x.bytes,
                     group[0].kind, group[0].fd, ErrOf(group[0]), |group| - 1)
    && x.bytes == SumOf(BytesIn, group)
  }

  /** The samples show the calls: one sample for each largest group of calls that go together. */
  predicate Shows(cfg: Settings, samples: seq<IoSample>, calls: seq<Call>, next: Option<nat>) {
    if samples == [] then calls == []
    else
      var x := Head(samples);
      && x.merges < |calls|
      && var k := |calls| - 1 - x.merges;
         && ShowsGroup(cfg, x, calls[..k], calls[k..], next)
         && Shows(cfg, Older(samples), calls[..k], Some(calls[k].start))
  }

  // Ending a call.

  lemma {:induction false} GroupAlike(cfg: Settings, calls: seq<Call>, i: nat)
    requires Group(cfg, calls) && i < |calls|
    ensures calls[i].kind == calls[0].kind && calls[i].fd == calls[0].fd && ErrOf(calls[i]) == ErrOf(calls[0])
  {
    if i > 0 {
      GroupAlike(cfg, calls, i - 1);
      assert Together(cfg, calls[i - 1], calls[i]);
    }
  }

  /** What the newest sample says of the last call. */
  lemma LastShown(cfg: Settings, samples: seq<IoSample>, calls: seq<Call>)
    requires Shows(cfg, samples, calls, None) && samples != []
    ensures calls != []
    ensures var x, c := Head(samples), LastCall(calls);
            x.kind == c.kind && x.fd == c.fd && x.err == ErrOf(c) && x.end == DrawnEnd(cfg, c)
  {
    var k := |calls| - 1 - Head(samples).merges;
    GroupAlike(cfg, calls[k..], Head(samples).merges);
  }

  lemma CutGroup(cfg: Settings, h: IoSample, rest: seq<Call>, group: seq<Call>, start: nat)
    requires ShowsGroup(cfg, h, rest, group, None)
    ensures ShowsGroup(cfg, h.(end := if start < h.end && h.err == 0 then start else h.end), rest, group, Some(start))
  {
    hide Together, DrawnEnd, DrawnStart, SumOf;
    GroupAlike(cfg, group, |group| - 1);
  }

  /** One sample more, for one group more. */
  lemma ShowsMore(cfg: Settings, samples: seq<IoSample>, x: IoSample, rest: seq<Call>, group: seq<Call>,
      next: Option<nat>)
    requires ShowsGroup(cfg, x, rest, group, next) && Shows(cfg, samples, rest, Some(group[0].start))
    ensures Shows(cfg, samples + [x], rest + group, next)
  {
    hide Together, DrawnEnd, DrawnStart, SumOf, Group;
    var all, s := rest + group, samples + [x];
    assert all[..|rest|] == rest && all[|rest|..] == group && all[|rest|] == group[0];
    assert Older(s) == samples && Head(s) == x;
  }

  /** The newest sample, and what it shows. */
  lemma ShowsHead(cfg: Settings, samples: seq<IoSample>, calls: seq<Call>, next: Option<nat>) returns (k: nat)
    requires Shows(cfg, samples, calls, next) && samples != []
    ensures k < |calls| && calls == calls[..k] + calls[k..] && LastCall(calls[k..]) == LastCall(calls)
    ensures ShowsGroup(cfg, Head(samples), calls[..k], calls[k..], next)
    ensures Shows(cfg, Older(samples), calls[..k], Some(calls[k..][0].start))
  {
    hide ShowsGroup;
    k := |calls| - 1 - Head(samples).merges;
  }

  /** The next call cuts the newest sample. */
  lemma CutShows(cfg: Settings, samples: seq<IoSample>, calls: seq<Call>, x: IoSample)
    requires Shows(cfg, samples, calls, None)
    ensures Shows(cfg, Shortened(samples, x), calls, Some(x.start))
  {
    hide Shows, ShowsGroup;
    if samples == [] {
      ShowsNothing(cfg, calls, x.start);
    } else {
      var h := Head(samples);
      var k := ShowsHead(cfg, samples, calls, None);
      var cut := h.(end := if x.start < h.end && h.err == 0 then x.start else h.end);
      CutGroup(cfg, h, calls[..k], calls[k..], x.start);
      ShowsMore(cfg, Older(samples), cut, calls[..k], calls[k..], Some(x.start));
      assert Shortened(samples, x) == Older(samples) + [cut];
    }
  }

  lemma ShowsNothing(cfg: Settings, calls: seq<Call>, start: nat)
    requires Shows(cfg, [], calls, None)
    ensures Shows(cfg, [], calls, Some(start))
  {
  }

  /** A call that is not together with the last one gets a sample of its own. */
  lemma AloneShows(cfg: Settings, samples: seq<IoSample>, calls: seq<Call>, c: Call, x: IoSample)
    requires Shows(cfg, samples, calls, Some(c.start)) && (calls != [] ==> !Together(cfg, LastCall(calls), c))
    requires x == IoSample(DrawnStart(cfg, calls, c), DrawnEnd(cfg, c), x.bytes, c.kind, c.fd, ErrOf(c), 0)
    requires x.bytes == BytesIn(c)
    ensures Shows(cfg, samples + [x], calls + [c], None)
  {
    hide Shows;
    SumOne(BytesIn, c);
    ShowsMore(cfg, samples, x, calls, [c], None);
  }

  /** A call that is joins the sample of the last one. */
  lemma JoinedShows(cfg: Settings, samples: seq<IoSample>, calls: seq<Call>, c: Call, x: IoSample)
    requires Shows(cfg, samples, calls, None) && samples != [] && calls != [] && Together(cfg, LastCall(calls), c)
    requires x == Head(samples).(end := DrawnEnd(cfg, c), bytes := x.bytes, merges := Head(samples).merges + 1)
    requires x.bytes == Head(samples).bytes + BytesIn(c)
    ensures Shows(cfg, Older(samples) + [x], calls + [c], None)
  {
    hide Shows, ShowsGroup, DrawnEnd, Together, BytesIn;
    var k := ShowsHead(cfg, samples, calls, None);
    var rest, group := calls[..k], calls[k..];
    JoinedGroup(cfg, Head(samples), rest, group, c, x);
    assert (group + [c])[0] == group[0];
    ShowsMore(cfg, Older(samples), x, rest, group + [c], None);
    assert rest + (group + [c]) == calls + [c];
  }

  lemma JoinedGroup(cfg: Settings, h: IoSample, rest: seq<Call>, group: seq<Call>, c: Call, x: IoSample)
    requires ShowsGroup(cfg, h, rest, group, None) && Together(cfg, LastCall(group), c)
    requires x == h.(end := DrawnEnd(cfg, c), bytes := h.bytes + BytesIn(c), merges := h.merges + 1)
    ensures ShowsGroup(cfg, x, rest, group + [c], None)
  {
    hide Together, DrawnEnd, DrawnStart, SumOf, Group;
    SumAppend(BytesIn, group, c);
    GroupMore(cfg, group, c);
  }

  lemma TogetherAlike(cfg: Settings, a: Call, b: Call)
    requires Together(cfg, a, b)
    ensures a.kind == b.kind && a.fd == b.fd && ErrOf(a) == ErrOf(b)
  {
  }

  lemma GroupMore(cfg: Settings, calls: seq<Call>, c: Call)
    requires Group(cfg, calls) && (calls != [] ==> Together(cfg, LastCall(calls), c))
    ensures Group(cfg, calls + [c])
  {
  }

  function CallOf(x: IoSample, end: nat, ret: int): Call { Call(x.kind, x.fd, x.start, end, ret) }

  /** The sample of the call under way. */
  predicate IsOpen(x: IoSample) {
    x.start != 0 && x.end == 0 && x.bytes == 0 && x.err == 0 && x.merges == 0
  }

  lemma ClosedIs(cfg: Settings, c: PerComm, calls: seq<Call>, kind: IoType, end: nat, ret: int)
    requires Closable(c, kind) && IsOpen(Head(c.samples)) && Shows(cfg, Older(c.samples), calls, None)
    ensures var x, call := Closed(cfg, c, kind, end, ret), CallOf(Head(c.samples), end, ret);
            && x == IoSample(DrawnStart(cfg, calls, call), DrawnEnd(cfg, call), x.bytes, kind, call.fd, ErrOf(call), 0)
            && x.bytes == BytesIn(call) == Transferred(kind, ret)
            && Stretched(cfg, Head(c.samples), end).start == call.start
  {
    hide Group;
    if Older(c.samples) != [] { LastShown(cfg, Older(c.samples), calls); }
  }

  /** The handler merges exactly the calls that go together. */
  lemma MergeableIs(cfg: Settings, c: PerComm, calls: seq<Call>, kind: IoType, end: nat, ret: int)
    requires Closable(c, kind) && IsOpen(Head(c.samples)) && Shows(cfg, Older(c.samples), calls, None)
    ensures Older(c.samples) != [] <==> calls != []
    ensures Mergeable(cfg, Shortened(Older(c.samples), Stretched(cfg, Head(c.samples), end)),
                      Closed(cfg, c, kind, end, ret)) <==>
            calls != [] && Together(cfg, LastCall(calls), CallOf(Head(c.samples), end, ret))
  {
    hide Group, Closed, Stretched, DrawnEnd, ShowsGroup;
    ClosedIs(cfg, c, calls, kind, end, ret);
    if Older(c.samples) != [] { LastShown(cfg, Older(c.samples), calls); }
  }

  lemma EndShows(cfg: Settings, c: PerComm, calls: seq<Call>, kind: IoType, end: nat, ret: int)
    requires Closable(c, kind) && IsOpen(Head(c.samples)) && Shows(cfg, Older(c.samples), calls, None)
    ensures Shows(cfg, EndSample(cfg, c, kind, end, ret).samples, calls + [CallOf(Head(c.samples), end, ret)], None)
  {
    hide Shows, Closed, Stretched, Mergeable, Shortened, Together, DrawnEnd, DrawnStart;
    var older, h, call := Older(c.samples), Head(c.samples), CallOf(Head(c.samples), end, ret);
    var x, cut := Closed(cfg, c, kind, end, ret), Shortened(older, Stretched(cfg, h, end));
    ClosedIs(cfg, c, calls, kind, end, ret);
    MergeableIs(cfg, c, calls, kind, end, ret);
    if Mergeable(cfg, cut, x) {
      LastShown(cfg, older, calls);
      CutIs(older, Stretched(cfg, h, end));
      TogetherAlike(cfg, LastCall(calls), call);
      JoinedShows(cfg, older, calls, call, Joined(Head(cut), x));
    } else {
      CutShows(cfg, older, calls, Stretched(cfg, h, end));
      AloneShows(cfg, cut, calls, call, x);
    }
  }

  lemma CutIs(older: seq<IoSample>, x: IoSample)
    requires older != []
    ensures var r := Shortened(older, x);
            Older(r) == Older(older) && Head(r) == Head(older).(end := Head(r).end)
  {
  }

  // One comm.

  function SlotBytes(s: Slot): int { SumOf(BytesIn, s.calls) }

  /** The maximum is reached by some sample, unless it is 0. */
  predicate MaxReached(samples: seq<IoSample>, max: nat) {
    && (forall i | 0 <= i < |samples| :: samples[i].bytes <= max)
    && (max == 0 || exists i | 0 <= i < |samples| :: samples[i].bytes == max)
  }

  /** A failed call moved nothing. */
  predicate Failed(x: IoSample) { x.err != 0 ==> x.bytes == 0 }
  predicate AllFailed(samples: seq<IoSample>) { forall i | 0 <= i < |samples| :: Failed(samples[i]) }

  predicate CommIs(cfg: Settings, c: PerComm, s: Slot) {
    && c.name == s.name && c.startTime == s.started && c.totalBytes == SlotBytes(s)
    && MaxReached(c.samples, c.maxBytes) && AllFailed(c.samples)
    && match s.pending
       case None => Shows(cfg, c.samples, s.calls, None) && (c.samples != [] ==> Head(c.samples).end != 0)
       case Some(p) =>
         && c.samples != [] && Head(c.samples) == IoSample(p.start, 0, 0, p.kind, p.fd, 0, 0) && p.start != 0
         && Shows(cfg, Older(c.samples), s.calls, None)
         && (|c.samples| > 1 ==> Head(Older(c.samples)).end != 0)
  }

  lemma BeginIs(cfg: Settings, c: PerComm, s: Slot, e: Event)
    requires CommIs(cfg, c, s) && e.Begin? && Timed(e)
    ensures CommIs(cfg, BeginSample(c, e.kind, e.time, e.fd), Starts(s, e))
  {
    hide Shows, SumOf;
    BeginMax(c, e);
    var r := BeginSample(c, e.kind, e.time, e.fd);
    if s.pending == None { assert Older(r.samples) == c.samples; }
  }

  lemma BeginMax(c: PerComm, e: Event)
    requires e.Begin? && MaxReached(c.samples, c.maxBytes)
    requires c.samples != [] && Open(Head(c.samples)) ==> Head(c.samples).bytes == 0
    ensures MaxReached(BeginSample(c, e.kind, e.time, e.fd).samples, c.maxBytes)
  {
    var r := BeginSample(c, e.kind, e.time, e.fd).samples;
    if c.maxBytes > 0 {
      var i :| 0 <= i < |c.samples| && c.samples[i].bytes == c.maxBytes;
      assert r[i] == c.samples[i];
    }
  }

  lemma EndMax(cfg: Settings, c: PerComm, kind: IoType, end: nat, ret: int)
    requires Closable(c, kind) && IsOpen(Head(c.samples)) && MaxReached(c.samples, c.maxBytes)
    requires Closed(cfg, c, kind, end, ret).bytes == Transferred(kind, ret)
    requires AllFailed(c.samples) && Failed(Closed(cfg, c, kind, end, ret))
    ensures MaxReached(EndSample(cfg, c, kind, end, ret).samples, EndSample(cfg, c, kind, end, ret).maxBytes)
  {
    hide Stretched, Closed, Transferred;
    var older := Shortened(Older(c.samples), Stretched(cfg, Head(c.samples), end));
    assert forall i | 0 <= i < |older| :: older[i].bytes == c.samples[i].bytes && older[i].err == c.samples[i].err;
    var x := Closed(cfg, c, kind, end, ret);
    assert MaxReached(older, c.maxBytes) by {
      if c.maxBytes > 0 {
        var i :| 0 <= i < |c.samples| && c.samples[i].bytes == c.maxBytes;
        assert older[i].bytes == c.maxBytes;
      }
    }
    if Mergeable(cfg, older, x) {
      assert Failed(c.samples[|older| - 1]);
      JoinedMax(older, c.maxBytes, Joined(Head(older), x), Larger(x.bytes, c.maxBytes));
    } else {
      MoreMax(older, c.maxBytes, x);
    }
  }

  lemma MoreMax(samples: seq<IoSample>, max: nat, x: IoSample)
    requires MaxReached(samples, max)
    ensures MaxReached(samples + [x], Larger(x.bytes, max))
  {
    var r := samples + [x];
    if x.bytes > max {
      assert r[|samples|].bytes == x.bytes;
    } else if max > 0 {
      var i :| 0 <= i < |samples| && samples[i].bytes == max;
      assert r[i].bytes == max;
    }
  }

  lemma JoinedMax(samples: seq<IoSample>, max: nat, x: IoSample, max': nat)
    requires MaxReached(samples, max) && samples != [] && Head(samples).bytes <= x.bytes
    requires max <= max' && (max < max' ==> max' <= x.bytes) && (x.err != 0 ==> x.bytes == 0)
    ensures MaxReached(Older(samples) + [x], if x.err == 0 then Larger(x.bytes, max') else max')
  {
    var r := Older(samples) + [x];
    assert r[|r| - 1] == x;
    if max > 0 {
      var i :| 0 <= i < |samples| && samples[i].bytes == max;
      assert i < |samples| - 1 ==> r[i].bytes == max;
    }
  }

  lemma EndIs(cfg: Settings, c: PerComm, s: Slot, e: Event)
    requires CommIs(cfg, c, s) && e.End? && Timed(e)
    ensures Closable(c, e.kind) <==> Stopped(s, e)
    ensures Stopped(s, e) ==> CommIs(cfg, EndSample(cfg, c, e.kind, e.time, e.ret), Stops(s, e))
  {
    hide Shows, EndSample, MaxReached, AllFailed, Transferred, SumOf, BytesIn, ErrOf;
    if Stopped(s, e) {
      var call := CallOf(Head(c.samples), e.time, e.ret);
      ClosedIs(cfg, c, s.calls, e.kind, e.time, e.ret);
      FailedIs(call);
      EndShows(cfg, c, s.calls, e.kind, e.time, e.ret);
      EndMax(cfg, c, e.kind, e.time, e.ret);
      EndRest(cfg, c, e.kind, e.time, e.ret);
      SumAppend(BytesIn, s.calls, call);
      DrawnPositive(cfg, call);
    }
  }

  lemma FailedIs(c: Call)
    ensures ErrOf(c) != 0 ==> BytesIn(c) == 0
  {
  }

  lemma DrawnPositive(cfg: Settings, c: Call)
    requires c.start > 0 && c.end > 0
    ensures DrawnEnd(cfg, c) > 0
  {
  }

  lemma EndRest(cfg: Settings, c: PerComm, kind: IoType, end: nat, ret: int)
    requires Closable(c, kind) && AllFailed(c.samples) && Failed(Closed(cfg, c, kind, end, ret))
    ensures var r := EndSample(cfg, c, kind, end, ret);
            && r.name == c.name && r.startTime == c.startTime && r.totalBytes == c.totalBytes + Transferred(kind, ret)
            && AllFailed(r.samples) && r.samples != [] && Head(r.samples).end == Closed(cfg, c, kind, end, ret).end
  {
    hide Stretched, Closed, Transferred;
    var older := Shortened(Older(c.samples), Stretched(cfg, Head(c.samples), end));
    assert forall i | 0 <= i < |older| :: older[i].bytes == c.samples[i].bytes && older[i].err == c.samples[i].err;
    assert older != [] ==> Failed(c.samples[|older| - 1]);
  }

  // One process.

  /** Only the first comm of a process may have no name, and only while it is the only one. */
  predicate NamesOk(slots: seq<Slot>) {
    forall i | 0 <= i < |slots| :: slots[i].name == None ==> |slots| == 1
  }

  predicate PidIs(cfg: Settings, p: PerPid, b: Book) {
    && |p.comms| == |b.slots| && (forall i | 0 <= i < |b.slots| :: CommIs(cfg, p.comms[i], b.slots[i]))
    && (if b.slots == [] then p.current == None else p.current == Some(b.current) && b.current < |b.slots|)
    && p.totalBytes == SumOf(SlotBytes, b.slots) && NamesOk(b.slots)
  }

  lemma NewIs(cfg: Settings, name: Option<string>)
    ensures CommIs(cfg, NewComm(name), NewSlot(name)) && SlotBytes(NewSlot(name)) == 0
  {
  }

  lemma BegunIs(cfg: Settings, p: PerPid, b: Book, e: Event)
    requires PidIs(cfg, p, b) && CurrentOk(p) && e.Begin? && Timed(e)
    ensures PidIs(cfg, Begun(p, e), Noted(b, e))
  {
    hide CommIs, BeginSample, Starts, SumOf;
    NewIs(cfg, None);
    SumOne(SlotBytes, NewSlot(None));
    var q := WithCurrent(p);
    var b' := if b.slots == [] then Book([NewSlot(None)], 0) else b;
    assert PidIs(cfg, q, b') by { NoSlots(); }
    var k := b'.current;
    BeginIs(cfg, q.comms[k], b'.slots[k], e);
    SumUpdate(SlotBytes, b'.slots, k, Starts(b'.slots[k], e));
    StartsKeeps(b'.slots[k], e);
  }

  lemma NoSlots()
    ensures SumOf(SlotBytes, []) == 0
  {
  }

  lemma StartsKeeps(s: Slot, e: Event)
    requires e.Begin?
    ensures Starts(s, e).name == s.name && SlotBytes(Starts(s, e)) == SlotBytes(s)
  {
  }

  lemma EndedIs(cfg: Settings, p: PerPid, b: Book, e: Event)
    requires PidIs(cfg, p, b) && CurrentOk(p) && e.End? && Timed(e)
    ensures Ends(p, e) <==> b.current < |b.slots| && Stopped(b.slots[b.current], e)
    ensures Ends(p, e) ==> PidIs(cfg, Ended(cfg, p, e), Noted(b, e))
    ensures !Ends(p, e) ==> Noted(b, e) == b
  {
    hide CommIs, EndSample, SumOf, Closable, Transferred;
    if b.current < |b.slots| {
      var k := b.current;
      EndIs(cfg, p.comms[k], b.slots[k], e);
      if Stopped(b.slots[k], e) {
        SumUpdate(SlotBytes, b.slots, k, Stops(b.slots[k], e));
        StopsAdds(b.slots[k], e);
      }
    }
  }

  lemma StopsAdds(s: Slot, e: Event)
    requires Stopped(s, e)
    ensures Stops(s, e).name == s.name && SlotBytes(Stops(s, e)) == SlotBytes(s) + Transferred(e.kind, e.ret)
  {
    hide SumOf;
    SumAppend(BytesIn, s.calls, Stops(s, e).calls[|s.calls|]);
  }

  lemma {:induction false} FindIs(comms: seq<PerComm>, slots: seq<Slot>, name: string)
    requires |comms| == |slots| && forall i | 0 <= i < |slots| :: comms[i].name == slots[i].name != None
    ensures FindComm(comms, name) == SlotOf(slots, name)
    ensures SlotOf(slots, name).Some? ==>
              SlotOf(slots, name).value < |slots| && slots[SlotOf(slots, name).value].name == Some(name)
  {
    if slots != [] { FindIs(comms[..|comms| - 1], slots[..|slots| - 1], name); }
  }

  lemma RenamedIs(cfg: Settings, c: PerComm, s: Slot, name: string)
    requires CommIs(cfg, c, s)
    ensures CommIs(cfg, c.(name := Some(name)), s.(name := Some(name)))
    ensures SlotBytes(s.(name := Some(name))) == SlotBytes(s) && c.name == s.name
  {
  }

  lemma NamedIs(cfg: Settings, p: PerPid, b: Book, name: string)
    requires PidIs(cfg, p, b)
    ensures PidIs(cfg, Named(p, name), Renames(b, name))
  {
    hide CommIs, SumOf, SlotBytes;
    forall i | 0 <= i < |b.slots| ensures p.comms[i].name == b.slots[i].name {
      RenamedIs(cfg, p.comms[i], b.slots[i], name);
    }
    if |b.slots| == 1 && b.slots[0].name == None {
      RenamedIs(cfg, p.comms[0], b.slots[0], name);
      var x := b.slots[0].(name := Some(name));
      SumUpdate(SlotBytes, b.slots, 0, x);
      assert b.slots[0 := x] == [x];
    } else {
      FindIs(p.comms, b.slots, name);
      match SlotOf(b.slots, name) {
        case Some(i) =>
          RenamedIs(cfg, p.comms[i], b.slots[i], name);
          assert p.comms[i := p.comms[i].(name := Some(name))] == p.comms;
        case None =>
          NewIs(cfg, Some(name));
          SumAppend(SlotBytes, b.slots, NewSlot(Some(name)));
      }
    }
  }

  // Every run.

  /** The event ends a call of its process. */
  predicate EndsCall(before: seq<Event>, e: Event) {
    var b := Books(before, e.pid);
    b.current < |b.slots| && Stopped(b.slots[b.current], e)
  }

  function CallsEnded(trace: seq<Event>): nat {
    if trace == [] then 0
    else CallsEnded(trace[..|trace| - 1]) + if EndsCall(trace[..|trace| - 1], trace[|trace| - 1]) then 1 else 0
  }

  lemma StepIs(cfg: Settings, s: Chart, e: Event, b: Book)
    requires PidsOk(s) && Timed(e) && PidIs(cfg, PidOf(s, e.pid), b)
    ensures PidIs(cfg, PidOf(Step(cfg, s, e), e.pid), Noted(b, e))
    ensures Step(cfg, s, e).ioEvents ==
            s.ioEvents + if b.current < |b.slots| && Stopped(b.slots[b.current], e) then 1 else 0
    ensures forall pid | pid != e.pid :: PidOf(Step(cfg, s, e), pid) == PidOf(s, pid)
  {
    hide PidIs, Begun, Ended, Ends, Named, Noted;
    var p := PidOf(s, e.pid);
    match e
    case Begin(_, _, _, _) => BegunIs(cfg, p, b, e);
    case End(_, _, _, _) => EndedIs(cfg, p, b, e);
    case SetComm(_, name) =>
      NamedIs(cfg, p, b, name);
      NotesName(b, e);
  }

  lemma NotesName(b: Book, e: Event)
    requires e.SetComm?
    ensures Noted(b, e) == Renames(b, e.name)
  {
  }

  /**
   In every run each process has the comms that its events name, each comm the samples that show its calls,
   the bytes they moved, the largest of its samples and its first beginning.
   */
  lemma {:induction false} RunShows(cfg: Settings, trace: seq<Event>, pid: int)
    requires forall e | e in trace :: Timed(e)
    ensures PidIs(cfg, PidOf(Run(cfg, trace), pid), Books(trace, pid))
    ensures Run(cfg, trace).ioEvents == CallsEnded(trace)
  {
    hide PidIs, Step, Noted, Stopped;
    if trace == [] {
      NoBook(cfg, pid);
    } else {
      var before, e := trace[..|trace| - 1], trace[|trace| - 1];
      assert e in trace;
      RunShows(cfg, before, pid);
      RunShows(cfg, before, e.pid);
      StepIs(cfg, Run(cfg, before), e, Books(before, e.pid));
    }
  }

  lemma NoBook(cfg: Settings, pid: int)
    ensures PidIs(cfg, NewPid(pid), Book([], 0))
  {
  }

  /** No two neighbouring samples of a comm could have been drawn as one, and none draws too much as one. */
  lemma OneSampleEach(cfg: Settings, calls: seq<Call>, samples: seq<IoSample>, next: Option<nat>)
    requires Shows(cfg, samples, calls, next) && Group(cfg, calls) && calls != []
    ensures |samples| == 1 && samples[0].merges == |calls| - 1 && samples[0].bytes == SumOf(BytesIn, calls)
  {
    var k := |calls| - 1 - Head(samples).merges;
    assert calls[k..][0] == calls[k];
    assert calls[0..] == calls;
  }
}
