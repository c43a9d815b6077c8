/**
 The closed I/O samples of a comm as intervals of time: when they stay well formed, in order and
 disjoint, although short calls are stretched, overlapping ones moved apart and close ones merged.
 */
module TimechartIoIntervals {
  import opened Options
  import opened TimechartIo
  import opened TimechartIoTotals

  function ClosedPart(samples: seq<IoSample>): seq<IoSample> {
    if samples != [] && Head(samples).end == 0 then Older(samples) else samples
  }

  /** Well formed, in order and disjoint. */
  predicate Orderly(s: seq<IoSample>) {
    && (forall i | 0 <= i < |s| :: s[i].start <= s[i].end)
    && (forall i, j | 0 <= i < j < |s| :: s[i].end <= s[j].start)
  }

  /** No end lies further than the minimum length after the call that is open, or after now. */
  predicate Recent(cfg: Settings, samples: seq<IoSample>, now: nat) {
    && (forall i | 0 <= i < |samples| :: samples[i].end <= now + cfg.minTime)
    && (samples != [] && Head(samples).end == 0 ==>
          Head(samples).start <= now && forall i | 0 <= i < |samples| ::
              samples[i].end <= Head(samples).start + cfg.minTime)
  }

  /**
   The one case that breaks the order: the newest closed sample did not fail but was itself moved
   past the beginning of this call, by a failed one before it, and the two are not merged.
   */
  predicate Clash(c: PerComm, kind: IoType, ret: int)
    requires Closable(c, kind)
  {
    var older, x := Older(c.samples), Head(c.samples);
    && Overlaps(older, x) && Head(older).err == 0 && Head(older).start > x.start
    && !(Head(older).kind == kind && Head(older).fd == x.fd && ret >= 0)
  }

  lemma OrderlyAppend(s: seq<IoSample>, x: IoSample)
    requires Orderly(s)
    ensures Orderly(s + [x]) <==> x.start <= x.end && (s != [] ==> Head(s).end <= x.start)
  {
    var r := s + [x];
    if s != [] {
      assert r[|s| - 1] == Head(s) && r[|s|] == x;
      assert forall i | 0 <= i < |s| - 1 :: s[i].end <= Head(s).start <= Head(s).end;
    } else {
      assert r[0] == x;
    }
  }

  lemma OrderlyOlder(s: seq<IoSample>)
    requires s != [] && Orderly(s)
    ensures Orderly(Older(s)) && (|s| > 1 ==> Head(Older(s)).end <= Head(s).start) && Head(s).start <= Head(s).end
  {
    if |s| > 1 { assert Head(Older(s)) == s[|s| - 2]; }
  }

  /** Shortening the newest sample keeps the order unless it ends before it starts. */
  lemma ShortenedOrderly(older: seq<IoSample>, x: IoSample)
    requires Orderly(older)
    ensures Overlaps(older, x) && Head(older).err == 0 ==>
        (Orderly(Shortened(older, x)) <==> Head(older).start <= x.start)
    ensures !(Overlaps(older, x) && Head(older).err == 0) ==> Orderly(Shortened(older, x))
    ensures Overlaps(older, x) && Head(older).err == 0 ==>
        Older(Shortened(older, x)) == Older(older) && Orderly(Older(older))
  {
    if Overlaps(older, x) && Head(older).err == 0 {
      OrderlyOlder(older);
      OrderlyAppend(Older(older), Head(older).(end := x.start));
    }
  }

  /** A sample joined with the one before begins where that one did. */
  lemma JoinedOrderly(older: seq<IoSample>, prev: IoSample, x: IoSample)
    requires Orderly(older) && (older != [] ==> Head(older).end <= prev.start) && prev.start <= x.end
    ensures Orderly(older + [Joined(prev, x)])
  {
    OrderlyAppend(older, Joined(prev, x));
  }

  lemma StretchedLong(cfg: Settings, x: IoSample, end: nat)
    requires x.start <= end
    ensures Stretched(cfg, x, end) == x.(end := Stretched(cfg, x, end).end)
    ensures Stretched(cfg, x, end).end >= x.start + cfg.minTime
    ensures end <= Stretched(cfg, x, end).end <= end + cfg.minTime
  {
  }

  /** Where nothing overlaps, a call is appended or merged in order. */
  lemma ApartOrderly(cfg: Settings, c: PerComm, kind: IoType, end: nat, ret: int)
    requires Closable(c, kind) && Orderly(Older(c.samples)) && Head(c.samples).start <= end
    requires !Overlaps(Older(c.samples), Head(c.samples))
    ensures Orderly(EndSample(cfg, c, kind, end, ret).samples)
  {
    hide Orderly, Stretched;
    var older, h := Older(c.samples), Head(c.samples);
    StretchedLong(cfg, h, end);
    var x := Closed(cfg, c, kind, end, ret);
    if Mergeable(cfg, older, x) {
      OrderlyOlder(older);
      JoinedOrderly(Older(older), Head(older), x);
    } else {
      OrderlyAppend(older, x);
    }
  }

  /** A call that overlaps a failed one starts after it. */
  lemma AfterErrorOrderly(cfg: Settings, c: PerComm, kind: IoType, end: nat, ret: int)
    requires Closable(c, kind) && Orderly(Older(c.samples)) && Head(c.samples).start <= end
    requires Overlaps(Older(c.samples), Head(c.samples)) && Head(Older(c.samples)).err != 0
    requires Head(Older(c.samples)).end <= Head(c.samples).start + cfg.minTime
    ensures Orderly(EndSample(cfg, c, kind, end, ret).samples)
  {
    hide Orderly, Stretched;
    var older, h := Older(c.samples), Head(c.samples);
    StretchedLong(cfg, h, end);
    OrderlyOlder(older);
    var x := Closed(cfg, c, kind, end, ret);
    if Mergeable(cfg, older, x) {
      JoinedOrderly(Older(older), Head(older), x);
    } else {
      OrderlyAppend(older, x);
    }
  }

  lemma EndSamples(cfg: Settings, c: PerComm, kind: IoType, end: nat, ret: int)
    requires Closable(c, kind)
    ensures var older := Shortened(Older(c.samples), Stretched(cfg, Head(c.samples), end));
            var x := Closed(cfg, c, kind, end, ret);
            EndSample(cfg, c, kind, end, ret).samples ==
            if Mergeable(cfg, older, x) then Older(older) + [Joined(Head(older), x)] else older + [x]
  {
  }

  lemma ClosedAfterSuccess(cfg: Settings, c: PerComm, kind: IoType, end: nat, ret: int)
    requires Closable(c, kind) && Head(c.samples).start <= end && Head(c.samples).err == 0
    requires Overlaps(Older(c.samples), Head(c.samples)) && Head(Older(c.samples)).err == 0
    ensures var x := Closed(cfg, c, kind, end, ret);
            && x.start == Head(c.samples).start && x.kind == kind && x.fd == Head(c.samples).fd
            && x.err == (if ret < 0 then ret else 0) && x.end >= x.start + cfg.minTime && x.end >= x.start
    ensures var r := Shortened(Older(c.samples), Stretched(cfg, Head(c.samples), end));
            Head(r) == Head(Older(c.samples)).(end := Head(c.samples).start)
  {
    StretchedLong(cfg, Head(c.samples), end);
  }

  /** A call that overlaps a successful one shortens it. */
  lemma AfterSuccessOrderly(cfg: Settings, c: PerComm, kind: IoType, end: nat, ret: int)
    requires Closable(c, kind) && Orderly(Older(c.samples)) && Head(c.samples).start <= end
    requires Overlaps(Older(c.samples), Head(c.samples)) && Head(Older(c.samples)).err == 0 && Head(c.samples).err == 0
    requires Head(Older(c.samples)).end <= Head(c.samples).start + cfg.minTime
    ensures Orderly(EndSample(cfg, c, kind, end, ret).samples) <==> !Clash(c, kind, ret)
  {
    hide Orderly, Stretched, Closed, Shortened, EndSample, Joined;
    var older, h := Older(c.samples), Head(c.samples);
    StretchedLong(cfg, h, end);
    OrderlyOlder(older);
    var shortened, x := Shortened(older, Stretched(cfg, h, end)), Closed(cfg, c, kind, end, ret);
    ShortenedOrderly(older, Stretched(cfg, h, end));
    EndSamples(cfg, c, kind, end, ret);
    ClosedAfterSuccess(cfg, c, kind, end, ret);
    if Mergeable(cfg, shortened, x) {
      JoinedOrderly(Older(shortened), Head(shortened), x);
    } else if Orderly(shortened) {
      OrderlyAppend(shortened, x);
    } else {
      NotOrderlyAppend(shortened, x);
    }
  }

  lemma NotOrderlyAppend(s: seq<IoSample>, x: IoSample)
    requires !Orderly(s)
    ensures !Orderly(s + [x])
  {
    assert forall i | 0 <= i < |s| :: s[i] == (s + [x])[i];
  }

  /** Ending a call keeps the intervals in order exactly when there is no clash. */
  lemma EndOrderly(cfg: Settings, c: PerComm, kind: IoType, end: nat, ret: int)
    requires CommOk(c) && Closable(c, kind) && Orderly(Older(c.samples))
    requires Recent(cfg, c.samples, end)
    ensures Orderly(EndSample(cfg, c, kind, end, ret).samples) <==> !Clash(c, kind, ret)
  {
    hide Orderly, EndSample, Clash;
    var older, h := Older(c.samples), Head(c.samples);
    assert SampleOk(h);
    if !Overlaps(older, h) {
      ApartOrderly(cfg, c, kind, end, ret);
      NoClashApart(c, kind, ret);
    } else {
      assert Head(older) == c.samples[|c.samples| - 2];
      if Head(older).err != 0 {
        AfterErrorOrderly(cfg, c, kind, end, ret);
        NoClashApart(c, kind, ret);
      } else {
        AfterSuccessOrderly(cfg, c, kind, end, ret);
      }
    }
  }

  lemma NoClashApart(c: PerComm, kind: IoType, ret: int)
    requires Closable(c, kind)
    ensures !Overlaps(Older(c.samples), Head(c.samples)) || Head(Older(c.samples)).err != 0 ==> !Clash(c, kind, ret)
  {
  }

  // Ends stay recent.

  lemma EndRecent(cfg: Settings, c: PerComm, kind: IoType, end: nat, ret: int)
    requires Closable(c, kind) && Recent(cfg, c.samples, end) && end > 0
    ensures Recent(cfg, EndSample(cfg, c, kind, end, ret).samples, end)
    ensures Head(EndSample(cfg, c, kind, end, ret).samples).end != 0
  {
    var older, h := Older(c.samples), Head(c.samples);
    StretchedLong(cfg, h, end);
    ShortenedRecent(cfg, older, Stretched(cfg, h, end), end);
  }

  lemma ShortenedRecent(cfg: Settings, older: seq<IoSample>, x: IoSample, now: nat)
    requires (forall i | 0 <= i < |older| :: older[i].end <= now + cfg.minTime) && x.start <= now
    ensures forall i | 0 <= i < |older| :: Shortened(older, x)[i].end <= now + cfg.minTime
  {
  }

  lemma BeginRecent(cfg: Settings, c: PerComm, kind: IoType, start: nat, fd: int)
    requires CommOk(c) && Recent(cfg, c.samples, start) && start > 0
    ensures Recent(cfg, BeginSample(c, kind, start, fd).samples, start)
    ensures ClosedPart(BeginSample(c, kind, start, fd).samples) == ClosedPart(c.samples)
  {
    if c.samples != [] {
      assert SampleOk(Head(c.samples));
      if |c.samples| > 1 { assert Head(Older(c.samples)) == c.samples[|c.samples| - 2]; }
    }
  }

  // Every run.

  function TimeOf(e: Event, now: nat): nat { if e.SetComm? then now else e.time }

  function Clock(trace: seq<Event>): nat {
    if trace == [] then 0 else TimeOf(trace[|trace| - 1], Clock(trace[..|trace| - 1]))
  }

  /** Samples come in order of time. */
  predicate InOrder(trace: seq<Event>) {
    trace == [] ||
    (InOrder(trace[..|trace| - 1]) && Timed(trace[|trace| - 1]) &&
        (trace[|trace| - 1].SetComm? || Clock(trace[..|trace| - 1]) <= trace[|trace| - 1].time))
  }

  predicate RecentPid(cfg: Settings, p: PerPid, now: nat) {
    forall i | 0 <= i < |p.comms| :: Recent(cfg, p.comms[i].samples, now)
  }

  predicate OrderlyPid(p: PerPid) {
    forall i | 0 <= i < |p.comms| :: Orderly(ClosedPart(p.comms[i].samples))
  }

  predicate RecentChart(cfg: Settings, s: Chart, now: nat) {
    forall pid | pid in s.pids :: RecentPid(cfg, s.pids[pid], now)
  }

  predicate OrderlyChart(s: Chart) {
    forall pid | pid in s.pids :: OrderlyPid(s.pids[pid])
  }

  /** The event ends a call that clashes. */
  predicate Clashes(s: Chart, e: Event)
    requires PidsOk(s)
  {
    e.End? && var p := PidOf(s, e.pid); Ends(p, e) && Clash(Current(p), e.kind, e.ret)
  }

  lemma LaterRecent(cfg: Settings, p: PerPid, now: nat, later: nat)
    requires RecentPid(cfg, p, now) && now <= later
    ensures RecentPid(cfg, p, later)
  {
  }

  lemma BegunRecent(cfg: Settings, p: PerPid, e: Event)
    requires PidOk(p) && e.Begin? && Timed(e) && RecentPid(cfg, p, e.time)
    ensures RecentPid(cfg, Begun(p, e), e.time)
    ensures OrderlyPid(Begun(p, e)) <==> OrderlyPid(p)
  {
    hide Recent, Orderly, BeginSample, ClosedPart, CommOk;
    NewCommOrderly(cfg, e.time);
    var q := WithCurrent(p);
    if p.current.None? { AddCommKeeps(p, NewComm(None)); }
    BeginRecent(cfg, Current(q), e.kind, e.time, e.fd);
    assert OrderlyPid(q) <==> OrderlyPid(p) by { WithCurrentOrderly(p); }
    SetCurrentOrderly(q, BeginSample(Current(q), e.kind, e.time, e.fd));
  }

  lemma NewCommOrderly(cfg: Settings, now: nat)
    ensures forall name: Option<string> :: Recent(cfg, NewComm(name).samples, now)
    ensures forall name: Option<string> :: Orderly(ClosedPart(NewComm(name).samples))
  {
  }

  lemma WithCurrentOrderly(p: PerPid)
    requires CurrentOk(p)
    ensures OrderlyPid(WithCurrent(p)) <==> OrderlyPid(p)
  {
    hide Orderly, ClosedPart;
    NewCommOrderly(Settings(0, 0), 0);
    var q := WithCurrent(p);
    assert forall i | 0 <= i < |p.comms| :: q.comms[i] == p.comms[i];
  }

  /** Only the order of the current comm is at stake. */
  lemma SetCurrentOrderly(p: PerPid, c: PerComm)
    requires CurrentOk(p) && p.current.Some?
    ensures Orderly(ClosedPart(c.samples)) == Orderly(ClosedPart(Current(p).samples)) ==>
              (OrderlyPid(SetCurrent(p, c)) <==> OrderlyPid(p))
    ensures OrderlyPid(p) ==> (OrderlyPid(SetCurrent(p, c)) <==> Orderly(ClosedPart(c.samples)))
  {
    hide Orderly, ClosedPart;
    var r, k := SetCurrent(p, c), p.current.value;
    assert forall i | 0 <= i < |p.comms| && i != k :: r.comms[i] == p.comms[i];
    assert r.comms[k] == c && p.comms[k] == Current(p);
  }

  lemma EndedOrderly(cfg: Settings, p: PerPid, e: Event)
    requires PidOk(p) && e.End? && Timed(e) && Ends(p, e) && RecentPid(cfg, p, e.time)
    ensures RecentPid(cfg, Ended(cfg, p, e), e.time)
    ensures OrderlyPid(p) ==> (OrderlyPid(Ended(cfg, p, e)) <==> !Clash(Current(p), e.kind, e.ret))
  {
    hide Recent, Orderly, EndSample, CommOk, Clash;
    var c := Current(p);
    var d := EndSample(cfg, c, e.kind, e.time, e.ret);
    EndRecent(cfg, c, e.kind, e.time, e.ret);
    SetCurrentOrderly(p, d);
    if OrderlyPid(p) {
      assert Orderly(ClosedPart(c.samples));
      EndOrderly(cfg, c, e.kind, e.time, e.ret);
    }
  }

  lemma NamedOrderly(cfg: Settings, p: PerPid, name: string, now: nat)
    requires RecentPid(cfg, p, now)
    ensures RecentPid(cfg, Named(p, name), now) && (OrderlyPid(Named(p, name)) <==> OrderlyPid(p))
  {
    hide Recent, Orderly, ClosedPart;
    NewCommOrderly(cfg, now);
    FindCommInRange(p.comms, name);
    var q := Named(p, name);
    assert forall i | 0 <= i < |p.comms| :: q.comms[i].samples == p.comms[i].samples;
  }

  lemma NewPidOrderly(cfg: Settings, pid: int, now: nat)
    ensures RecentPid(cfg, NewPid(pid), now) && OrderlyPid(NewPid(pid)) && PidOk(NewPid(pid))
  {
  }

  /** From an orderly chart, an event leads to an orderly one exactly when it does not clash. */
  lemma StepOrderly(cfg: Settings, s: Chart, e: Event, now: nat)
    requires PidsOk(s) && (forall pid | pid in s.pids :: PidOk(s.pids[pid])) && RecentChart(cfg, s, now)
    requires Timed(e) && now <= TimeOf(e, now)
    ensures RecentChart(cfg, Step(cfg, s, e), TimeOf(e, now))
    ensures OrderlyChart(s) ==> (OrderlyChart(Step(cfg, s, e)) <==> !Clashes(s, e))
  {
    hide PidOk, RecentPid, OrderlyPid, Begun, Ended, Named, Ends, Clash;
    var p, later := PidOf(s, e.pid), TimeOf(e, now);
    NewPidOrderly(cfg, e.pid, now);
    forall pid | pid in s.pids ensures RecentPid(cfg, s.pids[pid], later) {
      LaterRecent(cfg, s.pids[pid], now, later);
    }
    LaterRecent(cfg, p, now, later);
    assert OrderlyChart(s) ==> OrderlyPid(p);
    var s' := Step(cfg, s, e);
    assert OrderlyChart(s) ==> (OrderlyChart(s') <==> OrderlyPid(s'.pids[e.pid]));
    match e {
      case Begin(_, _, _, _) => BegunRecent(cfg, p, e);
      case End(_, _, _, _) => if Ends(p, e) { EndedOrderly(cfg, p, e); }
      case SetComm(_, name) => NamedOrderly(cfg, p, name, now);
    }
  }

  lemma {:induction false} RunRecent(cfg: Settings, trace: seq<Event>)
    requires InOrder(trace)
    ensures RecentChart(cfg, Run(cfg, trace), Clock(trace))
    ensures forall pid | pid in Run(cfg, trace).pids :: PidOk(Run(cfg, trace).pids[pid])
  {
    hide PidOk, RecentPid, Step;
    if trace != [] {
      var before, e := trace[..|trace| - 1], trace[|trace| - 1];
      RunRecent(cfg, before);
      StepOrderly(cfg, Run(cfg, before), e, Clock(before));
      AllTimed(trace);
      SamplesAddUp(cfg, trace);
    }
  }

  lemma {:induction false} AllTimed(trace: seq<Event>)
    requires InOrder(trace)
    ensures forall e | e in trace :: Timed(e)
  {
    if trace != [] {
      AllTimed(trace[..|trace| - 1]);
      assert trace == trace[..|trace| - 1] + [trace[|trace| - 1]];
    }
  }

  /** No event of the trace ends a call that clashes. */
  predicate NeverClashes(cfg: Settings, trace: seq<Event>) {
    trace == [] ||
    (NeverClashes(cfg, trace[..|trace| - 1]) && !Clashes(Run(cfg, trace[..|trace| - 1]), trace[|trace| - 1]))
  }

  predicate AlwaysOrderly(cfg: Settings, trace: seq<Event>) {
    OrderlyChart(Run(cfg, trace)) && (trace != [] ==> AlwaysOrderly(cfg, trace[..|trace| - 1]))
  }

  /** In every run with times in order, the intervals are orderly throughout exactly when no call clashes. */
  lemma {:induction false} OrderlyUnlessClash(cfg: Settings, trace: seq<Event>)
    requires InOrder(trace)
    ensures AlwaysOrderly(cfg, trace) <==> NeverClashes(cfg, trace)
  {
    hide PidOk, RecentPid, OrderlyPid, Clashes, Step;
    if trace != [] {
      var before, e := trace[..|trace| - 1], trace[|trace| - 1];
      OrderlyUnlessClash(cfg, before);
      RunRecent(cfg, before);
      StepOrderly(cfg, Run(cfg, before), e, Clock(before));
    }
  }

  // Without failing calls nothing clashes.

  predicate NoFailures(trace: seq<Event>) {
    forall e | e in trace && e.End? :: e.ret >= 0
  }

  predicate Plain(samples: seq<IoSample>, now: nat) {
    && (forall i | 0 <= i < |samples| :: samples[i].err == 0 && samples[i].start <= now)
    && (samples != [] && Head(samples).end == 0 ==>
        forall i | 0 <= i < |samples| :: samples[i].start <= Head(samples).start)
  }

  predicate PlainPid(p: PerPid, now: nat) {
    forall i | 0 <= i < |p.comms| :: Plain(p.comms[i].samples, now)
  }

  predicate PlainChart(s: Chart, now: nat) {
    forall pid | pid in s.pids :: PlainPid(s.pids[pid], now)
  }

  lemma BeginPlain(c: PerComm, kind: IoType, start: nat, fd: int)
    requires CommOk(c) && Plain(c.samples, start) && start > 0
    ensures Plain(BeginSample(c, kind, start, fd).samples, start)
  {
    if |c.samples| > 1 { assert Head(Older(c.samples)) == c.samples[|c.samples| - 2]; }
  }

  lemma EndPlain(cfg: Settings, c: PerComm, kind: IoType, end: nat, ret: int)
    requires Closable(c, kind) && Plain(c.samples, end) && end > 0 && ret >= 0
    ensures Plain(EndSample(cfg, c, kind, end, ret).samples, end)
    ensures !Clash(c, kind, ret)
  {
    hide Stretched, Closed, Shortened, EndSample;
    var older, h := Older(c.samples), Head(c.samples);
    StretchedLong(cfg, h, end);
    EndSamples(cfg, c, kind, end, ret);
    ShortenedPlain(older, Stretched(cfg, h, end), end);
    assert older != [] ==> Head(older) == c.samples[|c.samples| - 2];
    ClosedPlain(cfg, c, kind, end, ret);
  }

  lemma ShortenedPlain(older: seq<IoSample>, x: IoSample, now: nat)
    requires forall i | 0 <= i < |older| :: older[i].err == 0 && older[i].start <= now
    ensures forall i | 0 <= i < |older| :: Shortened(older, x)[i].err == 0 && Shortened(older, x)[i].start <= now
  {
  }

  lemma ClosedPlain(cfg: Settings, c: PerComm, kind: IoType, end: nat, ret: int)
    requires Closable(c, kind) && ret >= 0 && Head(c.samples).err == 0 && end > 0
    requires Older(c.samples) != [] ==> Head(Older(c.samples)).err == 0
    ensures var x := Closed(cfg, c, kind, end, ret);
            x.err == 0 && x.start == Head(c.samples).start && (x.start <= end ==> x.end != 0)
  {
  }

  lemma LaterPlain(p: PerPid, now: nat, later: nat)
    requires PlainPid(p, now) && now <= later
    ensures PlainPid(p, later)
  {
  }

  lemma BegunPlain(p: PerPid, e: Event)
    requires PidOk(p) && e.Begin? && Timed(e) && PlainPid(p, e.time)
    ensures PlainPid(Begun(p, e), e.time)
  {
    hide CommOk, BeginSample, Plain;
    assert Plain(NewComm(None).samples, e.time) by { EmptyPlain(e.time); }
    var q := WithCurrent(p);
    if p.current.None? { AddCommKeeps(p, NewComm(None)); }
    BeginPlain(Current(q), e.kind, e.time, e.fd);
  }

  lemma EmptyPlain(now: nat)
    ensures Plain([], now)
  {
  }

  lemma EndedPlain(cfg: Settings, p: PerPid, e: Event)
    requires CurrentOk(p) && e.End? && Timed(e) && Ends(p, e) && PlainPid(p, e.time) && e.ret >= 0
    ensures PlainPid(Ended(cfg, p, e), e.time) && !Clash(Current(p), e.kind, e.ret)
  {
    hide EndSample, Plain, Clash;
    EndPlain(cfg, Current(p), e.kind, e.time, e.ret);
  }

  lemma NamedPlain(p: PerPid, name: string, now: nat)
    requires PlainPid(p, now)
    ensures PlainPid(Named(p, name), now)
  {
    hide Plain;
    EmptyPlain(now);
    FindCommInRange(p.comms, name);
  }

  lemma StepPlain(cfg: Settings, s: Chart, e: Event, now: nat)
    requires PidsOk(s) && (forall pid | pid in s.pids :: PidOk(s.pids[pid])) && PlainChart(s, now)
    requires Timed(e) && now <= TimeOf(e, now) && (e.End? ==> e.ret >= 0)
    ensures PlainChart(Step(cfg, s, e), TimeOf(e, now)) && !Clashes(s, e)
  {
    hide PidOk, PlainPid, Begun, Ended, Named, Ends, Clash;
    var p, later := PidOf(s, e.pid), TimeOf(e, now);
    assert PlainPid(NewPid(e.pid), now) by { NewPidPlain(e.pid, now); }
    NewPidOk(e.pid);
    forall pid | pid in s.pids ensures PlainPid(s.pids[pid], later) {
      LaterPlain(s.pids[pid], now, later);
    }
    LaterPlain(p, now, later);
    match e {
      case Begin(_, _, _, _) => BegunPlain(p, e);
      case End(_, _, _, _) => if Ends(p, e) { EndedPlain(cfg, p, e); }
      case SetComm(_, name) => NamedPlain(p, name, now);
    }
  }

  lemma NewPidPlain(pid: int, now: nat)
    ensures PlainPid(NewPid(pid), now)
  {
  }

  lemma {:induction false} NoFailuresNeverClash(cfg: Settings, trace: seq<Event>)
    requires InOrder(trace) && NoFailures(trace)
    ensures PlainChart(Run(cfg, trace), Clock(trace)) && NeverClashes(cfg, trace)
  {
    hide PidOk, PlainPid, Clashes, Step;
    if trace != [] {
      var before, e := trace[..|trace| - 1], trace[|trace| - 1];
      assert e in trace;
      NoFailuresNeverClash(cfg, before);
      RunRecent(cfg, before);
      StepPlain(cfg, Run(cfg, before), e, Clock(before));
    }
  }

  /** When no call fails, every comm's closed samples are well formed, in order and disjoint. */
  lemma NoFailuresOrderly(cfg: Settings, trace: seq<Event>)
    requires InOrder(trace) && NoFailures(trace)
    ensures OrderlyChart(Run(cfg, trace))
  {
    NoFailuresNeverClash(cfg, trace);
    OrderlyUnlessClash(cfg, trace);
  }

  /** A read from its beginning to its end. */
  function ReadCall(cfg: Settings, c: PerComm, fd: int, start: nat, end: nat, ret: int): PerComm {
    var d := BeginSample(c, Read, start, fd);
    if Closable(d, Read) then EndSample(cfg, d, Read, end, ret) else d
  }

  /** A failed read, then reads of two other files at once: the second sample, [110, 112], is cut to end at 14. */
  lemma FailureBreaksOrder()
    ensures var cfg := Settings(100, 0);
            var a := ReadCall(cfg, NewComm(None), 1, 10, 11, -5);
            var b := ReadCall(cfg, a, 2, 12, 13, 5);
            var c := ReadCall(cfg, b, 3, 14, 15, 7);
            && Orderly(b.samples)
            && c.samples == [IoSample(10, 110, 0, Read, 1, -5, 0), IoSample(110, 14, 5, Read, 2, 0, 0),
                IoSample(14, 114, 7, Read, 3, 0, 0)]
  {
    hide ReadCall, Orderly;
    FailsFirst(Settings(100, 0), NewComm(None));
    FailureThenTwo(Settings(100, 0), ReadCall(Settings(100, 0), NewComm(None), 1, 10, 11, -5));
  }

  lemma FailsFirst(cfg: Settings, c: PerComm)
    requires cfg == Settings(100, 0) && c.samples == []
    ensures ReadCall(cfg, c, 1, 10, 11, -5).samples == [IoSample(10, 110, 0, Read, 1, -5, 0)]
  {
    assert BeginSample(c, Read, 10, 1).samples == [IoSample(10, 0, 0, Read, 1, 0, 0)];
  }

  lemma FailureThenTwo(cfg: Settings, a: PerComm)
    requires cfg == Settings(100, 0) && a.samples == [IoSample(10, 110, 0, Read, 1, -5, 0)]
    ensures var b := ReadCall(cfg, a, 2, 12, 13, 5);
            && Orderly(b.samples)
            && ReadCall(cfg, b, 3, 14, 15, 7).samples ==
               [IoSample(10, 110, 0, Read, 1, -5, 0), IoSample(110, 14, 5, Read, 2, 0, 0),
                   IoSample(14, 114, 7, Read, 3, 0, 0)]
  {
    assert BeginSample(a, Read, 12, 2).samples ==
      [IoSample(10, 110, 0, Read, 1, -5, 0), IoSample(12, 0, 0, Read, 2, 0, 0)];
    var b := ReadCall(cfg, a, 2, 12, 13, 5);
    assert b.samples == [IoSample(10, 110, 0, Read, 1, -5, 0), IoSample(110, 112, 5, Read, 2, 0, 0)];
    var d := BeginSample(b, Read, 14, 3);
    assert d.samples == b.samples + [IoSample(14, 0, 0, Read, 3, 0, 0)];
    assert Older(d.samples) == b.samples;
    assert Older(b.samples) == [IoSample(10, 110, 0, Read, 1, -5, 0)];
  }
}
