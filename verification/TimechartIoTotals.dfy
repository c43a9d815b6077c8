/** What the I/O lists add up to, in every run. */
module TimechartIoTotals {
  import opened Options
  import opened Sums
  import opened TimechartIo

  function BytesOf(x: IoSample): int { x.bytes }
  function TotalOf(c: PerComm): int { c.totalBytes }

  /** The calls a closed sample stands for. */
  function CallsOf(x: IoSample): int { if x.end == 0 then 0 else x.merges + 1 }
  function CallsOfComm(c: PerComm): int { SumOf(CallsOf, c.samples) }
  function CallsOfPid(p: PerPid): int { SumOf(CallsOfComm, p.comms) }

  /** A failed or an unfinished call has no bytes. */
  predicate SampleOk(x: IoSample) {
    && x.start != 0
    && (x.err != 0 ==> x.bytes == 0)
    && (x.end == 0 ==> x.bytes == 0 && x.err == 0 && x.merges == 0)
  }

  predicate OnlyHeadOpen(samples: seq<IoSample>) {
    forall i | 0 <= i < |samples| - 1 :: samples[i].end != 0
  }

  predicate SamplesOk(samples: seq<IoSample>, max: nat) {
    forall i | 0 <= i < |samples| :: SampleOk(samples[i]) && samples[i].bytes <= max
  }

  predicate CommOk(c: PerComm) {
    && OnlyHeadOpen(c.samples) && SamplesOk(c.samples, c.maxBytes)
    && c.totalBytes == SumOf(BytesOf, c.samples)
  }

  predicate PidOk(p: PerPid) {
    && CurrentOk(p)
    && (forall i | 0 <= i < |p.comms| :: CommOk(p.comms[i]))
    && p.totalBytes == SumOf(TotalOf, p.comms)
  }

  ghost predicate Inv(s: Chart) {
    && (forall pid | pid in s.pids :: PidOk(s.pids[pid]))
    && SumMap(CallsOfPid, s.pids) == s.ioEvents
  }

  // One comm.

  lemma HeadSums(f: IoSample -> int, samples: seq<IoSample>)
    requires samples != []
    ensures SumOf(f, samples) == SumOf(f, Older(samples)) + f(Head(samples))
  {
  }

  /** Moving apart what overlaps changes no sums. */
  lemma ShortenedKeeps(older: seq<IoSample>, x: IoSample, max: nat)
    requires SamplesOk(older, max) && OnlyHeadOpen(older) && (older != [] ==> Head(older).end != 0) && x.start != 0
    ensures var r := Shortened(older, x);
            && SamplesOk(r, max) && OnlyHeadOpen(r) && (r != [] ==> Head(r).end != 0)
            && SumOf(BytesOf, r) == SumOf(BytesOf, older) && SumOf(CallsOf, r) == SumOf(CallsOf, older)
  {
    var r := Shortened(older, x);
    if older != [] {
      HeadSums(BytesOf, older);
      HeadSums(CallsOf, older);
      HeadSums(BytesOf, r);
      HeadSums(CallsOf, r);
      assert Older(r) == Older(older);
    }
  }

  lemma BeginKeeps(c: PerComm, kind: IoType, start: nat, fd: int)
    requires CommOk(c) && start > 0
    ensures CommOk(BeginSample(c, kind, start, fd))
    ensures BeginSample(c, kind, start, fd).totalBytes == c.totalBytes
    ensures CallsOfComm(BeginSample(c, kind, start, fd)) == CallsOfComm(c)
  {
    if c.samples != [] && Open(Head(c.samples)) {
      HeadSums(BytesOf, c.samples);
      HeadSums(CallsOf, c.samples);
    } else {
      assert c.samples != [] ==> SampleOk(Head(c.samples));
      AppendKeeps(c.samples, IoSample(start, 0, 0, kind, fd, 0, 0), c.maxBytes, c.maxBytes);
    }
  }

  /** The sample being closed, before it may be merged, is one call with the bytes it transferred. */
  lemma ClosedIs(cfg: Settings, c: PerComm, kind: IoType, end: nat, ret: int)
    requires CommOk(c) && Closable(c, kind) && end > 0
    ensures var x := Closed(cfg, c, kind, end, ret);
            SampleOk(x) && x.end != 0 && x.bytes == Transferred(kind, ret) && x.merges == 0
  {
    assert SampleOk(Head(c.samples));
    var older := Older(c.samples);
    assert Overlaps(older, Stretched(cfg, Head(c.samples), end)) ==> Head(older) == c.samples[|c.samples| - 2];
  }

  lemma AppendKeeps(older: seq<IoSample>, x: IoSample, max: nat, max': nat)
    requires SamplesOk(older, max) && OnlyHeadOpen(older) && (older != [] ==> Head(older).end != 0)
    requires SampleOk(x) && x.bytes <= max' && max <= max'
    ensures SamplesOk(older + [x], max') && OnlyHeadOpen(older + [x])
    ensures SumOf(BytesOf, older + [x]) == SumOf(BytesOf, older) + x.bytes
    ensures SumOf(CallsOf, older + [x]) == SumOf(CallsOf, older) + CallsOf(x)
  {
    SumAppend(BytesOf, older, x);
    SumAppend(CallsOf, older, x);
  }

  lemma JoinedKeeps(older: seq<IoSample>, x: IoSample, max: nat, max': nat)
    requires SamplesOk(older, max) && OnlyHeadOpen(older) && older != [] && Head(older).end != 0
    requires SampleOk(x) && x.end != 0 && x.err == Head(older).err && max <= max' && x.merges == 0
    requires Joined(Head(older), x).err == 0 ==> Joined(Head(older), x).bytes <= max'
    ensures var r := Older(older) + [Joined(Head(older), x)];
            && SamplesOk(r, max') && OnlyHeadOpen(r)
            && SumOf(BytesOf, r) == SumOf(BytesOf, older) + x.bytes
            && SumOf(CallsOf, r) == SumOf(CallsOf, older) + 1
  {
    var joined := Joined(Head(older), x);
    HeadSums(BytesOf, older);
    HeadSums(CallsOf, older);
    assert SampleOk(Head(older));
    assert OnlyHeadOpen(Older(older)) && (Older(older) != [] ==> Head(Older(older)).end != 0);
    AppendKeeps(Older(older), joined, max, max');
  }

  /** Ending a call counts it once, and its bytes once. */
  lemma EndKeeps(cfg: Settings, c: PerComm, kind: IoType, end: nat, ret: int)
    requires CommOk(c) && Closable(c, kind) && end > 0
    ensures CommOk(EndSample(cfg, c, kind, end, ret))
    ensures EndSample(cfg, c, kind, end, ret).totalBytes == c.totalBytes + Transferred(kind, ret)
    ensures CallsOfComm(EndSample(cfg, c, kind, end, ret)) == CallsOfComm(c) + 1
  {
    hide Shortened, Closed, Joined, Stretched, SampleOk, SamplesOk, OnlyHeadOpen, SumOf;
    var open := Stretched(cfg, Head(c.samples), end);
    var older := Shortened(Older(c.samples), open);
    HeadSums(BytesOf, c.samples);
    HeadSums(CallsOf, c.samples);
    OlderOk(cfg, c, kind, end);
    ShortenedKeeps(Older(c.samples), open, c.maxBytes);
    ClosedIs(cfg, c, kind, end, ret);
    var x := Closed(cfg, c, kind, end, ret);
    var max := Larger(Transferred(kind, ret), c.maxBytes);
    if Mergeable(cfg, older, x) {
      var joined := Joined(Head(older), x);
      JoinedKeeps(older, x, c.maxBytes, if joined.err == 0 then Larger(joined.bytes, max) else max);
    } else {
      AppendKeeps(older, x, c.maxBytes, max);
    }
  }

  lemma OlderOk(cfg: Settings, c: PerComm, kind: IoType, end: nat)
    requires CommOk(c) && Closable(c, kind)
    ensures var older := Older(c.samples);
            && SamplesOk(older, c.maxBytes) && OnlyHeadOpen(older) && (older != [] ==> Head(older).end != 0)
    ensures Stretched(cfg, Head(c.samples), end).start != 0
    ensures BytesOf(Head(c.samples)) == 0 && CallsOf(Head(c.samples)) == 0
  {
    assert SampleOk(Head(c.samples));
  }

  // One process.

  lemma SetCurrentKeeps(p: PerPid, c: PerComm)
    requires PidOk(p) && p.current.Some? && CommOk(c)
    ensures var r := SetCurrent(p, c);
            && (forall i | 0 <= i < |r.comms| :: CommOk(r.comms[i]))
            && SumOf(TotalOf, r.comms) == SumOf(TotalOf, p.comms) - Current(p).totalBytes + c.totalBytes
            && CallsOfPid(r) == CallsOfPid(p) - CallsOfComm(Current(p)) + CallsOfComm(c)
  {
    SumUpdate(TotalOf, p.comms, p.current.value, c);
    SumUpdate(CallsOfComm, p.comms, p.current.value, c);
  }

  lemma AddCommKeeps(p: PerPid, c: PerComm)
    requires PidOk(p) && c == NewComm(c.name)
    ensures PidOk(p.(comms := p.comms + [c], current := Some(|p.comms|)))
    ensures CallsOfPid(p.(comms := p.comms + [c], current := Some(|p.comms|))) == CallsOfPid(p)
  {
    SumAppend(TotalOf, p.comms, c);
    SumAppend(CallsOfComm, p.comms, c);
  }

  lemma NameKeeps(p: PerPid, name: string)
    requires PidOk(p)
    ensures PidOk(Named(p, name)) && CallsOfPid(Named(p, name)) == CallsOfPid(p)
  {
    hide CommOk;
    match FindComm(p.comms, name) {
      case Some(i) =>
        FindCommInRange(p.comms, name);
        var c := p.comms[i].(name := Some(name));
        SumUpdate(TotalOf, p.comms, i, c);
        SumUpdate(CallsOfComm, p.comms, i, c);
        RenameKeeps(p.comms[i], name);
      case None =>
        AddCommKeeps(p, NewComm(Some(name)));
    }
  }

  lemma RenameKeeps(c: PerComm, name: string)
    requires CommOk(c)
    ensures CommOk(c.(name := Some(name)))
  {
  }

  predicate Timed(e: Event) {
    e.SetComm? || e.time > 0
  }

  lemma BegunKeeps(p: PerPid, e: Event)
    requires PidOk(p) && e.Begin? && Timed(e)
    ensures PidOk(Begun(p, e)) && CallsOfPid(Begun(p, e)) == CallsOfPid(p)
  {
    hide CommOk, BeginSample, CallsOfPid, CallsOfComm;
    if p.current.None? { AddCommKeeps(p, NewComm(None)); }
    var q := WithCurrent(p);
    BeginKeeps(Current(q), e.kind, e.time, e.fd);
    SetCurrentKeeps(q, BeginSample(Current(q), e.kind, e.time, e.fd));
  }

  lemma EndedKeeps(cfg: Settings, p: PerPid, e: Event)
    requires PidOk(p) && e.End? && Timed(e) && Ends(p, e)
    ensures PidOk(Ended(cfg, p, e)) && CallsOfPid(Ended(cfg, p, e)) == CallsOfPid(p) + 1
  {
    hide CommOk, EndSample, CallsOfComm;
    EndKeeps(cfg, Current(p), e.kind, e.time, e.ret);
    SetCurrentKeeps(p, EndSample(cfg, Current(p), e.kind, e.time, e.ret));
  }

  // Every run.

  lemma NewPidOk(pid: int)
    ensures PidOk(NewPid(pid)) && CallsOfPid(NewPid(pid)) == 0
  {
  }

  lemma StepKeeps(cfg: Settings, s: Chart, e: Event)
    requires Inv(s) && Timed(e)
    ensures Inv(Step(cfg, s, e))
  {
    hide PidOk, Begun, Ended, Named, SumMap, CallsOfPid, Ends;
    NewPidOk(e.pid);
    var p := PidOf(s, e.pid);
    PidCurrent(p);
    match e {
      case Begin(_, _, _, _) =>
        BegunKeeps(p, e);
        SumMapPut(CallsOfPid, s.pids, e.pid, Begun(p, e));
      case End(_, _, _, _) =>
        if Ends(p, e) {
          EndedKeeps(cfg, p, e);
          SumMapPut(CallsOfPid, s.pids, e.pid, Ended(cfg, p, e));
        } else {
          SumMapPut(CallsOfPid, s.pids, e.pid, p);
        }
      case SetComm(_, name) =>
        NameKeeps(p, name);
        SumMapPut(CallsOfPid, s.pids, e.pid, Named(p, name));
    }
  }

  lemma PidCurrent(p: PerPid)
    requires PidOk(p)
    ensures CurrentOk(p)
  {
  }

  /**
   In every run only the newest sample of a comm can be open, the samples' bytes add up to the comm's
   and the comms' to the process's, none exceeds the comm's maximum, and the closed samples stand for
   all calls counted.
   */
  lemma {:induction false} SamplesAddUp(cfg: Settings, trace: seq<Event>)
    requires forall e | e in trace :: Timed(e)
    ensures Inv(Run(cfg, trace))
  {
    hide PidOk, Step;
    if trace == [] {
      NoCalls();
    } else {
      assert trace[|trace| - 1] in trace;
      SamplesAddUp(cfg, trace[..|trace| - 1]);
      StepKeeps(cfg, Run(cfg, trace[..|trace| - 1]), trace[|trace| - 1]);
    }
  }

  lemma NoCalls()
    ensures Inv(Empty())
  {
  }
}
