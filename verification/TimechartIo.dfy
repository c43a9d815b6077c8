/**
 The I/O samples of `perf timechart`. The lists here run from oldest to newest: the head of a list in
 the program, where new elements go, is the last element. Start times are positive.
 */
module TimechartIo {
  import opened Options
  import opened RbTree

  datatype IoType = Read | Write | Sync | Tx | Rx | Poll
  datatype IoSample = IoSample(start: nat, end: nat, bytes: nat, kind: IoType, fd: int, err: int, merges: nat)
  datatype PerComm = PerComm(name: Option<string>, startTime: nat, maxBytes: nat, totalBytes: nat,
      samples: seq<IoSample>)
  datatype PerPid = PerPid(pid: int, totalBytes: nat, comms: seq<PerComm>, current: Option<nat>)
  datatype Chart = Chart(pids: map<int, PerPid>, ioEvents: nat)

  /** How long a sample is drawn at least, and how close samples are merged. */
  datatype Settings = Settings(minTime: nat, mergeDist: nat)

  datatype Event =
    | Begin(pid: int, kind: IoType, time: nat, fd: int)
    | End(pid: int, kind: IoType, time: nat, ret: int)
    | SetComm(pid: int, name: string)

  function NewComm(name: Option<string>): PerComm { PerComm(name, 0, 0, 0, []) }
  function NewPid(pid: int): PerPid { PerPid(pid, 0, [], None) }
  function Empty(): Chart { Chart(map[], 0) }
  function PidOf(s: Chart, pid: int): PerPid { Get(s.pids, pid, NewPid(pid)) }

  // Beginning a call.

  predicate Open(x: IoSample) { x.start != 0 && x.end == 0 }

  function Head(samples: seq<IoSample>): IoSample
    requires samples != []
  {
    samples[|samples| - 1]
  }

  function Older(samples: seq<IoSample>): seq<IoSample>
    requires samples != []
  {
    samples[..|samples| - 1]
  }

  /** A call that begins while one is open only drops the open one. */
  function BeginSample(c: PerComm, kind: IoType, start: nat, fd: int): PerComm {
    if c.samples != [] && Open(Head(c.samples)) then c.(samples := Older(c.samples))
    else
      c.(samples := c.samples + [IoSample(start, 0, 0, kind, fd, 0, 0)],
         startTime := if c.startTime == 0 || c.startTime > start then start else c.startTime)
  }

  // Ending a call.

  /** The difference of two 64-bit times. */
  function Minus(a: nat, b: nat): nat {
    if a >= b then a - b else (a - b) % 0x1_0000_0000_0000_0000
  }

  /** An end without its beginning, or of another kind of call, is skipped. */
  predicate Closable(c: PerComm, kind: IoType) {
    c.samples != [] && Head(c.samples).end == 0 && Head(c.samples).kind == kind
  }

  function Stretched(cfg: Settings, x: IoSample, end: nat): IoSample {
    x.(end := if Minus(end, x.start) < cfg.minTime then x.start + cfg.minTime else end)
  }

  predicate Overlaps(older: seq<IoSample>, x: IoSample) {
    older != [] && x.start < Head(older).end
  }

  /** An overlap shortens the older sample, unless that one shows an error. */
  function Shortened(older: seq<IoSample>, x: IoSample): (r: seq<IoSample>)
    ensures |r| == |older|
  {
    if Overlaps(older, x) && Head(older).err == 0 then Older(older) + [Head(older).(end := x.start)] else older
  }

  function Shifted(older: seq<IoSample>, x: IoSample): IoSample {
    if Overlaps(older, x) && Head(older).err != 0 then x.(start := Head(older).end) else x
  }

  predicate Transfers(kind: IoType) {
    kind.Read? || kind.Write? || kind.Tx? || kind.Rx?
  }

  /** The bytes a call transferred. */
  function Transferred(kind: IoType, ret: int): nat {
    if ret >= 0 && Transfers(kind) then ret else 0
  }

  function Finished(x: IoSample, kind: IoType, ret: int): IoSample {
    if ret < 0 then x.(err := ret) else if Transfers(kind) then x.(bytes := ret) else x
  }

  predicate Mergeable(cfg: Settings, older: seq<IoSample>, x: IoSample) {
    && older != []
    && Head(older).kind == x.kind && Head(older).err == x.err && Head(older).fd == x.fd
    && Head(older).end + cfg.mergeDist >= x.start
  }

  function Joined(prev: IoSample, x: IoSample): IoSample {
    x.(bytes := x.bytes + prev.bytes, merges := x.merges + prev.merges + 1, start := prev.start)
  }

  function Larger(a: nat, b: nat): nat { if a > b then a else b }

  /** The closed sample before it may be merged. */
  function Closed(cfg: Settings, c: PerComm, kind: IoType, end: nat, ret: int): IoSample
    requires Closable(c, kind)
  {
    var x := Stretched(cfg, Head(c.samples), end);
    Finished(Shifted(Older(c.samples), x), kind, ret)
  }

  function EndSample(cfg: Settings, c: PerComm, kind: IoType, end: nat, ret: int): PerComm
    requires Closable(c, kind)
  {
    var older := Shortened(Older(c.samples), Stretched(cfg, Head(c.samples), end));
    var x := Closed(cfg, c, kind, end, ret);
    var got := Transferred(kind, ret);
    var max := Larger(got, c.maxBytes);
    if Mergeable(cfg, older, x) then
      var joined := Joined(Head(older), x);
      c.(samples := Older(older) + [joined], totalBytes := c.totalBytes + got,
         maxBytes := if joined.err == 0 then Larger(joined.bytes, max) else max)
    else
      c.(samples := older + [x], totalBytes := c.totalBytes + got, maxBytes := max)
  }

  // The events on a process.

  /** The comm of that name, or the newest one that has no name yet if it comes first from the head. */
  function FindComm(comms: seq<PerComm>, name: string): Option<nat> {
    if comms == [] then None
    else if comms[|comms| - 1].name == Some(name) || comms[|comms| - 1].name.None? then Some(|comms| - 1)
    else FindComm(comms[..|comms| - 1], name)
  }

  lemma {:induction false} FindCommInRange(comms: seq<PerComm>, name: string)
    ensures FindComm(comms, name).Some? ==> FindComm(comms, name).value < |comms|
  {
    if comms != [] { FindCommInRange(comms[..|comms| - 1], name); }
  }

  predicate CurrentOk(p: PerPid) {
    p.current.Some? ==> p.current.value < |p.comms|
  }

  function Named(p: PerPid, name: string): (r: PerPid)
    ensures CurrentOk(r)
  {
    FindCommInRange(p.comms, name);
    match FindComm(p.comms, name)
    case Some(i) => p.(comms := p.comms[i := p.comms[i].(name := Some(name))], current := Some(i))
    case None => p.(comms := p.comms + [NewComm(Some(name))], current := Some(|p.comms|))
  }

  /** A process without a current comm gets one without a name. */
  function WithCurrent(p: PerPid): (r: PerPid)
    requires CurrentOk(p)
    ensures CurrentOk(r) && r.current.Some?
  {
    if p.current.Some? then p else p.(comms := p.comms + [NewComm(None)], current := Some(|p.comms|))
  }

  function Current(p: PerPid): PerComm
    requires CurrentOk(p) && p.current.Some?
  {
    p.comms[p.current.value]
  }

  function SetCurrent(p: PerPid, c: PerComm): (r: PerPid)
    requires CurrentOk(p) && p.current.Some?
    ensures CurrentOk(r)
  {
    p.(comms := p.comms[p.current.value := c])
  }

  function Begun(p: PerPid, e: Event): (r: PerPid)
    requires CurrentOk(p) && e.Begin?
    ensures CurrentOk(r)
  {
    SetCurrent(WithCurrent(p), BeginSample(Current(WithCurrent(p)), e.kind, e.time, e.fd))
  }

  predicate Ends(p: PerPid, e: Event)
    requires CurrentOk(p) && e.End?
  {
    p.current.Some? && Closable(Current(p), e.kind)
  }

  function Ended(cfg: Settings, p: PerPid, e: Event): (r: PerPid)
    requires CurrentOk(p) && e.End? && Ends(p, e)
    ensures CurrentOk(r)
  {
    SetCurrent(p, EndSample(cfg, Current(p), e.kind, e.time, e.ret)).(
      totalBytes := p.totalBytes + Transferred(e.kind, e.ret))
  }

  predicate PidsOk(s: Chart) {
    forall pid | pid in s.pids :: CurrentOk(s.pids[pid])
  }

  /** The handlers look the process up first, and so create it. */
  function Step(cfg: Settings, s: Chart, e: Event): (r: Chart)
    requires PidsOk(s)
    ensures PidsOk(r)
  {
    var p := PidOf(s, e.pid);
    match e
    case Begin(_, _, _, _) => s.(pids := s.pids[e.pid := Begun(p, e)])
    case End(_, _, _, _) =>
      if Ends(p, e) then Chart(s.pids[e.pid := Ended(cfg, p, e)], s.ioEvents + 1) else s.(pids := s.pids[e.pid := p])
    case SetComm(_, name) => s.(pids := s.pids[e.pid := Named(p, name)])
  }

  function Run(cfg: Settings, trace: seq<Event>): (s: Chart)
    ensures PidsOk(s)
  {
    if trace == [] then Empty() else Step(cfg, Run(cfg, trace[..|trace| - 1]), trace[|trace| - 1])
  }
}
