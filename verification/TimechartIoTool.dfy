/** The I/O handlers of timechart on the lists they change in place. */
module TimechartIoTool {
  import opened Options
  import opened RbTree
  import opened TimechartIo

  function PidKey(p: PerPid): int { p.pid }

  /** Close the newest sample: stretch it, move it apart from the one before, and merge the two if they are close. */
  method CloseSample(cfg: Settings, c: PerComm, kind: IoType, end: nat, ret: int) returns (r: PerComm)
    requires Closable(c, kind)
    ensures r == EndSample(cfg, c, kind, end, ret)
  {
    r := c;
    var sample := Head(c.samples);
    var older := Older(c.samples);
    sample := sample.(end := end);
    if Minus(sample.end, sample.start) < cfg.minTime {
      sample := sample.(end := sample.start + cfg.minTime);
    }
    if older != [] && sample.start < Head(older).end {
      if Head(older).err != 0 {
        sample := sample.(start := Head(older).end);
      } else {
        older := Older(older) + [Head(older).(end := sample.start)];
      }
    }
    if ret < 0 {
      sample := sample.(err := ret);
    } else if Transfers(kind) {
      r := r.(maxBytes := Larger(ret, r.maxBytes), totalBytes := r.totalBytes + ret);
      sample := sample.(bytes := ret);
    }
    assert sample == Closed(cfg, c, kind, end, ret);
    if Mergeable(cfg, older, sample) {
      sample := Joined(Head(older), sample);
      older := Older(older);
      if sample.err == 0 && sample.bytes > r.maxBytes {
        r := r.(maxBytes := sample.bytes);
      }
    }
    r := r.(samples := older + [sample]);
  }

  lemma PidAdded(nodes: seq<PerPid>, p: PerPid)
    requires DistinctKeys(nodes, PidKey) && forall i | 0 <= i < |nodes| :: nodes[i].pid != p.pid
    ensures DistinctKeys(nodes + [p], PidKey) && p.pid !in ToMap(nodes, PidKey)
    ensures ToMap(nodes + [p], PidKey) == ToMap(nodes, PidKey)[p.pid := p]
  {
    ToMapInsert(nodes, PidKey, |nodes|, p);
    assert InsertAt(nodes, |nodes|, p) == nodes + [p];
  }

  lemma NewPidIs(pid: int)
    ensures NewPid(pid).pid == pid && CurrentOk(NewPid(pid))
  {
  }

  class Timechart {
    const cfg: Settings
    var allData: seq<PerPid>
    var ioEvents: nat

    ghost predicate Valid()
      reads this
    {
      DistinctKeys(allData, PidKey) && forall i | 0 <= i < |allData| :: CurrentOk(allData[i])
    }

    ghost function State(): (s: Chart)
      requires Valid()
      reads this
      ensures PidsOk(s)
    {
      Chart(ToMap(allData, PidKey), ioEvents)
    }

    constructor (cfg: Settings)
      ensures Valid() && State() == Empty() && this.cfg == cfg
    {
      this.cfg := cfg;
      allData, ioEvents := [], 0;
    }

    /** The process with that id, made if it is new. */
    method FindCreatePid(pid: int) returns (k: nat)
      requires Valid()
      modifies `allData
      ensures Valid() && k < |allData| && allData[k] == PidOf(old(State()), pid) && allData[k].pid == pid
      ensures State().pids == old(State()).pids[pid := allData[k]]
    {
      hide DistinctKeys, ToMap, NewPid;
      var cursor := |allData|;
      while cursor > 0
        invariant 0 <= cursor <= |allData|
        invariant forall i | cursor <= i < |allData| :: allData[i].pid != pid
      {
        if allData[cursor - 1].pid == pid {
          assert allData[cursor - 1] in allData;
          assert State().pids == State().pids[pid := allData[cursor - 1]];
          return cursor - 1;
        }
        cursor := cursor - 1;
      }
      k := |allData|;
      PidAdded(allData, NewPid(pid)) by { NewPidIs(pid); }
      NewPidIs(pid);
      allData := allData + [NewPid(pid)];
    }

    method Put(k: nat, p: PerPid)
      requires Valid() && k < |allData| && allData[k].pid == p.pid && CurrentOk(p)
      modifies `allData
      ensures Valid() && State().pids == old(State()).pids[p.pid := p]
    {
      hide ToMap;
      ToMapUpdate(allData, PidKey, k, p);
      allData := allData[k := p];
    }

    method PidSetComm(e: Event)
      requires Valid() && e.SetComm?
      modifies `allData
      ensures Valid() && State() == Step(cfg, old(State()), e)
    {
      hide DistinctKeys, ToMap;
      ghost var pids := State().pids;
      var k := FindCreatePid(e.pid);
      var p := allData[k];
      var i := FindByName(p.comms, e.name);
      var r;
      match i {
        case Some(c) =>
          var comm := p.comms[c];
          if comm.name.None? {
            comm := comm.(name := Some(e.name));
          }
          r := p.(comms := p.comms[c := comm], current := Some(c));
        case None =>
          r := p.(comms := p.comms + [NewComm(Some(e.name))], current := Some(|p.comms|));
      }
      FindCommNamed(p.comms, e.name);
      assert r == Named(p, e.name);
      Put(k, r);
      assert pids[e.pid := p][e.pid := r] == pids[e.pid := r];
    }

    method PidBeginIoSample(e: Event)
      requires Valid() && e.Begin?
      modifies `allData
      ensures Valid() && State() == Step(cfg, old(State()), e)
    {
      hide DistinctKeys, ToMap, BeginSample;
      ghost var pids := State().pids;
      var k := FindCreatePid(e.pid);
      var p := allData[k];
      var q := p;
      if q.current.None? {
        q := q.(comms := q.comms + [NewComm(None)], current := Some(|q.comms|));
      }
      var c := StartSample(Current(q), e.kind, e.time, e.fd);
      Put(k, SetCurrent(q, c));
      assert pids[e.pid := p][e.pid := Begun(p, e)] == pids[e.pid := Begun(p, e)];
    }

    method PidEndIoSample(e: Event) returns (err: bool)
      requires Valid() && e.End?
      modifies this
      ensures Valid() && State() == Step(cfg, old(State()), e)
      ensures err <==> PidOf(old(State()), e.pid).current.None?
    {
      hide DistinctKeys, ToMap, EndSample;
      ghost var pids := State().pids;
      var k := FindCreatePid(e.pid);
      var p := allData[k];
      if p.current.None? {
        return true;
      }
      var c := Current(p);
      if c.samples == [] || Head(c.samples).end != 0 || Head(c.samples).kind != e.kind {
        return false;
      }
      var d := CloseSample(cfg, c, e.kind, e.time, e.ret);
      var r := SetCurrent(p, d).(totalBytes := p.totalBytes + Transferred(e.kind, e.ret));
      Put(k, r);
      assert pids[e.pid := p][e.pid := r] == pids[e.pid := r];
      ioEvents := ioEvents + 1;
      return false;
    }
  }

  /** Begin a call, or drop one that was never seen to end. */
  method StartSample(c: PerComm, kind: IoType, start: nat, fd: int) returns (r: PerComm)
    ensures r == BeginSample(c, kind, start, fd)
  {
    r := c;
    if c.samples != [] {
      var prev := Head(c.samples);
      if prev.start != 0 && prev.end == 0 {
        r := r.(samples := Older(c.samples));
        return;
      }
    }
    r := r.(samples := r.samples + [IoSample(start, 0, 0, kind, fd, 0, 0)]);
    if r.startTime == 0 || r.startTime > start {
      r := r.(startTime := start);
    }
  }

  /** The search of pid_set_comm, from the newest comm to the oldest. */
  method FindByName(comms: seq<PerComm>, name: string) returns (i: Option<nat>)
    ensures i == FindComm(comms, name)
    ensures i.Some? ==> i.value < |comms| && (comms[i.value].name == Some(name) || comms[i.value].name.None?)
    ensures i.Some? ==> forall j | i.value < j < |comms| :: comms[j].name.Some? && comms[j].name != Some(name)
    ensures i.None? ==> forall j | 0 <= j < |comms| :: comms[j].name.Some? && comms[j].name != Some(name)
  {
    var c := |comms|;
    assert comms[..c] == comms;
    while c > 0
      invariant 0 <= c <= |comms| && FindComm(comms, name) == FindComm(comms[..c], name)
      invariant forall j | c <= j < |comms| :: comms[j].name.Some? && comms[j].name != Some(name)
    {
      assert comms[..c][..c - 1] == comms[..c - 1];
      if comms[c - 1].name == Some(name) || comms[c - 1].name.None? {
        return Some(c - 1);
      }
      c := c - 1;
    }
    return None;
  }

  lemma {:induction false} FindCommNamed(comms: seq<PerComm>, name: string)
    ensures FindComm(comms, name).Some? ==>
              var i := FindComm(comms, name).value; i < |comms| && (comms[i].name == Some(name) || comms[i].name.None?)
  {
    if comms != [] { FindCommNamed(comms[..|comms| - 1], name); }
  }
}
