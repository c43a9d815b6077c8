/**
 The power states of `perf timechart`: frequency changes close the interval of the previous
 frequency, and when all samples are read the last interval of every CPU is closed. Every sample is
 timestamped and times are positive.
 */
module TimechartPower {

  const MAX_CPUS := 4096
  const MAX_FREQ := 8000000

  datatype Kind = CState | PState
  datatype PowerEvent = PowerEvent(kind: Kind, state: nat, start: nat, end: nat, cpu: nat)

  datatype What =
    | Frequency(cpu: nat, freq: nat)
    | IdleEnter(cpu: nat, state: nat)
    | IdleExit(cpu: nat)
    | Other
  datatype Sample = Sample(time: nat, what: What)

  /** The power events, oldest first, and for each CPU its current states and when they began. */
  datatype Power = Power(
    events: seq<PowerEvent>,
    pState: seq<nat>, pStart: seq<nat>, cState: seq<nat>, cStart: seq<nat>,
    first: nat, last: nat, minFreq: nat, maxFreq: nat, turbo: nat)

  function Zeros(): seq<nat> { seq(MAX_CPUS, _ => 0) }
  function Empty(): Power { Power([], Zeros(), Zeros(), Zeros(), Zeros(), 0, 0, 0, 0, 0) }

  predicate Sized(s: Power) {
    |s.pState| == |s.pStart| == |s.cState| == |s.cStart| == MAX_CPUS
  }

  predicate CpuOk(e: Sample) {
    match e.what
    case Frequency(cpu, _) => cpu < MAX_CPUS
    case IdleEnter(cpu, _) => cpu < MAX_CPUS
    case IdleExit(cpu) => cpu < MAX_CPUS
    case Other => true
  }

  /** First and last time of all samples. */
  function Seen(s: Power, time: nat): Power {
    s.(first := if s.first == 0 || s.first > time then time else s.first,
       last := if s.last < time then time else s.last)
  }

  /** Invalid frequencies are ignored. */
  function PStateChange(s: Power, cpu: nat, time: nat, freq: nat): Power
    requires Sized(s) && cpu < MAX_CPUS
  {
    if freq > MAX_FREQ then s
    else
      var max := if freq > s.maxFreq then freq else s.maxFreq;
      var start := if s.pStart[cpu] == 0 then s.first else s.pStart[cpu];
      s.(events := s.events + [PowerEvent(PState, s.pState[cpu], start, time, cpu)],
         pState := s.pState[cpu := freq], pStart := s.pStart[cpu := time],
         maxFreq := max,
         minFreq := if freq < s.minFreq || s.minFreq == 0 then freq else s.minFreq,
         turbo := if freq == max - 1000 then max else s.turbo)
  }

  function Step(s: Power, e: Sample): Power
    requires Sized(s) && CpuOk(e)
  {
    var t := Seen(s, e.time);
    match e.what
    case Frequency(cpu, freq) => PStateChange(t, cpu, e.time, freq)
    case IdleEnter(cpu, state) => t.(cStart := t.cStart[cpu := e.time], cState := t.cState[cpu := state])
    case IdleExit(cpu) => t.(events := t.events + [PowerEvent(CState, t.cState[cpu], t.cStart[cpu], e.time, cpu)])
    case Other => t
  }

  predicate CpusOk(trace: seq<Sample>) {
    forall e | e in trace :: CpuOk(e)
  }

  function Run(trace: seq<Sample>): (s: Power)
    requires CpusOk(trace)
    ensures Sized(s)
  {
    if trace == [] then Empty()
    else
      assert trace[|trace| - 1] in trace;
      Step(Run(trace[..|trace| - 1]), trace[|trace| - 1])
  }

  /** The interval left open on a CPU; a frequency of 0, or one never seen, is replaced by min_freq. */
  function Closing(s: Power, cpu: nat): PowerEvent
    requires Sized(s) && cpu < MAX_CPUS
  {
    PowerEvent(PState, if s.pState[cpu] == 0 then s.minFreq else s.pState[cpu],
               if s.pStart[cpu] == 0 then s.first else s.pStart[cpu], s.last, cpu)
  }

  /** The intervals of the CPUs below n are closed. */
  function Closed(s: Power, n: nat): seq<PowerEvent>
    requires Sized(s) && n <= MAX_CPUS
  {
    if n == 0 then s.events else Closed(s, n - 1) + [Closing(s, n - 1)]
  }

  // The frequency intervals of one CPU.

  function OfCpu(events: seq<PowerEvent>, cpu: nat): seq<PowerEvent> {
    if events == [] then []
    else
      var e := events[|events| - 1];
      OfCpu(events[..|events| - 1], cpu) + if e.kind.PState? && e.cpu == cpu then [e] else []
  }

  lemma OfCpuAppend(events: seq<PowerEvent>, e: PowerEvent, cpu: nat)
    ensures OfCpu(events + [e], cpu) == OfCpu(events, cpu) + if e.kind.PState? && e.cpu == cpu then [e] else []
  {
    assert (events + [e])[..|events|] == events;
  }

  datatype Change = Change(time: nat, freq: nat)

  /** The frequency changes of one CPU that were accepted. */
  function Changes(trace: seq<Sample>, cpu: nat): seq<Change> {
    if trace == [] then []
    else
      var e := trace[|trace| - 1];
      Changes(trace[..|trace| - 1], cpu) +
      if e.what.Frequency? && e.what.cpu == cpu && e.what.freq <= 8000000 then [Change(e.time, e.what.freq)] else []
  }

  function FreqAfter(cs: seq<Change>): nat { if cs == [] then 0 else cs[|cs| - 1].freq }
  function TimeAfter(first: nat, cs: seq<Change>): nat { if cs == [] then first else cs[|cs| - 1].time }

  /**
   Between the start of the trace and the last change: each interval has the frequency set at its start, 0
   before the first change.
   */
  function Intervals(first: nat, cs: seq<Change>, cpu: nat): seq<PowerEvent> {
    seq(|cs|, i requires 0 <= i < |cs| => PowerEvent(PState, FreqAfter(cs[..i]), TimeAfter(first, cs[..i]),
        cs[i].time, cpu))
  }

  predicate InOrder(trace: seq<Sample>) {
    && (forall i, j | 0 <= i < j < |trace| :: trace[i].time <= trace[j].time)
    && (forall i | 0 <= i < |trace| :: trace[i].time > 0)
  }

  function FirstTime(trace: seq<Sample>): nat { if trace == [] then 0 else trace[0].time }
  function LastTime(trace: seq<Sample>): nat { if trace == [] then 0 else trace[|trace| - 1].time }

  lemma InOrderBefore(trace: seq<Sample>)
    requires trace != [] && InOrder(trace)
    ensures InOrder(trace[..|trace| - 1])
    ensures |trace| > 1 ==> FirstTime(trace[..|trace| - 1]) == FirstTime(trace)
    ensures LastTime(trace[..|trace| - 1]) <= LastTime(trace) && LastTime(trace) > 0
    ensures 0 < FirstTime(trace) <= LastTime(trace)
  {
  }

  lemma {:induction false} TimesSeen(trace: seq<Sample>)
    requires CpusOk(trace) && InOrder(trace)
    ensures Run(trace).first == FirstTime(trace) && Run(trace).last == LastTime(trace)
  {
    hide PStateChange;
    if trace != [] {
      InOrderBefore(trace);
      TimesSeen(trace[..|trace| - 1]);
      var e := trace[|trace| - 1];
      assert e in trace;
      if e.what.Frequency? {
        ChangeKeepsTimes(Seen(Run(trace[..|trace| - 1]), e.time), e.what.cpu, e.time, e.what.freq);
      }
    }
  }

  /** In any order of samples first_time is the earliest time and last_time the latest. */
  lemma {:induction false} TimesBound(trace: seq<Sample>)
    requires CpusOk(trace) && forall i | 0 <= i < |trace| :: trace[i].time > 0
    ensures trace == [] ==> Run(trace).first == 0 && Run(trace).last == 0
    ensures forall i | 0 <= i < |trace| :: Run(trace).first <= trace[i].time <= Run(trace).last
    ensures trace != [] ==> exists i, j | 0 <= i < |trace| && 0 <= j < |trace| ::
              trace[i].time == Run(trace).first && trace[j].time == Run(trace).last
  {
    hide Step;
    if trace != [] {
      var before, e, n := trace[..|trace| - 1], trace[|trace| - 1], |trace| - 1;
      assert e in trace;
      TimesBound(before);
      var s := Run(before);
      StepTimes(s, e);
      if before == [] {
        assert trace[n].time == Run(trace).first && trace[n].time == Run(trace).last;
      } else {
        var i, j :| 0 <= i < n && 0 <= j < n && before[i].time == s.first && before[j].time == s.last;
        var i', j' := if s.first > e.time then n else i, if s.last < e.time then n else j;
        assert trace[i'].time == Run(trace).first && trace[j'].time == Run(trace).last;
      }
    }
  }

  lemma StepTimes(s: Power, e: Sample)
    requires Sized(s) && CpuOk(e)
    ensures Step(s, e).first == (if s.first == 0 || s.first > e.time then e.time else s.first)
    ensures Step(s, e).last == if s.last < e.time then e.time else s.last
  {
  }

  lemma ChangeKeepsTimes(s: Power, cpu: nat, time: nat, freq: nat)
    requires Sized(s) && cpu < MAX_CPUS
    ensures PStateChange(s, cpu, time, freq).first == s.first && PStateChange(s, cpu, time, freq).last == s.last
  {
  }

  predicate Within(cs: seq<Change>, first: nat, last: nat) {
    && (forall i | 0 <= i < |cs| :: 0 < cs[i].time && first <= cs[i].time <= last)
    && (forall i, j | 0 <= i < j < |cs| :: cs[i].time <= cs[j].time)
  }

  lemma {:induction false} ChangesInOrder(trace: seq<Sample>, cpu: nat)
    requires InOrder(trace)
    ensures Within(Changes(trace, cpu), FirstTime(trace), LastTime(trace))
  {
    if trace != [] {
      var before, e := trace[..|trace| - 1], trace[|trace| - 1];
      InOrderBefore(trace);
      ChangesInOrder(before, cpu);
    }
  }

  lemma IntervalsAppend(first: nat, cs: seq<Change>, c: Change, cpu: nat)
    ensures Intervals(first, cs + [c], cpu) ==
            Intervals(first, cs, cpu) + [PowerEvent(PState, FreqAfter(cs), TimeAfter(first, cs), c.time, cpu)]
  {
    var all := cs + [c];
    assert all[..|cs|] == cs;
    forall i | 0 <= i < |cs| ensures Intervals(first, all, cpu)[i] == Intervals(first, cs, cpu)[i] {
      assert all[..i] == cs[..i];
    }
  }

  /** While samples are read: the closed intervals, and where the open one began. */
  ghost predicate Tracks(trace: seq<Sample>, cpu: nat)
    requires CpusOk(trace) && cpu < MAX_CPUS
  {
    var s, cs := Run(trace), Changes(trace, cpu);
    && OfCpu(s.events, cpu) == Intervals(FirstTime(trace), cs, cpu)
    && s.pState[cpu] == FreqAfter(cs)
    && s.pStart[cpu] == TimeAfter(0, cs)
  }

  /** What one event does to what is recorded for a CPU. */
  lemma StepRecords(s: Power, e: Sample, cpu: nat)
    requires Sized(s) && CpuOk(e) && cpu < MAX_CPUS
    ensures var r := Step(s, e);
            if e.what.Frequency? && e.what.cpu == cpu && e.what.freq <= MAX_FREQ then
              && r.pState[cpu] == e.what.freq && r.pStart[cpu] == e.time
              && OfCpu(r.events, cpu) ==
                 OfCpu(s.events, cpu) +
                 [PowerEvent(PState, s.pState[cpu],
                             if s.pStart[cpu] == 0 then Seen(s, e.time).first else s.pStart[cpu], e.time, cpu)]
            else
              && r.pState[cpu] == s.pState[cpu] && r.pStart[cpu] == s.pStart[cpu]
              && OfCpu(r.events, cpu) == OfCpu(s.events, cpu)
  {
    hide OfCpu;
    var t := Seen(s, e.time);
    match e.what {
      case Frequency(c, freq) =>
        if freq <= MAX_FREQ {
          var start := if t.pStart[c] == 0 then t.first else t.pStart[c];
          OfCpuAppend(t.events, PowerEvent(PState, t.pState[c], start, e.time, c), cpu);
        }
      case IdleExit(c) =>
        OfCpuAppend(t.events, PowerEvent(CState, t.cState[c], t.cStart[c], e.time, c), cpu);
      case IdleEnter(c, state) =>
      case Other =>
    }
  }

  lemma NothingRecorded(cpu: nat)
    requires cpu < MAX_CPUS
    ensures Tracks([], cpu)
  {
    assert Intervals(0, [], cpu) == [];
  }

  lemma {:induction false} RunTracks(trace: seq<Sample>, cpu: nat)
    requires CpusOk(trace) && InOrder(trace) && cpu < MAX_CPUS
    ensures Tracks(trace, cpu)
  {
    hide Step, Intervals, OfCpu;
    if trace == [] {
      NothingRecorded(cpu);
    } else {
      var before, e := trace[..|trace| - 1], trace[|trace| - 1];
      assert e in trace;
      InOrderBefore(trace);
      RunTracks(before, cpu);
      TimesSeen(before);
      StepRecords(Run(before), e, cpu);
      var cs := Changes(before, cpu);
      ChangesInOrder(before, cpu);
      NoIntervals(FirstTime(before), FirstTime(trace), cpu);
      assert Seen(Run(before), e.time).first == FirstTime(trace);
      assert cs + [] == cs && (before == [] ==> cs == []);
      assert TimeAfter(0, cs) == 0 <==> cs == [];
      if e.what.Frequency? {
        IntervalsAppend(FirstTime(trace), cs, Change(e.time, e.what.freq), cpu);
      }
    }
  }

  lemma NoIntervals(a: nat, b: nat, cpu: nat)
    ensures Intervals(a, [], cpu) == Intervals(b, [], cpu) == []
  {
  }

  // Closing.

  lemma {:induction false} ClosedOfCpu(s: Power, n: nat, cpu: nat)
    requires Sized(s) && n <= MAX_CPUS && cpu < MAX_CPUS
    ensures OfCpu(Closed(s, n), cpu) == OfCpu(s.events, cpu) + if cpu < n then [Closing(s, cpu)] else []
  {
    hide OfCpu, Closing;
    if n > 0 {
      ClosedOfCpu(s, n - 1, cpu);
      ClosingIs(s, n - 1);
      OfCpuAppend(Closed(s, n - 1), Closing(s, n - 1), cpu);
    }
  }

  lemma ClosingIs(s: Power, cpu: nat)
    requires Sized(s) && cpu < MAX_CPUS
    ensures Closing(s, cpu).kind.PState? && Closing(s, cpu).cpu == cpu
  {
  }

  /** The frequency intervals drawn for a CPU, in order. */
  function Drawn(trace: seq<Sample>, numcpus: nat, cpu: nat): seq<PowerEvent>
    requires CpusOk(trace) && numcpus < MAX_CPUS
  {
    OfCpu(Closed(Run(trace), numcpus + 1), cpu)
  }

  /**
   They are exactly: one interval up to each accepted change with the frequency before it, and one from
   the last change to the end of the trace.
   */
  lemma DrawnIs(trace: seq<Sample>, numcpus: nat, cpu: nat)
    requires CpusOk(trace) && InOrder(trace) && cpu <= numcpus < MAX_CPUS
    ensures var cs := Changes(trace, cpu);
            Drawn(trace, numcpus, cpu) ==
            Intervals(FirstTime(trace), cs, cpu) +
            [PowerEvent(PState, if FreqAfter(cs) == 0 then Run(trace).minFreq else FreqAfter(cs),
                        TimeAfter(FirstTime(trace), cs), LastTime(trace), cpu)]
  {
    hide OfCpu, Intervals, Run, Changes, CpusOk, InOrder, FirstTime, LastTime, Closed;
    RunTracks(trace, cpu);
    TimesSeen(trace);
    ChangesInOrder(trace, cpu);
    ClosedOfCpu(Run(trace), numcpus + 1, cpu);
  }

  predicate Tiles(iv: seq<PowerEvent>, first: nat, last: nat) {
    && iv != [] && iv[0].start == first && iv[|iv| - 1].end == last
    && (forall i | 0 <= i < |iv| :: iv[i].start <= iv[i].end)
    && (forall i | 0 <= i < |iv| - 1 :: iv[i].end == iv[i + 1].start)
  }

  lemma IntervalsTile(first: nat, cs: seq<Change>, last: nat, e: PowerEvent, cpu: nat)
    requires Within(cs, first, last) && first <= last
    requires e.start == TimeAfter(first, cs) && e.end == last
    ensures Tiles(Intervals(first, cs, cpu) + [e], first, last)
  {
    var iv := Intervals(first, cs, cpu) + [e];
    assert cs[..0] == [] && cs[..|cs|] == cs;
    forall i | 0 <= i < |iv| ensures iv[i].start == if i == 0 then first else cs[i - 1].time {
      assert i > 0 ==> cs[..i][i - 1] == cs[i - 1];
    }
    forall i | 0 <= i < |iv| ensures iv[i].end == if i < |cs| then cs[i].time else last {
    }
  }

  /** For every CPU the intervals cover the trace from its first to its last sample without a gap or an overlap. */
  lemma PStatesTile(trace: seq<Sample>, numcpus: nat, cpu: nat)
    requires CpusOk(trace) && InOrder(trace) && cpu <= numcpus < MAX_CPUS
    ensures Tiles(Drawn(trace, numcpus, cpu), FirstTime(trace), LastTime(trace))
  {
    hide Drawn, Tiles, Intervals, Within;
    DrawnIs(trace, numcpus, cpu);
    ChangesInOrder(trace, cpu);
    if trace != [] { InOrderBefore(trace); }
    var first, cs, iv := FirstTime(trace), Changes(trace, cpu), Drawn(trace, numcpus, cpu);
    IntervalsTile(first, cs, LastTime(trace), iv[|iv| - 1], cpu);
  }

  /** Each interval has the frequency of the change it starts with, except that a final 0 becomes min_freq. */
  lemma FrequencyInForce(trace: seq<Sample>, numcpus: nat, cpu: nat, i: nat)
    requires CpusOk(trace) && InOrder(trace) && cpu <= numcpus < MAX_CPUS && i < |Changes(trace, cpu)|
    ensures var iv, c := Drawn(trace, numcpus, cpu), Changes(trace, cpu)[i];
            && |iv| == |Changes(trace, cpu)| + 1
            && iv[i].end == c.time == iv[i + 1].start
            && iv[i + 1].state == if c.freq == 0 && i + 1 == |iv| - 1 then Run(trace).minFreq else c.freq
  {
    hide Drawn, Run;
    DrawnIs(trace, numcpus, cpu);
    var cs := Changes(trace, cpu);
    assert cs[..i + 1][i] == cs[i];
  }

  // The frequencies seen.

  /** The frequencies accepted on any CPU, in order. */
  function Accepted(trace: seq<Sample>): seq<nat> {
    if trace == [] then []
    else
      var e := trace[|trace| - 1];
      Accepted(trace[..|trace| - 1]) + if e.what.Frequency? && e.what.freq <= 8000000 then [e.what.freq] else []
  }

  predicate IsMinimum(m: nat, fs: seq<nat>) {
    m in fs && forall f | f in fs :: m <= f
  }

  predicate IsMaximum(m: nat, fs: seq<nat>) {
    m in fs && forall f | f in fs :: f <= m
  }

  ghost predicate ExtremesOk(s: Power, fs: seq<nat>) {
    && (s.minFreq == 0 <==> fs == [] || fs[|fs| - 1] == 0)
    && (fs != [] && 0 !in fs ==> IsMinimum(s.minFreq, fs))
    && (if fs == [] then s.maxFreq == 0 else IsMaximum(s.maxFreq, fs))
  }

  lemma ChangeExtremes(s: Power, cpu: nat, time: nat, freq: nat, fs: seq<nat>)
    requires Sized(s) && cpu < MAX_CPUS && freq <= MAX_FREQ && ExtremesOk(s, fs)
    ensures ExtremesOk(PStateChange(s, cpu, time, freq), fs + [freq])
  {
    var t := PStateChange(s, cpu, time, freq);
    assert t.minFreq == if freq < s.minFreq || s.minFreq == 0 then freq else s.minFreq;
    assert t.maxFreq == if freq > s.maxFreq then freq else s.maxFreq;
  }

  lemma SameExtremes(s: Power, t: Power, fs: seq<nat>)
    requires ExtremesOk(s, fs) && t.minFreq == s.minFreq && t.maxFreq == s.maxFreq
    ensures ExtremesOk(t, fs)
  {
  }

  lemma {:induction false} RunExtremes(trace: seq<Sample>)
    requires CpusOk(trace)
    ensures ExtremesOk(Run(trace), Accepted(trace))
  {
    hide ExtremesOk, PStateChange;
    if trace == [] {
      NoExtremes();
    } else {
      var before, e := trace[..|trace| - 1], trace[|trace| - 1];
      assert e in trace;
      RunExtremes(before);
      var t := Seen(Run(before), e.time);
      SameExtremes(Run(before), t, Accepted(before));
      if e.what.Frequency? && e.what.freq <= MAX_FREQ {
        ChangeExtremes(t, e.what.cpu, e.time, e.what.freq, Accepted(before));
      } else {
        assert Accepted(before) + [] == Accepted(before);
        OtherwiseSame(t, e);
        SameExtremes(t, Run(trace), Accepted(before));
      }
    }
  }

  lemma NoExtremes()
    ensures ExtremesOk(Empty(), [])
  {
  }

  lemma OtherwiseSame(s: Power, e: Sample)
    requires Sized(s) && CpuOk(e) && !(e.what.Frequency? && e.what.freq <= MAX_FREQ)
    ensures Step(s, e).minFreq == s.minFreq && Step(s, e).maxFreq == s.maxFreq
  {
  }

  /**
   For every trace: among the accepted frequencies max_freq is the highest, and min_freq the lowest exactly
   if none of them is 0 or the last one is; a later change overwrites a minimum of 0.
   */
  lemma LowestExactly(trace: seq<Sample>)
    requires CpusOk(trace)
    ensures var s, fs := Run(trace), Accepted(trace);
            && (fs != [] ==> IsMaximum(s.maxFreq, fs))
            && (fs != [] ==> (IsMinimum(s.minFreq, fs) <==> 0 !in fs || fs[|fs| - 1] == 0))
            && (s.minFreq == 0 <==> fs == [] || fs[|fs| - 1] == 0)
  {
    hide Run, Accepted;
    RunExtremes(trace);
    var fs := Accepted(trace);
    if fs != [] { assert fs[|fs| - 1] in fs; }
  }

  lemma Longer(t: seq<Sample>, e: Sample)
    requires CpusOk(t) && CpuOk(e)
    ensures CpusOk(t + [e]) && Run(t + [e]) == Step(Run(t), e)
    ensures Accepted(t + [e]) ==
            Accepted(t) + if e.what.Frequency? && e.what.freq <= MAX_FREQ then [e.what.freq] else []
  {
    assert (t + [e])[..|t + [e]| - 1] == t;
  }

  /** 1000 on one CPU, 0 on another, then 5000 on the first: the interval left open at 0 is drawn as 5000. */
  lemma ZeroDrawnHigh(a: Sample, b: Sample, c: Sample)
    requires a == Sample(10, Frequency(0, 1000)) && b == Sample(20, Frequency(1, 0)) &&
        c == Sample(30, Frequency(0, 5000))
    ensures CpusOk([a] + [b] + [c]) && Accepted([a] + [b] + [c]) == [1000, 0, 5000]
    ensures Closing(Run([a] + [b] + [c]), 1) == PowerEvent(PState, 5000, 20, 30, 1)
  {
    hide Run, Accepted, Step;
    var none: seq<Sample> := [];
    assert none + [a] == [a];
    NothingAccepted();
    Longer(none, a);
    Longer([a], b);
    Longer([a] + [b], c);
    ThreeChanges(Empty(), a, b, c);
  }

  lemma NothingAccepted()
    ensures Accepted([]) == [] && Run([]) == Empty()
  {
  }

  lemma ThreeChanges(s: Power, a: Sample, b: Sample, c: Sample)
    requires s == Empty()
    requires a == Sample(10, Frequency(0, 1000)) && b == Sample(20, Frequency(1, 0)) &&
        c == Sample(30, Frequency(0, 5000))
    ensures Sized(Step(s, a)) && Sized(Step(Step(s, a), b)) && Sized(Step(Step(Step(s, a), b), c))
    ensures Closing(Step(Step(Step(s, a), b), c), 1) == PowerEvent(PState, 5000, 20, 30, 1)
  {
    var t := Step(s, a);
    assert t.minFreq == 1000 && t.pState[1] == 0 && t.pStart[1] == 0;
    var u := Step(t, b);
    assert u.minFreq == 0 && u.pState[1] == 0 && u.pStart[1] == 20;
  }

  // The turbo frequency.

  function Highest(fs: seq<nat>): nat {
    if fs == [] then 0
    else
      var h, f := Highest(fs[..|fs| - 1]), fs[|fs| - 1];
      if f > h then f else h
  }

  /** The highest frequency so far when one 1000 below it was last accepted. */
  function TurboOf(fs: seq<nat>): nat {
    if fs == [] then 0
    else if fs[|fs| - 1] + 1000 == Highest(fs) then Highest(fs)
    else TurboOf(fs[..|fs| - 1])
  }

  lemma {:induction false} TurboTold(trace: seq<Sample>)
    requires CpusOk(trace)
    ensures Run(trace).turbo == TurboOf(Accepted(trace)) && Run(trace).maxFreq == Highest(Accepted(trace))
  {
    hide Step;
    if trace != [] {
      var before, e := trace[..|trace| - 1], trace[|trace| - 1];
      assert e in trace;
      TurboTold(before);
      StepTurbo(Run(before), e);
      var fs := Accepted(trace);
      if e.what.Frequency? && e.what.freq <= 8000000 {
        assert fs[..|fs| - 1] == Accepted(before) && fs[|fs| - 1] == e.what.freq;
      } else {
        assert fs == Accepted(before);
      }
    }
  }

  lemma StepTurbo(s: Power, e: Sample)
    requires Sized(s) && CpuOk(e)
    ensures var t := Step(s, e);
            if e.what.Frequency? && e.what.freq <= 8000000 then
              && t.maxFreq == (if e.what.freq > s.maxFreq then e.what.freq else s.maxFreq)
              && t.turbo == if e.what.freq + 1000 == t.maxFreq then t.maxFreq else s.turbo
            else t.maxFreq == s.maxFreq && t.turbo == s.turbo
  {
  }

  // The idle intervals of one CPU.

  function Idle(events: seq<PowerEvent>, cpu: nat): seq<PowerEvent> {
    if events == [] then []
    else
      var e := events[|events| - 1];
      Idle(events[..|events| - 1], cpu) + if e.kind.CState? && e.cpu == cpu then [e] else []
  }

  lemma IdleAppend(events: seq<PowerEvent>, e: PowerEvent, cpu: nat)
    ensures Idle(events + [e], cpu) == Idle(events, cpu) + if e.kind.CState? && e.cpu == cpu then [e] else []
  {
    assert (events + [e])[..|events|] == events;
  }

  /** The state that the CPU last entered, and when. */
  function Entered(trace: seq<Sample>, cpu: nat): (nat, nat) {
    if trace == [] then (0, 0)
    else
      var e := trace[|trace| - 1];
      if e.what.IdleEnter? && e.what.cpu == cpu then (e.what.state, e.time) else Entered(trace[..|trace| - 1], cpu)
  }

  /** One interval for each exit, from the last entry. */
  function IdleIntervals(trace: seq<Sample>, cpu: nat): seq<PowerEvent> {
    if trace == [] then []
    else
      var before, e := trace[..|trace| - 1], trace[|trace| - 1];
      IdleIntervals(before, cpu) +
      if e.what == IdleExit(cpu) then [PowerEvent(CState, Entered(before, cpu).0, Entered(before, cpu).1, e.time, cpu)]
      else []
  }

  lemma StepIdle(s: Power, e: Sample, cpu: nat)
    requires Sized(s) && CpuOk(e) && cpu < MAX_CPUS
    ensures var r := Step(s, e);
            && (r.cState[cpu], r.cStart[cpu]) ==
               (if e.what.IdleEnter? && e.what.cpu == cpu then (e.what.state, e.time)
                   else (s.cState[cpu], s.cStart[cpu]))
            && Idle(r.events, cpu) ==
               Idle(s.events, cpu) +
               if e.what == IdleExit(cpu) then [PowerEvent(CState, s.cState[cpu], s.cStart[cpu], e.time, cpu)] else []
  {
    hide Idle;
    var t := Seen(s, e.time);
    match e.what {
      case Frequency(c, freq) =>
        if freq <= MAX_FREQ {
          var start := if t.pStart[c] == 0 then t.first else t.pStart[c];
          IdleAppend(t.events, PowerEvent(PState, t.pState[c], start, e.time, c), cpu);
        }
      case IdleExit(c) =>
        IdleAppend(t.events, PowerEvent(CState, t.cState[c], t.cStart[c], e.time, c), cpu);
      case IdleEnter(c, state) =>
      case Other =>
    }
  }

  lemma {:induction false} RunIdle(trace: seq<Sample>, cpu: nat)
    requires CpusOk(trace) && cpu < MAX_CPUS
    ensures Idle(Run(trace).events, cpu) == IdleIntervals(trace, cpu)
    ensures (Run(trace).cState[cpu], Run(trace).cStart[cpu]) == Entered(trace, cpu)
  {
    hide Step, Idle;
    if trace == [] {
      assert Idle([], cpu) == [] by { NeverIdle(cpu); }
    } else {
      var before, e := trace[..|trace| - 1], trace[|trace| - 1];
      assert e in trace;
      RunIdle(before, cpu);
      StepIdle(Run(before), e, cpu);
    }
  }

  lemma NeverIdle(cpu: nat)
    ensures Idle([], cpu) == []
  {
  }

  /** The idle intervals drawn are one for each exit of the trace; the final loop adds none. */
  lemma {:induction false} IdleDrawn(trace: seq<Sample>, n: nat, cpu: nat)
    requires CpusOk(trace) && cpu < MAX_CPUS && n <= MAX_CPUS
    ensures Idle(Closed(Run(trace), n), cpu) == IdleIntervals(trace, cpu)
    decreases n
  {
    hide Idle, Run, Closing, IdleIntervals;
    if n == 0 {
      RunIdle(trace, cpu);
    } else {
      IdleDrawn(trace, n - 1, cpu);
      ClosingIs(Run(trace), n - 1);
      IdleAppend(Closed(Run(trace), n - 1), Closing(Run(trace), n - 1), cpu);
    }
  }
}
