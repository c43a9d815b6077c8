/** The power handlers of timechart on the per-CPU arrays they change. */
module TimechartPowerTool {
  import opened TimechartPower

  class PowerChart {
    const pStates: array<nat>
    const pStarts: array<nat>
    const cStates: array<nat>
    const cStarts: array<nat>
    const numcpus: nat
    var powerEvents: seq<PowerEvent>
    var firstTime: nat
    var lastTime: nat
    var minFreq: nat
    var maxFreq: nat
    var turboFrequency: nat

    ghost predicate Valid() {
      && pStates.Length == pStarts.Length == cStates.Length == cStarts.Length == MAX_CPUS
      && pStates != pStarts && cStates != cStarts
      && pStates != cStates && pStates != cStarts && pStarts != cStates && pStarts != cStarts
    }

    ghost function State(): (s: Power)
      requires Valid()
      reads this, pStates, pStarts, cStates, cStarts
      ensures Sized(s)
    {
      Power(powerEvents, pStates[..], pStarts[..], cStates[..], cStarts[..], firstTime, lastTime, minFreq, maxFreq,
          turboFrequency)
    }

    constructor (numcpus: nat)
      ensures Valid() && fresh(pStates) && fresh(pStarts) && fresh(cStates) && fresh(cStarts)
      ensures State() == Empty() && this.numcpus == numcpus
    {
      pStates := new nat[MAX_CPUS](_ => 0);
      pStarts := new nat[MAX_CPUS](_ => 0);
      cStates := new nat[MAX_CPUS](_ => 0);
      cStarts := new nat[MAX_CPUS](_ => 0);
      this.numcpus := numcpus;
      powerEvents := [];
      firstTime, lastTime, minFreq, maxFreq, turboFrequency := 0, 0, 0, 0, 0;
      new;
      assert pStates[..] == Zeros() && pStarts[..] == Zeros() && cStates[..] == Zeros() && cStarts[..] == Zeros();
    }

    method ChangePState(cpu: nat, timestamp: nat, newFreq: nat)
      requires Valid() && cpu < MAX_CPUS
      modifies this, pStates, pStarts
      ensures State() == PStateChange(old(State()), cpu, timestamp, newFreq)
    {
      if newFreq > MAX_FREQ {
        return;
      }
      var pwr := PowerEvent(PState, pStates[cpu], pStarts[cpu], timestamp, cpu);
      if pwr.start == 0 {
        pwr := pwr.(start := firstTime);
      }
      powerEvents := powerEvents + [pwr];
      pStates[cpu] := newFreq;
      pStarts[cpu] := timestamp;
      if newFreq > maxFreq {
        maxFreq := newFreq;
      }
      if newFreq < minFreq || minFreq == 0 {
        minFreq := newFreq;
      }
      if newFreq == maxFreq - 1000 {
        turboFrequency := maxFreq;
      }
    }

    method ProcessSampleEvent(e: Sample)
      requires Valid() && CpuOk(e)
      modifies this, pStates, pStarts, cStates, cStarts
      ensures State() == Step(old(State()), e)
    {
      hide PStateChange;
      if firstTime == 0 || firstTime > e.time {
        firstTime := e.time;
      }
      if lastTime < e.time {
        lastTime := e.time;
      }
      assert State() == Seen(old(State()), e.time);
      match e.what {
        case Frequency(cpu, freq) =>
          ChangePState(cpu, e.time, freq);
        case IdleEnter(cpu, state) =>
          cStarts[cpu] := e.time;
          cStates[cpu] := state;
        case IdleExit(cpu) =>
          powerEvents := powerEvents + [PowerEvent(CState, cStates[cpu], cStarts[cpu], e.time, cpu)];
        case Other =>
      }
    }

    /** Close the last interval of every CPU up to and including numcpus. */
    method EndSampleProcessing()
      requires Valid() && numcpus < MAX_CPUS
      modifies `powerEvents
      ensures powerEvents == Closed(old(State()), numcpus + 1)
    {
      for cpu := 0 to numcpus + 1
        invariant powerEvents == Closed(old(State()), cpu)
      {
        var pwr := PowerEvent(PState, pStates[cpu], pStarts[cpu], lastTime, cpu);
        if pwr.start == 0 {
          pwr := pwr.(start := firstTime);
        }
        if pwr.state == 0 {
          pwr := pwr.(state := minFreq);
        }
        powerEvents := powerEvents + [pwr];
      }
    }
  }
}
