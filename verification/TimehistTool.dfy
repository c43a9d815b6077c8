/** The timehist handlers on the state they update: the runtimes and the growable array of per-CPU times. */
module TimehistTool {
  import opened RbTree
  import opened Timehist

  predicate PowerOfTwo(n: nat) {
    n == 1 || (n > 1 && n % 2 == 0 && PowerOfTwo(n / 2))
  }

  function Doubled(n: nat, p: nat): (r: nat)
    requires p >= 1 && PowerOfTwo(p) && (p < n || p < 2 * n)
    ensures PowerOfTwo(r) && n <= r < 2 * n
    decreases n - p
  {
    if p >= n then p else Doubled(n, 2 * p)
  }

  /** The smallest power of two that is at least n. */
  function RoundUpPowerOfTwo(n: nat): (r: nat)
    requires n > 0
    ensures PowerOfTwo(r) && n <= r < 2 * n
  {
    Doubled(n, 1)
  }

  /** When each CPU was last seen. */
  class LastTimes {
    var lastTime: array?<nat>
    var ncpu: nat

    ghost predicate Valid()
      reads this
    {
      if lastTime == null then ncpu == 0 else lastTime.Length == ncpu
    }

    /** A total map: 0 for a CPU the array does not reach. */
    ghost function At(cpu: nat): nat
      requires Valid()
      reads this, lastTime
    {
      if cpu < ncpu then lastTime[cpu] else 0
    }

    ghost function AsMap(): (m: map<nat, int>)
      requires Valid()
      reads this, lastTime
      ensures forall c: nat :: c in m <==> At(c) != 0
      ensures forall c: nat | c in m :: m[c] == At(c)
    {
      map c: nat | 0 <= c < ncpu && At(c) != 0 :: At(c)
    }

    constructor ()
      ensures Valid() && lastTime == null && forall c: nat :: At(c) == 0
    {
      lastTime, ncpu := null, 0;
    }

    method SaveTime(timestamp: nat, cpu: nat)
      requires Valid()
      modifies this, lastTime
      ensures Valid() && (lastTime == old(lastTime) || fresh(lastTime))
      ensures forall c: nat :: At(c) == if c == cpu then timestamp else old(At(c))
      ensures timestamp != 0 ==> AsMap() == old(AsMap())[cpu := timestamp]
      ensures ncpu == old(ncpu) || (PowerOfTwo(ncpu) && cpu < ncpu <= 2 * cpu + 1)
    {
      if cpu >= ncpu || lastTime == null {
        var n := RoundUpPowerOfTwo(cpu + 1);
        var p := new nat[n];
        for i := 0 to ncpu
          invariant Valid() && ncpu == old(ncpu) && lastTime == old(lastTime)
          invariant forall k | 0 <= k < i :: p[k] == old(At(k))
          invariant forall c: nat :: At(c) == old(At(c))
        {
          p[i] := lastTime[i];
        }
        for i := ncpu to n
          invariant ncpu == old(ncpu)
          invariant forall k | 0 <= k < i :: p[k] == old(At(k))
        {
          p[i] := 0;
        }
        lastTime, ncpu := p, n;
      }
      lastTime[cpu] := timestamp;
    }

    method GetTime(cpu: nat) returns (t: nat)
      requires Valid()
      ensures t == At(cpu) == Get(AsMap(), cpu, 0)
    {
      if lastTime == null || cpu >= ncpu {
        return 0;
      }
      return lastTime[cpu];
    }
  }

  method UpdateRuntimeStats(r0: Runtime, t: int, tprev: int) returns (r: Runtime)
    ensures r == UpdateStats(r0, t, tprev)
  {
    r := r0.(dtDelay := 0, dtSleep := 0, dtIowait := 0, dtPreempt := 0, dtRun := 0);
    if tprev != 0 {
      r := r.(dtRun := t - tprev);
      if r.ready != 0 && r.ready <= tprev {
        r := r.(dtDelay := tprev - r.ready);
      }
      if r.lastTime <= tprev && r.lastTime != 0 {
        var wait := tprev - r.lastTime;
        if r.lastState == TASK_RUNNING {
          r := r.(dtPreempt := wait);
        } else if r.lastState == TASK_UNINTERRUPTIBLE {
          r := r.(dtIowait := wait);
        } else {
          r := r.(dtSleep := wait);
        }
      }
    }
    r := r.(runs := r.runs + 1, totalRun := r.totalRun + r.dtRun, totalDelay := r.totalDelay + r.dtDelay);
    r := r.(totalSleep := r.totalSleep + r.dtSleep, totalIowait := r.totalIowait + r.dtIowait,
            totalPreempt := r.totalPreempt + r.dtPreempt);
  }

  class TimehistState {
    const window: Window
    const last: LastTimes
    var threads: map<Who, Runtime>
    var histStart: int
    var histEnd: int

    ghost predicate Valid()
      reads this, last
    {
      last.Valid()
    }

    ghost function State(): Hist
      requires Valid()
      reads this, last, last.lastTime
    {
      Hist(threads, last.AsMap(), histStart, histEnd)
    }

    constructor (w: Window)
      ensures Valid() && fresh(last) && last.lastTime == null && State() == Empty() && window == w
    {
      window := w;
      last := new LastTimes();
      threads, histStart, histEnd := map[], 0, 0;
    }

    /** The account of the thread and the time that bounds the history. */
    method AccountSample(tr: Runtime, tprev0: nat, time: nat) returns (r: Runtime, t: nat)
      ensures r == Account(window, tr, tprev0, time) && t == HistTime(window, tprev0, time)
    {
      hide UpdateStats;
      r, t := tr, time;
      var tprev := tprev0;
      if window.start != 0 && window.start > t {
        return;
      }
      if tprev != 0 && window.start > tprev {
        tprev := window.start;
      }
      if window.end != 0 {
        if tprev > window.end {
          return;
        }
        if t > window.end {
          t := window.end;
        }
      }
      r := UpdateRuntimeStats(tr, t, tprev);
    }

    /** What is kept of every sample, counted or not. */
    method SwitchedOut(e: Event, who: Who, tr: Runtime, t: nat)
      requires e.Switch?
      modifies this
      ensures threads == old(threads)[who := SchedOut(tr, e)]
      ensures histStart == if old(histStart) == 0 && t >= window.start then t else old(histStart)
      ensures histEnd == if window.end == 0 || t <= window.end then t else old(histEnd)
    {
      if histStart == 0 && t >= window.start {
        histStart := t;
      }
      if window.end == 0 || t <= window.end {
        histEnd := t;
      }
      threads := threads[who := tr.(lastTime := e.time, lastState := e.state, ready := 0)];
    }

    method SchedChangeEvent(e: Event)
      requires Valid() && e.Switch? && e.time > 0
      modifies this, last, last.lastTime
      ensures Valid() && (last.lastTime == old(last.lastTime) || fresh(last.lastTime))
      ensures State() == Change(window, old(State()), e)
    {
      hide Account, HistTime, SchedOut, ThreadOf, LastTimes.AsMap, LastTimes.At;
      ghost var s := State();
      var who := ThreadOf(e);
      var tr := Get(threads, who, Zero());
      var tprev := last.GetTime(e.cpu);
      var t;
      tr, t := AccountSample(tr, tprev, e.time);
      SwitchedOut(e, who, tr, t);
      last.SaveTime(e.time, e.cpu);
    }

    method SchedWakeupEvent(e: Event)
      requires Valid() && e.Wakeup?
      modifies this
      ensures Valid() && State() == Wake(old(State()), e)
    {
      var tr := Get(threads, Task(e.pid), Zero());
      if tr.ready == 0 {
        tr := tr.(ready := e.time);
      }
      threads := threads[Task(e.pid) := tr];
    }
  }
}
