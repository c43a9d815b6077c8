/**
 What the builder makes of a trace, told from the events alone: the task of each pid, the atoms of each
 task, and which wakeups are linked to which sleeps. The cross-task wakeups are wakeup events as well.
 */
module ReplayTrace {
  import opened Options
  import opened ReplayProgram
  import opened ReplayBuild
  import opened ReplayTotals

  // The reference.

  /** A switch takes effect on one of the 4096 CPUs, if it is not before a switch seen there. */
  predicate Accepts(before: seq<Event>, e: Event) {
    e.SwitchEvent? && 0 <= e.cpu < 4096 && LatestSwitch(before, e.cpu) <= e.time
  }

  /** Two tasks, and the names they get if they are new. */
  datatype Pair = Pair(pid: nat, comm: string, pid': nat, comm': string)

  /** The tasks that an event names, in this order. */
  function NamedBy(before: seq<Event>, e: Event): Option<Pair> {
    match e
    case WakeupEvent(_, tid, pid, comm) => Some(Pair(tid, "<unknown>", pid, comm))
    case SwitchEvent(_, _, prevPid, prevComm, nextPid, nextComm) =>
      if Accepts(before, e) then Some(Pair(prevPid, prevComm, nextPid, nextComm)) else None
    case ForkEvent(ptid, pcomm, ctid, ccomm) => Some(Pair(ptid, pcomm, ctid, ccomm))
  }

  predicate Names(before: seq<Event>, e: Event, pid: nat) {
    var p := NamedBy(before, e);
    p.Some? && (p.value.pid == pid || p.value.pid' == pid)
  }

  function Number(m: map<nat, nat>, pid: nat): map<nat, nat> {
    if pid in m then m else m[pid := |m|]
  }

  /** Tasks are numbered in the order in which they are first named. */
  function Numbers(trace: seq<Event>): map<nat, nat> {
    if trace == [] then map[]
    else
      var before, e := trace[..|trace| - 1], trace[|trace| - 1];
      match NamedBy(before, e)
      case None => Numbers(before)
      case Some(p) => Number(Number(Numbers(before), p.pid), p.pid')
  }

  function NumberOf(trace: seq<Event>, pid: nat): nat {
    if pid in Numbers(trace) then Numbers(trace)[pid] else 0
  }

  function Plain(kind: Kind, time: nat, duration: nat, nr: nat, wakee: Option<nat>): Atom {
    Atom(kind, time, duration, nr, None, false, wakee)
  }

  /** Every task starts out asleep. */
  function Begun(story: seq<Atom>): seq<Atom> {
    if story == [] then [Plain(Sleep, 0, 0, 0, None)] else story
  }

  /** How long whoever is switched away from ran; not known at the first switch of a CPU. */
  function Ran(before: seq<Event>, e: Event): nat
    requires Accepts(before, e)
  {
    if LatestSwitch(before, e.cpu) == 0 then 0 else e.time - LatestSwitch(before, e.cpu)
  }

  /** What a task does by an event: it wakes another, or it ran and goes to sleep. */
  function Does(before: seq<Event>, e: Event, pid: nat, nr: nat): seq<Atom> {
    if e.WakeupEvent? && e.tid == pid then
      [Plain(Wakeup, e.time, 0, nr, Some(NumberOf(before + [e], e.pid)))]
    else if Accepts(before, e) && e.prevPid == pid then
      [Plain(Run, e.time, Ran(before, e), nr, None), Plain(Sleep, e.time, 0, nr + 1, None)]
    else []
  }

  /** The atoms of a task, without their semaphores. */
  function Story(trace: seq<Event>, pid: nat): seq<Atom> {
    if trace == [] then []
    else
      var before, e := trace[..|trace| - 1], trace[|trace| - 1];
      var story := Story(before, pid);
      if Names(before, e, pid) then Begun(story) + Does(before, e, pid, |Begun(story)|) else story
  }

  /** Atom `slept` of task `sleeper` waits for atom `woke` of task `waker`. */
  datatype Link = Link(sleeper: nat, slept: nat, waker: nat, woke: nat)

  predicate Touches(l: Link, pid: nat, i: nat) {
    (l.sleeper == pid && l.slept == i) || (l.waker == pid && l.woke == i)
  }

  /** The semaphore of an atom: the number of the link it is in. */
  function SemAt(links: seq<Link>, pid: nat, i: nat): Option<nat> {
    if links == [] then None
    else if Touches(links[|links| - 1], pid, i) then Some(|links| - 1)
    else SemAt(links[..|links| - 1], pid, i)
  }

  datatype Outcome = Linked | Targetless | Multitarget

  /** A wakeup links unless the wakee is the waker, did something since it went to sleep, or was woken already. */
  function OutcomeOf(links: seq<Link>, story: seq<Atom>, e: Event): Outcome
    requires e.WakeupEvent? && story != []
  {
    var last := |story| - 1;
    if e.tid == e.pid || story[last].kind != Sleep then Targetless
    else if SemAt(links, e.pid, last) != None then Multitarget
    else Linked
  }

  function Links(trace: seq<Event>): seq<Link> {
    if trace == [] then []
    else
      var before, e := trace[..|trace| - 1], trace[|trace| - 1];
      var links := Links(before);
      if e.WakeupEvent? && OutcomeOf(links, Begun(Story(before, e.pid)), e).Linked? then
        links + [Link(e.pid, |Begun(Story(before, e.pid))| - 1, e.tid, |Begun(Story(before, e.tid))|)]
      else links
  }

  predicate Ends(before: seq<Event>, e: Event, o: Outcome) {
    e.WakeupEvent? && OutcomeOf(Links(before), Begun(Story(before, e.pid)), e) == o
  }

  /** How many wakeups of the trace have this outcome. */
  function Count(trace: seq<Event>, o: Outcome): nat {
    if trace == [] then 0
    else
      var before, e := trace[..|trace| - 1], trace[|trace| - 1];
      Count(before, o) + if Ends(before, e, o) then 1 else 0
  }

  function Switches(trace: seq<Event>): nat {
    if trace == [] then 0
    else
      Switches(trace[..|trace| - 1]) + if Accepts(trace[..|trace| - 1], trace[|trace| - 1]) then 1 else 0
  }

  /** The name under which a task was first seen. */
  function CommOf(trace: seq<Event>, pid: nat): string {
    if trace == [] then ""
    else
      var before, e := trace[..|trace| - 1], trace[|trace| - 1];
      if pid in Numbers(before) || !Names(before, e, pid) then CommOf(before, pid)
      else if NamedBy(before, e).value.pid == pid then NamedBy(before, e).value.comm
      else NamedBy(before, e).value.comm'
  }

  // The builder's state, read by pid.

  ghost predicate Good(b: Build) {
    Valid(b) && PidsOk(b) && |b.tasks| == |b.pids|
  }

  ghost function AtomsIn(b: Build, pid: nat): seq<Atom>
    requires Good(b)
  {
    if pid in b.pids then b.tasks[b.pids[pid]].atoms else []
  }

  ghost function CommIn(b: Build, pid: nat): string
    requires Good(b)
  {
    if pid in b.pids then b.tasks[b.pids[pid]].comm else ""
  }

  lemma RegisterGood(b: Build, pid: nat, comm: string)
    requires Good(b)
    ensures var r := Register(b, pid, comm);
            && Good(r) && r.pids == Number(b.pids, pid) && pid in r.pids
            && r == b.(tasks := r.tasks, pids := r.pids, nrSleeps := r.nrSleeps)
            && r.nrSleeps - b.nrSleeps == |r.pids| - |b.pids|
  {
  }

  lemma RegisterReads(b: Build, pid: nat, comm: string, q: nat)
    requires Good(b) && Good(Register(b, pid, comm))
    ensures var r, first := Register(b, pid, comm), q == pid && q !in b.pids;
            && AtomsIn(r, q) == (if first then Begun([]) else AtomsIn(b, q))
            && CommIn(r, q) == (if first then comm else CommIn(b, q))
  {
  }

  ghost predicate LinksNow(b: Build, waker: nat, wakee: nat)
    requires Valid(b) && wakee < |b.tasks|
  {
    var atoms := b.tasks[wakee].atoms;
    waker != wakee && atoms[|atoms| - 1].kind == Sleep && atoms[|atoms| - 1].sem == None
  }

  /** The atom a wakeup appends, and the SLEEP it is linked to. */
  function Waking(b: Build, waker: nat, time: nat, wakee: nat, sem: Option<nat>): Atom
    requires waker < |b.tasks|
  {
    Atom(Wakeup, time, 0, |b.tasks[waker].atoms|, sem, false, Some(wakee))
  }

  function Awaited(atoms: seq<Atom>, sem: Option<nat>): seq<Atom>
    requires atoms != []
  {
    atoms[|atoms| - 1 := atoms[|atoms| - 1].(sem := sem, specificWait := true)]
  }

  lemma WakeupAt(b: Build, waker: nat, time: nat, wakee: nat, t: nat)
    requires Valid(b) && waker < |b.tasks| && wakee < |b.tasks| && t < |b.tasks|
    ensures var r := AddWakeup(b, waker, time, wakee);
            var sem := if LinksNow(b, waker, wakee) then Some(b.nrWakeups) else None;
            && |r.tasks| == |b.tasks| && r.pids == b.pids && r.lastSwitched == b.lastSwitched
            && r.tasks[t] == b.tasks[t].(atoms :=
                 if t == waker then b.tasks[t].atoms + [Waking(b, waker, time, wakee, sem)]
                 else if t == wakee && sem.Some? then Awaited(b.tasks[t].atoms, sem)
                 else b.tasks[t].atoms)
  {
  }

  lemma WakeupCounts(b: Build, waker: nat, time: nat, wakee: nat)
    requires Valid(b) && waker < |b.tasks| && wakee < |b.tasks|
    ensures var r, atoms := AddWakeup(b, waker, time, wakee), b.tasks[wakee].atoms;
            var targetless := waker == wakee || atoms[|atoms| - 1].kind != Sleep;
            && r.nrWakeups == b.nrWakeups + (if LinksNow(b, waker, wakee) then 1 else 0)
            && r.targetless == b.targetless + (if targetless then 1 else 0)
            && r.multitarget == b.multitarget + (if !targetless && !LinksNow(b, waker, wakee) then 1 else 0)
            && r.nrRuns == b.nrRuns && r.nrSleeps == b.nrSleeps
  {
  }

  lemma WakeupGood(b: Build, waker: nat, time: nat, wakee: nat)
    requires Good(b) && waker < |b.tasks| && wakee < |b.tasks|
    ensures var r := AddWakeup(b, waker, time, wakee);
            Good(r) && r.pids == b.pids
  {
    hide AddWakeup;
    WakeupKeeps(b, waker, time, wakee);
    WakeupAt(b, waker, time, wakee, waker);
    var r := AddWakeup(b, waker, time, wakee);
    forall t: nat | t < |b.tasks| ensures r.tasks[t].pid == b.tasks[t].pid {
      WakeupAt(b, waker, time, wakee, t);
    }
  }

  lemma WakeupReads(b: Build, tid: nat, pid: nat, time: nat, q: nat)
    requires Good(b) && tid in b.pids && pid in b.pids && Good(AddWakeup(b, b.pids[tid], time, b.pids[pid]))
    ensures var waker, wakee := b.pids[tid], b.pids[pid];
            var sem := if LinksNow(b, waker, wakee) then Some(b.nrWakeups) else None;
            var r := AddWakeup(b, waker, time, wakee);
            && CommIn(r, q) == CommIn(b, q)
            && AtomsIn(r, q) ==
               (if q == tid then AtomsIn(b, q) + [Waking(b, waker, time, wakee, sem)]
                else if q == pid && sem.Some? then Awaited(AtomsIn(b, q), sem)
                else AtomsIn(b, q))
  {
    hide AddWakeup, Waking, Awaited, LinksNow;
    WakeupAt(b, b.pids[tid], time, b.pids[pid], b.pids[tid]);
    if q in b.pids { WakeupAt(b, b.pids[tid], time, b.pids[pid], b.pids[q]); }
  }

  lemma SwitchGood(b: Build, t: nat, time: nat, delta: nat)
    requires Good(b) && NoRunLast(b) && t < |b.tasks|
    ensures var r, n := AddSwitch(b, t, time, delta), |b.tasks[t].atoms|;
            && Good(r) && NoRunLast(r)
            && r == b.(tasks := b.tasks[t := b.tasks[t].(atoms := b.tasks[t].atoms +
                 [Plain(Run, time, delta, n, None), Plain(Sleep, time, 0, n + 1, None)])],
                 nrRuns := b.nrRuns + 1, nrSleeps := b.nrSleeps + 1)
  {
    var a, c := Plain(Run, time, delta, |b.tasks[t].atoms|, None),
      Plain(Sleep, time, 0, |b.tasks[t].atoms| + 1, None);
    assert b.tasks[t].atoms + [a] + [c] == b.tasks[t].atoms + [a, c];
  }

  // Atoms and their semaphores.

  function Dress(a: Atom, sem: Option<nat>): Atom {
    a.(sem := sem, specificWait := a.kind == Sleep && sem != None)
  }

  /** The atoms are those of the story, with the semaphores of the links; no link is beyond them. */
  ghost predicate Told(atoms: seq<Atom>, story: seq<Atom>, links: seq<Link>, pid: nat) {
    && |atoms| == |story|
    && (forall i: nat | i < |story| :: atoms[i] == Dress(story[i], SemAt(links, pid, i)))
    && (forall i: nat | i >= |story| :: SemAt(links, pid, i) == None)
  }

  lemma SemMore(links: seq<Link>, l: Link, pid: nat, i: nat)
    ensures SemAt(links + [l], pid, i) == if Touches(l, pid, i) then Some(|links|) else SemAt(links, pid, i)
  {
    assert (links + [l])[..|links + [l]| - 1] == links;
  }

  lemma BegunTold(atoms: seq<Atom>, story: seq<Atom>, links: seq<Link>, pid: nat)
    requires Told(atoms, story, links, pid)
    ensures Told(Begun(atoms), Begun(story), links, pid)
  {
  }

  lemma MoreTold(atoms: seq<Atom>, story: seq<Atom>, links: seq<Link>, pid: nat, more: seq<Atom>)
    requires Told(atoms, story, links, pid) && forall a | a in more :: a.sem == None && !a.specificWait
    ensures Told(atoms + more, story + more, links, pid)
  {
  }

  lemma OtherTold(atoms: seq<Atom>, story: seq<Atom>, links: seq<Link>, pid: nat, l: Link)
    requires Told(atoms, story, links, pid) && l.sleeper != pid && l.waker != pid
    ensures Told(atoms, story, links + [l], pid)
  {
    hide SemAt;
    forall i: nat ensures SemAt(links + [l], pid, i) == SemAt(links, pid, i) { SemMore(links, l, pid, i); }
  }

  lemma WakerTold(atoms: seq<Atom>, story: seq<Atom>, links: seq<Link>, pid: nat, l: Link, a: Atom)
    requires Told(atoms, story, links, pid) && l.waker == pid && l.woke == |story| && l.sleeper != pid
    requires a.kind == Wakeup && a.sem == None && !a.specificWait
    ensures Told(atoms + [a.(sem := Some(|links|))], story + [a], links + [l], pid)
  {
    hide SemAt;
    forall i: nat ensures SemAt(links + [l], pid, i) == if i == |story| then Some(|links|) else SemAt(links, pid, i) {
      SemMore(links, l, pid, i);
    }
  }

  lemma SleeperTold(atoms: seq<Atom>, story: seq<Atom>, links: seq<Link>, pid: nat, l: Link)
    requires Told(atoms, story, links, pid) && story != [] && story[|story| - 1].kind == Sleep
    requires l.sleeper == pid && l.slept == |story| - 1 && l.waker != pid
    ensures Told(Awaited(atoms, Some(|links|)), story, links + [l], pid)
  {
    hide SemAt;
    var last := |story| - 1;
    forall i: nat ensures SemAt(links + [l], pid, i) == if i == last then Some(|links|) else SemAt(links, pid, i) {
      SemMore(links, l, pid, i);
    }
  }

  // One event after another.

  ghost predicate ToldOf(trace: seq<Event>, b: Build, pid: nat)
    requires Good(b)
  {
    Told(AtomsIn(b, pid), Story(trace, pid), Links(trace), pid) && CommIn(b, pid) == CommOf(trace, pid)
  }

  ghost predicate Counted(trace: seq<Event>, b: Build) {
    && b.nrWakeups == |Links(trace)| == Count(trace, Linked)
    && b.targetless == Count(trace, Targetless) && b.multitarget == Count(trace, Multitarget)
    && b.nrRuns == Switches(trace) && b.nrSleeps == |Numbers(trace)| + Switches(trace) && b.nrOptimized == 0
  }

  ghost predicate Follows(trace: seq<Event>, b: Build) {
    && Good(b) && NoRunLast(b) && b.pids == Numbers(trace)
    && (forall pid: nat :: ToldOf(trace, b, pid))
    && Counted(trace, b)
  }

  /** Both tasks of an event, registered. */
  ghost function Registered(b: Build, p: Pair): Build {
    Register(Register(b, p.pid, p.comm), p.pid', p.comm')
  }

  lemma RegisteredGood(b: Build, p: Pair)
    requires Good(b) && NoRunLast(b)
    ensures var r := Registered(b, p);
            && Good(r) && NoRunLast(r) && r.pids == Number(Number(b.pids, p.pid), p.pid')
            && p.pid in r.pids && p.pid' in r.pids
            && r == b.(tasks := r.tasks, pids := r.pids, nrSleeps := r.nrSleeps)
            && r.nrSleeps - b.nrSleeps == |r.pids| - |b.pids|
  {
    hide Register;
    RegisterGood(b, p.pid, p.comm);
    RegisterKeeps(b, p.pid, p.comm);
    RegisterGood(Register(b, p.pid, p.comm), p.pid', p.comm');
    RegisterKeeps(Register(b, p.pid, p.comm), p.pid', p.comm');
  }

  lemma RegisteredReads(b: Build, p: Pair, q: nat)
    requires Good(b) && Good(Register(b, p.pid, p.comm)) && Good(Registered(b, p))
    ensures var r, named := Registered(b, p), q == p.pid || q == p.pid';
            && AtomsIn(r, q) == (if named then Begun(AtomsIn(b, q)) else AtomsIn(b, q))
            && CommIn(r, q) == (if !named || q in b.pids then CommIn(b, q) else if q == p.pid then p.comm else p.comm')
  {
    hide Register;
    RegisterGood(b, p.pid, p.comm);
    RegisterReads(b, p.pid, p.comm, q);
    RegisterReads(Register(b, p.pid, p.comm), p.pid', p.comm', q);
  }

  /** The atoms that a task has once it is registered by the event. */
  function Known(before: seq<Event>, e: Event, pid: nat): seq<Atom> {
    if Names(before, e, pid) then Begun(Story(before, pid)) else Story(before, pid)
  }

  lemma RegisteredTold(before: seq<Event>, e: Event, b: Build, q: nat)
    requires Follows(before, b) && NamedBy(before, e).Some?
    requires Good(Registered(b, NamedBy(before, e).value))
    ensures var r := Registered(b, NamedBy(before, e).value);
            && Told(AtomsIn(r, q), Known(before, e, q), Links(before), q)
            && CommIn(r, q) == CommOf(before + [e], q)
  {
    hide Registered, Told, Counted, Story, Links;
    var p := NamedBy(before, e).value;
    assert (before + [e])[..|before + [e]| - 1] == before;
    RegisterGood(b, p.pid, p.comm);
    RegisteredReads(b, p, q);
    assert ToldOf(before, b, q);
    BegunTold(AtomsIn(b, q), Story(before, q), Links(before), q);
  }

  lemma OneMore(before: seq<Event>, e: Event, q: nat)
    ensures var trace := before + [e];
            && Story(trace, q) == Known(before, e, q) + Does(before, e, q, |Known(before, e, q)|)
            && Links(trace) ==
               Links(before) +
               (if Ends(before, e, Linked)
                then [Link(e.pid, |Known(before, e, e.pid)| - 1, e.tid, |Known(before, e, e.tid)|)] else [])
            && Numbers(trace) ==
               (match NamedBy(before, e)
                case None => Numbers(before)
                case Some(p) => Number(Number(Numbers(before), p.pid), p.pid'))
            && Switches(trace) == Switches(before) + (if Accepts(before, e) then 1 else 0)
            && (forall o :: Count(trace, o) == Count(before, o) + if Ends(before, e, o) then 1 else 0)
  {
    hide OutcomeOf, Number, SemAt;
    assert (before + [e])[..|before + [e]| - 1] == before;
  }

  /** The builder links, or counts the wakeup otherwise, as the trace says. */
  lemma OutcomeIs(before: seq<Event>, e: Event, b: Build)
    requires Follows(before, b) && e.WakeupEvent? && Good(Registered(b, NamedBy(before, e).value))
    ensures var r := Registered(b, NamedBy(before, e).value);
            && e.tid in r.pids && e.pid in r.pids
            && var waker, wakee, atoms := r.pids[e.tid], r.pids[e.pid], AtomsIn(r, e.pid);
               && (LinksNow(r, waker, wakee) <==> Ends(before, e, Linked))
               && (waker == wakee || atoms[|atoms| - 1].kind != Sleep <==> Ends(before, e, Targetless))
  {
    hide Registered, Story, Links, OutcomeOf, AtomsIn, Told, ToldOf, Counted, LinksNow, CommIn, CommOf;
    var p := NamedBy(before, e).value;
    RegisteredGood(b, p);
    RegisteredTold(before, e, b, e.pid);
    var r := Registered(b, p);
    OutcomeTold(r, Begun(Story(before, e.pid)), Links(before), e);
  }

  lemma OutcomeTold(b: Build, story: seq<Atom>, links: seq<Link>, e: Event)
    requires Good(b) && e.WakeupEvent? && e.tid in b.pids && e.pid in b.pids && story != []
    requires Told(AtomsIn(b, e.pid), story, links, e.pid)
    ensures var waker, wakee, atoms := b.pids[e.tid], b.pids[e.pid], AtomsIn(b, e.pid);
            && (LinksNow(b, waker, wakee) <==> OutcomeOf(links, story, e).Linked?)
            && (waker == wakee || atoms[|atoms| - 1].kind != Sleep <==> OutcomeOf(links, story, e).Targetless?)
  {
    hide AtomsIn, SemAt;
    SameTask(b, e.tid, e.pid);
  }

  lemma SameTask(b: Build, p: nat, q: nat)
    requires Good(b) && p in b.pids && q in b.pids
    ensures b.pids[p] == b.pids[q] <==> p == q
    ensures AtomsIn(b, p) == b.tasks[b.pids[p]].atoms != [] && AtomsIn(b, q) == b.tasks[b.pids[q]].atoms != []
  {
  }

  lemma WakeupTold(before: seq<Event>, e: Event, b: Build, q: nat)
    requires Follows(before, b) && e.WakeupEvent? && Good(Registered(b, NamedBy(before, e).value))
    requires var r := Registered(b, NamedBy(before, e).value);
             e.tid in r.pids && e.pid in r.pids && Good(AddWakeup(r, r.pids[e.tid], e.time, r.pids[e.pid]))
             && r.pids == Numbers(before + [e])
    ensures var r := Registered(b, NamedBy(before, e).value);
            ToldOf(before + [e], AddWakeup(r, r.pids[e.tid], e.time, r.pids[e.pid]), q)
  {
    hide Registered, Follows, Told, Story, Links, SemAt, AtomsIn, CommIn, CommOf, AddWakeup, LinksNow, Awaited, Numbers,
        Count, Switches, Ends;
    var r, links := Registered(b, NamedBy(before, e).value), Links(before);
    RegisteredTold(before, e, b, q);
    OutcomeIs(before, e, b);
    OneMore(before, e, q);
    WakeupReads(r, e.tid, e.pid, e.time, q);
    SameTask(r, e.tid, e.pid);
    assert b.nrWakeups == |links| && r.nrWakeups == b.nrWakeups by { FollowsCount(before, e, b); }
    LengthTold(AtomsIn(r, q), Known(before, e, q), links, q);
    var a := Plain(Wakeup, e.time, 0, |Known(before, e, q)|, Some(r.pids[e.pid]));
    if Ends(before, e, Linked) {
      var l := Link(e.pid, |Known(before, e, e.pid)| - 1, e.tid, |Known(before, e, e.tid)|);
      LinkedApart(before, e);
      if q == e.tid {
        WakerTold(AtomsIn(r, q), Known(before, e, q), links, q, l, a);
      } else if q == e.pid {
        SleeperTold(AtomsIn(r, q), Known(before, e, q), links, q, l);
        assert Known(before, e, q) + [] == Known(before, e, q);
      } else {
        OtherTold(AtomsIn(r, q), Known(before, e, q), links, q, l);
        assert Known(before, e, q) + [] == Known(before, e, q);
      }
    } else {
      assert links + [] == links;
      if q == e.tid {
        MoreTold(AtomsIn(r, q), Known(before, e, q), links, q, [a]);
      } else {
        assert Known(before, e, q) + [] == Known(before, e, q);
      }
    }
  }

  lemma FollowsCount(before: seq<Event>, e: Event, b: Build)
    requires Follows(before, b) && NamedBy(before, e).Some?
    ensures b.nrWakeups == |Links(before)| && Registered(b, NamedBy(before, e).value).nrWakeups == b.nrWakeups
  {
    hide Told, ToldOf;
    RegisteredGood(b, NamedBy(before, e).value);
  }

  lemma LengthTold(atoms: seq<Atom>, story: seq<Atom>, links: seq<Link>, pid: nat)
    requires Told(atoms, story, links, pid)
    ensures |atoms| == |story|
  {
  }

  lemma LinkedApart(before: seq<Event>, e: Event)
    requires Ends(before, e, Linked)
    ensures var story := Known(before, e, e.pid);
            e.tid != e.pid && story != [] && story[|story| - 1].kind == Sleep
  {
  }

  lemma AcceptsIs(before: seq<Event>, e: Event)
    ensures Accepted(Built(before), e) <==> Accepts(before, e)
    ensures Accepts(before, e) ==> Delta(Built(before), e) == Ran(before, e)
  {
    if e.SwitchEvent? && 0 <= e.cpu < MAX_CPUS { ClockIsLatest(before, e.cpu); }
  }

  lemma WakeupCounted(before: seq<Event>, e: Event, b: Build)
    requires Follows(before, b) && e.WakeupEvent? && Good(Registered(b, NamedBy(before, e).value))
    requires var r := Registered(b, NamedBy(before, e).value); e.tid in r.pids && e.pid in r.pids
    ensures var r := Registered(b, NamedBy(before, e).value);
            Counted(before + [e], AddWakeup(r, r.pids[e.tid], e.time, r.pids[e.pid]))
  {
    hide Registered, ToldOf, Story, Links, AtomsIn, AddWakeup, LinksNow, Numbers, Number, Count, Ends, NoRunLast,
        PidsOk;
    RegisteredGood(b, NamedBy(before, e).value);
    var r := Registered(b, NamedBy(before, e).value);
    OneMore(before, e, 0);
    OutcomeIs(before, e, b);
    SameTask(r, e.tid, e.pid);
    WakeupAt(r, r.pids[e.tid], e.time, r.pids[e.pid], r.pids[e.tid]);
    WakeupKeeps(r, r.pids[e.tid], e.time, r.pids[e.pid]);
    WakeupCounts(r, r.pids[e.tid], e.time, r.pids[e.pid]);
    OneOutcome(before, e);
  }

  lemma WakeupFollows(before: seq<Event>, e: Event, b: Build)
    requires Follows(before, b) && e.WakeupEvent?
    ensures Follows(before + [e], Process(b, e))
  {
    hide Registered, ToldOf, Counted, AddWakeup, Numbers, Number, NoRunLast, PidsOk;
    RegisteredGood(b, NamedBy(before, e).value);
    var r := Registered(b, NamedBy(before, e).value);
    ProcessesWakeup(before, e, b);
    OneMore(before, e, 0);
    WakeupGood(r, r.pids[e.tid], e.time, r.pids[e.pid]);
    WakeupKeeps(r, r.pids[e.tid], e.time, r.pids[e.pid]);
    WakeupCounted(before, e, b);
    forall q: nat ensures ToldOf(before + [e], Process(b, e), q) { WakeupTold(before, e, b, q); }
  }

  lemma ProcessesWakeup(before: seq<Event>, e: Event, b: Build)
    requires Good(b) && e.WakeupEvent? && Good(Registered(b, NamedBy(before, e).value))
    requires var r := Registered(b, NamedBy(before, e).value); e.tid in r.pids && e.pid in r.pids
    ensures var r := Registered(b, NamedBy(before, e).value);
            Process(b, e) == AddWakeup(r, r.pids[e.tid], e.time, r.pids[e.pid])
  {
    hide Register, AddWakeup;
  }

  lemma OneOutcome(before: seq<Event>, e: Event)
    requires e.WakeupEvent?
    ensures Ends(before, e, Linked) ==> !Ends(before, e, Targetless)
    ensures Ends(before, e, Multitarget) <==> !Ends(before, e, Linked) && !Ends(before, e, Targetless)
  {
    hide OutcomeOf, Story, Links;
  }

  lemma RegisteredFollows(before: seq<Event>, e: Event, b: Build)
    requires Follows(before, b) && e.ForkEvent?
    ensures Follows(before + [e], Process(b, e))
  {
    hide Register, Told, Story, Links, AtomsIn, CommIn, CommOf, Numbers, Number, Count;
    RegisteredGood(b, NamedBy(before, e).value);
    var r := Process(b, e);
    assert r == Registered(b, NamedBy(before, e).value);
    OneMore(before, e, 0);
    forall q: nat ensures ToldOf(before + [e], r, q) {
      RegisteredTold(before, e, b, q);
      OneMore(before, e, q);
      assert Known(before, e, q) + [] == Known(before, e, q) && Links(before) + [] == Links(before);
    }
  }

  lemma SwitchTold(before: seq<Event>, e: Event, b: Build, b': Build, q: nat)
    requires Follows(before, b) && Accepts(before, e) && Good(Registered(b, NamedBy(before, e).value)) && Good(b')
    requires var r := Registered(b, NamedBy(before, e).value);
             && e.prevPid in r.pids && b'.pids == r.pids
             && var t, n := r.pids[e.prevPid], |r.tasks[r.pids[e.prevPid]].atoms|;
                b'.tasks == r.tasks[t := r.tasks[t].(atoms := r.tasks[t].atoms +
                    [Plain(Run, e.time, Ran(before, e), n, None), Plain(Sleep, e.time, 0, n + 1, None)])]
    ensures ToldOf(before + [e], b', q)
  {
    hide Registered, Follows, Told, Story, Links, CommOf, Numbers, Ran, SemAt;
    var r, links := Registered(b, NamedBy(before, e).value), Links(before);
    RegisteredTold(before, e, b, q);
    OneMore(before, e, q);
    assert links + [] == links && Known(before, e, q) + [] == Known(before, e, q);
    LengthTold(AtomsIn(r, q), Known(before, e, q), links, q);
    var n := |Known(before, e, q)|;
    MoreTold(AtomsIn(r, q), Known(before, e, q), links, q,
             [Plain(Run, e.time, Ran(before, e), n, None), Plain(Sleep, e.time, 0, n + 1, None)]);
  }

  lemma ClockGood(b: Build, cpu: nat, time: nat)
    requires Good(b) && NoRunLast(b) && cpu < MAX_CPUS
    ensures var r := b.(lastSwitched := b.lastSwitched[cpu := time]); Good(r) && NoRunLast(r)
  {
  }

  /** An accepted switch, on the registered tasks. */
  lemma ProcessesSwitch(b: Build, e: Event, p: Pair)
    requires Good(b) && NoRunLast(b) && Accepted(b, e) && p == Pair(e.prevPid, e.prevComm, e.nextPid, e.nextComm)
    requires Good(Registered(b, p)) && NoRunLast(Registered(b, p)) && e.prevPid in Registered(b, p).pids
    ensures var r, c := Registered(b, p), Process(b, e);
            var t, n := r.pids[e.prevPid], |r.tasks[r.pids[e.prevPid]].atoms|;
            && Good(c) && NoRunLast(c) && c.pids == r.pids
            && c.tasks == r.tasks[t := r.tasks[t].(atoms := r.tasks[t].atoms +
                 [Plain(Run, e.time, Delta(b, e), n, None), Plain(Sleep, e.time, 0, n + 1, None)])]
            && c == r.(tasks := c.tasks, lastSwitched := c.lastSwitched,
                       nrRuns := r.nrRuns + 1, nrSleeps := r.nrSleeps + 1)
  {
    hide Register, AddSwitch, Delta, NoRunLast, PidsOk;
    var r := Registered(b, p);
    ClockGood(r, e.cpu, e.time);
    SwitchGood(r.(lastSwitched := r.lastSwitched[e.cpu := e.time]), r.pids[e.prevPid], e.time, Delta(b, e));
  }

  lemma SwitchFollows(before: seq<Event>, e: Event, b: Build)
    requires Follows(before, b) && b == Built(before) && Accepts(before, e)
    ensures Follows(before + [e], Process(b, e))
  {
    hide Registered, Process, Told, ToldOf, Story, Links, AtomsIn, Numbers, Number, Count, Built, LatestSwitch, Ran,
        Delta, Accepted, NoRunLast, Good;
    var p := NamedBy(before, e).value;
    SwitchNames(before, e);
    RegisteredGood(b, p);
    AcceptsIs(before, e);
    ProcessesSwitch(b, e, p);
    OneMore(before, e, 0);
    forall q: nat ensures ToldOf(before + [e], Process(b, e), q) { SwitchTold(before, e, b, Process(b, e), q); }
  }

  lemma SwitchNames(before: seq<Event>, e: Event)
    requires Accepts(before, e)
    ensures NamedBy(before, e) == Some(Pair(e.prevPid, e.prevComm, e.nextPid, e.nextComm))
  {
  }

  lemma RefusedFollows(before: seq<Event>, e: Event, b: Build)
    requires Follows(before, b) && b == Built(before) && e.SwitchEvent? && !Accepts(before, e)
    ensures Follows(before + [e], Process(b, e))
  {
    hide Told, Story, Links, AtomsIn, Numbers, Count, Built;
    AcceptsIs(before, e);
    OneMore(before, e, 0);
    forall q: nat ensures ToldOf(before + [e], b, q) {
      OneMore(before, e, q);
      assert ToldOf(before, b, q);
      assert (before + [e])[..|before + [e]| - 1] == before;
      assert Known(before, e, q) + [] == Known(before, e, q) && Links(before) + [] == Links(before);
    }
  }

  /**
   For every trace the builder has exactly the tasks, atoms, links and counts that the events tell: atom i
   of a task has the kind, time and duration of its story, and semaphore k joins the two atoms of link k.
   */
  lemma {:induction false} BuiltFollows(trace: seq<Event>)
    ensures Follows(trace, Built(trace))
  {
    hide Process, Follows;
    if trace == [] {
      NothingBuilt();
    } else {
      var before, e := trace[..|trace| - 1], trace[|trace| - 1];
      BuiltFollows(before);
      var b := Built(before);
      if e.WakeupEvent? {
        WakeupFollows(before, e, b);
      } else if e.ForkEvent? {
        RegisteredFollows(before, e, b);
      } else if Accepts(before, e) {
        SwitchFollows(before, e, b);
      } else {
        RefusedFollows(before, e, b);
      }
      assert before + [e] == trace;
    }
  }

  lemma NothingBuilt()
    ensures Follows([], Built([]))
  {
  }

  /** Link k joins a SLEEP and a WAKEUP that carry semaphore k, and no later link touches them. */
  lemma {:induction false} LinkJoins(trace: seq<Event>, k: nat)
    requires k < |Links(trace)|
    ensures var l := Links(trace)[k];
            && l.slept < |Story(trace, l.sleeper)| && Story(trace, l.sleeper)[l.slept].kind == Sleep
            && l.woke < |Story(trace, l.waker)| && Story(trace, l.waker)[l.woke].kind == Wakeup
            && SemAt(Links(trace), l.sleeper, l.slept) == Some(k) == SemAt(Links(trace), l.waker, l.woke)
  {
    hide Story, SemAt, Names;
    var before, e := trace[..|trace| - 1], trace[|trace| - 1];
    assert before + [e] == trace;
    var links, l := Links(before), Links(trace)[k];
    OneMore(before, e, l.sleeper);
    OneMore(before, e, l.waker);
    if k < |links| {
      LinkJoins(before, k);
      StoryKept(before, e, l.sleeper);
      StoryKept(before, e, l.waker);
      if Ends(before, e, Linked) {
        var m := Links(trace)[|links|];
        LinkIsNew(before, e);
        SemMore(links, m, l.sleeper, l.slept);
        SemMore(links, m, l.waker, l.woke);
      }
    } else {
      LinkedApart(before, e);
      SemMore(links, l, l.sleeper, l.slept);
      SemMore(links, l, l.waker, l.woke);
    }
  }

  lemma StoryKept(before: seq<Event>, e: Event, q: nat)
    ensures Story(before, q) <= Known(before, e, q) <= Story(before + [e], q)
  {
    hide Story, Names, Links, Does;
    OneMore(before, e, q);
  }

  /** Neither end of a new link has a semaphore yet. */
  lemma LinkIsNew(before: seq<Event>, e: Event)
    requires Ends(before, e, Linked)
    ensures SemAt(Links(before), e.pid, |Known(before, e, e.pid)| - 1) == None
    ensures SemAt(Links(before), e.tid, |Known(before, e, e.tid)|) == None
  {
    hide Story, Links, SemAt, Counted, Built;
    BuiltFollows(before);
    assert ToldOf(before, Built(before), e.tid);
  }

  // The cross-task wakeups.

  /** The pids in the order of their tasks. */
  function Order(trace: seq<Event>): seq<nat> {
    if trace == [] then []
    else
      var before, e := trace[..|trace| - 1], trace[|trace| - 1];
      match NamedBy(before, e)
      case None => Order(before)
      case Some(p) => Listed(Listed(Order(before), p.pid), p.pid')
  }

  function Listed(order: seq<nat>, pid: nat): seq<nat> {
    if pid in order then order else order + [pid]
  }

  ghost predicate Numbered(order: seq<nat>, m: map<nat, nat>) {
    && |order| == |m| && (forall pid: nat :: pid in m <==> pid in order)
    && (forall i: nat | i < |order| :: order[i] in m && m[order[i]] == i)
  }

  lemma ListedNumbered(order: seq<nat>, m: map<nat, nat>, pid: nat)
    requires Numbered(order, m)
    ensures Numbered(Listed(order, pid), Number(m, pid))
  {
  }

  lemma {:induction false} OrderIs(trace: seq<Event>)
    ensures Numbered(Order(trace), Numbers(trace))
  {
    hide Numbered, Listed, Number, NamedBy;
    if trace == [] {
      NothingNumbered();
    } else {
      var before, e := trace[..|trace| - 1], trace[|trace| - 1];
      OrderIs(before);
      match NamedBy(before, e) {
        case None =>
        case Some(p) =>
          ListedNumbered(Order(before), Numbers(before), p.pid);
          ListedNumbered(Listed(Order(before), p.pid), Number(Numbers(before), p.pid), p.pid');
      }
    }
  }

  lemma NothingNumbered()
    ensures Numbered([], map[])
  {
  }

  /** Each of the first `i` tasks wakes the next one, in a circle, at time 0. */
  function Circle(order: seq<nat>, i: nat): seq<Event>
    requires i <= |order|
  {
    if i == 0 then []
    else
      Circle(order, i - 1) + [WakeupEvent(0, order[i - 1], if i == |order| then order[0] else order[i], "")]
  }

  lemma {:induction false} CrossKeepsPids(b: Build, i: nat)
    requires Good(b) && i <= |b.tasks|
    ensures Good(CrossWakeups(b, i)) && CrossWakeups(b, i).pids == b.pids
  {
    hide AddWakeup;
    if i > 0 {
      CrossKeepsPids(b, i - 1);
      WakeupGood(CrossWakeups(b, i - 1), i - 1, 0, if i == |b.tasks| then 0 else i);
    }
  }

  lemma ProcessesKnown(b: Build, e: Event)
    requires Good(b) && e.WakeupEvent? && e.tid in b.pids && e.pid in b.pids
    ensures Process(b, e) == AddWakeup(b, b.pids[e.tid], e.time, b.pids[e.pid])
  {
    hide AddWakeup;
  }

  lemma BuiltMore(trace: seq<Event>, e: Event)
    ensures Built(trace + [e]) == Process(Built(trace), e)
  {
    hide Process;
    assert (trace + [e])[..|trace + [e]| - 1] == trace;
  }

  /** The cross-task wakeups are those of a trace that goes on with a circle of wakeup events. */
  lemma {:induction false} CrossIsTrace(trace: seq<Event>, i: nat)
    requires i <= |Order(trace)|
    ensures |Order(trace)| == |Built(trace).tasks|
    ensures CrossWakeups(Built(trace), i) == Built(trace + Circle(Order(trace), i))
  {
    hide Built, Process, AddWakeup, Order, Numbers, ToldOf, Counted, NoRunLast, Valid, PidsOk;
    OrderIs(trace);
    BuiltFollows(trace);
    var b, order := Built(trace), Order(trace);
    if i == 0 {
      assert trace + Circle(order, 0) == trace;
    } else {
      CrossIsTrace(trace, i - 1);
      CrossKeepsPids(b, i - 1);
      var t := trace + Circle(order, i - 1);
      var e := WakeupEvent(0, order[i - 1], if i == |order| then order[0] else order[i], "");
      assert trace + Circle(order, i) == t + [e];
      ProcessesKnown(Built(t), e);
      BuiltMore(t, e);
    }
  }

  /** The replayed program from the trace alone: each task has its story, with the semaphores of the links. */
  lemma ProgramFollows(trace: seq<Event>, pid: nat, i: nat)
    ensures var t, p := trace + Circle(Order(trace), |Order(trace)|), BuiltProgram(trace);
            && p.sems == |Links(t)| && |p.tasks| == |Numbers(t)|
            && (pid in Numbers(t) && i < |Story(t, pid)| ==>
                  && Numbers(t)[pid] < |p.tasks| && |p.tasks[Numbers(t)[pid]]| == |Story(t, pid)|
                  && p.tasks[Numbers(t)[pid]][i] == Dress(Story(t, pid)[i], SemAt(Links(t), pid, i)))
  {
    hide Built, CrossWakeups, Story, Links, Order, Numbers, SemAt, Circle, NoRunLast;
    CrossIsTrace(trace, |Order(trace)|);
    var t := trace + Circle(Order(trace), |Order(trace)|);
    BuiltFollows(t);
    assert ToldOf(t, Built(t), pid);
  }

  /** One wakeup of a task not heard of before: the waker's atom 1 is linked to the SLEEP the wakee starts with. */
  lemma FirstWakeupLinks(e: Event)
    requires e == WakeupEvent(5, 1, 2, "x")
    ensures Links([e]) == [Link(2, 0, 1, 1)] && Built([e]).nrWakeups == 1 && Built([e]).targetless == 0
  {
    hide Built, ToldOf, Count, Links;
    var none: seq<Event> := [];
    assert none + [e] == [e];
    NothingTold();
    assert Ends(none, e, Linked) && !Ends(none, e, Targetless);
    OneMore(none, e, 0);
    BuiltFollows([e]);
  }

  lemma NothingTold()
    ensures Links([]) == [] && forall o :: Count([], o) == 0
  {
  }
}
