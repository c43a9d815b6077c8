/** The four event handlers of `perf lock report`, over per-thread lists of sequences changed in place. */
module LockReport {
  import opened LockStats
  import opened RbTree

  function AddrOf(q: Sequence): int { q.addr }

  ghost predicate Lists(threads: map<int, seq<Sequence>>) {
    forall t | t in threads :: DistinctKeys(threads[t], AddrOf)
  }

  ghost function Tables(threads: map<int, seq<Sequence>>): map<int, map<int, Sequence>>
    requires Lists(threads)
  {
    map t | t in threads :: ToMap(threads[t], AddrOf)
  }

  /** Walks the list for `addr`. */
  method FindSeq(list: seq<Sequence>, addr: int) returns (pos: nat)
    ensures pos <= |list| && (pos < |list| ==> list[pos].addr == addr)
    ensures forall i | 0 <= i < pos :: list[i].addr != addr
  {
    pos := 0;
    while pos < |list|
      invariant pos <= |list|
      invariant forall i | 0 <= i < pos :: list[i].addr != addr
    {
      if list[pos].addr == addr { return; }
      pos := pos + 1;
    }
  }

  method CountWait(ls: LockStat, w: nat) returns (r: LockStat)
    ensures r == AddWait(ls, w)
  {
    r := ls.(waitTotal := Wrap(ls.waitTotal + w));
    if w < r.waitMin { r := r.(waitMin := w); }
    if r.waitMax < w { r := r.(waitMax := w); }
  }

  method CountGrant(ls: LockStat) returns (r: LockStat)
    ensures r == ls.(nrAcquired := ls.nrAcquired + 1, avgWait := Average(ls.waitTotal, ls.nrContended))
  {
    r := ls.(nrAcquired := ls.nrAcquired + 1);
    r := r.(avgWait := if r.nrContended != 0 then r.waitTotal / r.nrContended else 0);
  }

  class Report {
    var stats: map<int, LockStat>
    var threads: map<int, seq<Sequence>>
    var bad: BadHist

    ghost predicate Good()
      reads this
    {
      Lists(threads)
    }

    ghost function State(): Locks
      requires Good()
      reads this
    {
      Locks(stats, Tables(threads), bad)
    }

    constructor ()
      ensures Good() && State() == Empty()
    {
      stats, threads, bad := map[], map[], BadHist(0, 0, 0, 0);
    }

    /** The sequence of this thread and lock, made and put at the head of the list if there is none. */
    method GetSeq(tid: int, addr: int) returns (pos: nat)
      requires Good()
      modifies `threads
      ensures Good() && tid in threads && pos < |threads[tid]|
      ensures threads[tid][pos] == SequenceOf(old(State()), tid, addr) && threads[tid][pos].addr == addr
      ensures Tables(threads) == old(State()).threads[tid := ThreadOf(old(State()), tid)[addr := threads[tid][pos]]]
    {
      hide DistinctKeys, ToMap;
      assert forall t | t in threads :: DistinctKeys(threads[t], AddrOf);
      var list := if tid in threads then threads[tid] else [];
      EmptyList();
      pos := FindSeq(list, addr);
      if pos == |list| {
        ToMapInsert(list, AddrOf, 0, NewSequence(addr));
        NotListed(list, addr);
        list := InsertAt(list, 0, NewSequence(addr));
        pos := 0;
      } else {
        Listed(list, pos);
      }
      threads := threads[tid := list];
    }

    method StoreSeq(tid: int, pos: nat, q: Sequence)
      requires Good() && tid in threads && pos < |threads[tid]| && q.addr == threads[tid][pos].addr
      modifies `threads
      ensures Good() && Tables(threads) == old(Tables(threads))[tid := old(Tables(threads))[tid][q.addr := q]]
    {
      hide DistinctKeys, ToMap;
      assert DistinctKeys(threads[tid], AddrOf);
      ToMapUpdate(threads[tid], AddrOf, pos, q);
      threads := threads[tid := threads[tid][pos := q]];
    }

    method DeleteSeq(tid: int, pos: nat)
      requires Good() && tid in threads && pos < |threads[tid]|
      modifies `threads
      ensures Good()
      ensures Tables(threads) == old(Tables(threads))[tid := old(Tables(threads))[tid] - {old(threads)[tid][pos].addr}]
    {
      hide DistinctKeys, ToMap, EraseAt;
      assert DistinctKeys(threads[tid], AddrOf);
      ToMapErase(threads[tid], AddrOf, pos);
      threads := threads[tid := EraseAt(threads[tid], pos)];
    }

    /** A broken sequence discards its lock and goes away. */
    method Discard(e: Event, pos: nat, ls: LockStat)
      requires Good() && e.tid in threads && pos < |threads[e.tid]|
      modifies this
      ensures Good() && stats == old(stats)[e.addr := ls.(discard := true)] && bad == CountBroken(old(bad), e.kind)
      ensures Tables(threads) ==
          old(Tables(threads))[e.tid := old(Tables(threads))[e.tid] - {old(threads)[e.tid][pos].addr}]
    {
      stats := stats[e.addr := ls.(discard := true)];
      bad := CountBroken(bad, e.kind);
      DeleteSeq(e.tid, pos);
    }

    /** Finds the lock and the sequence; `skip` when the lock is discarded. */
    method Lookup(e: Event) returns (skip: bool, ls: LockStat, pos: nat)
      requires Good()
      modifies `threads
      ensures Good() && ls == StatOf(old(State()), e.addr) && skip == ls.discard
      ensures skip ==> State() == old(State())
      ensures !skip ==> e.tid in threads && pos < |threads[e.tid]|
      ensures !skip ==> threads[e.tid][pos] == SequenceOf(old(State()), e.tid, e.addr)
      ensures !skip ==> threads[e.tid][pos].addr == e.addr
      ensures !skip ==> Tables(threads) == old(State()).threads[
                e.tid := ThreadOf(old(State()), e.tid)[e.addr := threads[e.tid][pos]]]
    {
      ls := if e.addr in stats then stats[e.addr] else NewLock();
      skip, pos := ls.discard, 0;
      if !skip { pos := GetSeq(e.tid, e.addr); }
    }

    method ReportLockAcquireEvent(e: Event)
      requires Good() && e.kind.Acquire?
      modifies this
      ensures Good() && Step(old(State()), e) == Ok(State())
    {
      hide Lists, Tables;
      var skip, ls, pos := Lookup(e);
      if skip { return; }
      var q := threads[e.tid][pos];
      Overwrite(old(State()), e.tid, e.addr, q, q);
      match q.phase {
        case Uninitialized | Released =>
          if !e.kind.tryLock && !e.kind.readLock {
            q := q.(phase := Acquiring);
          } else {
            if e.kind.tryLock { ls := ls.(nrTrylock := ls.nrTrylock + 1); }
            if e.kind.readLock { ls := ls.(nrReadlock := ls.nrReadlock + 1); }
            q := q.(phase := ReadAcquired, readCount := 1);
            ls := ls.(nrAcquired := ls.nrAcquired + 1);
          }
          ls := ls.(nrAcquire := ls.nrAcquire + 1);
          q := q.(prevTime := e.time);
        case ReadAcquired =>
          if !e.kind.readLock {
            Discard(e, pos, ls);
            return;
          }
          q := q.(readCount := q.readCount + 1);
          ls := ls.(nrAcquired := ls.nrAcquired + 1);
        case Acquired | Acquiring | Contended =>
          Discard(e, pos, ls);
          return;
      }
      Overwrite(old(State()), e.tid, e.addr, threads[e.tid][pos], q);
      StoreSeq(e.tid, pos, q);
      stats := stats[e.addr := ls];
    }

    method ReportLockAcquiredEvent(e: Event)
      requires Good() && e.kind == GotIt
      modifies this
      ensures Good() && Step(old(State()), e) == Ok(State())
    {
      hide Lists, Tables, Wrap, AddWait, Average;
      var skip, ls, pos := Lookup(e);
      if skip { return; }
      var q := threads[e.tid][pos];
      Overwrite(old(State()), e.tid, e.addr, q, q);
      match q.phase {
        case Uninitialized =>
          stats := stats[e.addr := ls];
          return;
        case Acquiring =>
        case Contended =>
          var w := Wrap(e.time - q.prevTime);
          ls := CountWait(ls, w);
        case Released | Acquired | ReadAcquired =>
          Discard(e, pos, ls);
          return;
      }
      q := q.(phase := Acquired, prevTime := e.time);
      ls := CountGrant(ls);
      Overwrite(old(State()), e.tid, e.addr, threads[e.tid][pos], q);
      StoreSeq(e.tid, pos, q);
      stats := stats[e.addr := ls];
    }

    method ReportLockContendedEvent(e: Event)
      requires Good() && e.kind == Contend
      modifies this
      ensures Good() && Step(old(State()), e) == Ok(State())
    {
      hide Lists, Tables;
      var skip, ls, pos := Lookup(e);
      if skip { return; }
      var q := threads[e.tid][pos];
      Overwrite(old(State()), e.tid, e.addr, q, q);
      match q.phase {
        case Uninitialized =>
          stats := stats[e.addr := ls];
          return;
        case Acquiring =>
        case Released | Acquired | ReadAcquired | Contended =>
          Discard(e, pos, ls);
          return;
      }
      q := q.(phase := Contended, prevTime := e.time);
      ls := ls.(nrContended := ls.nrContended + 1);
      ls := ls.(avgWait := ls.waitTotal / ls.nrContended);
      Overwrite(old(State()), e.tid, e.addr, threads[e.tid][pos], q);
      StoreSeq(e.tid, pos, q);
      stats := stats[e.addr := ls];
    }

    /** `bug` when the BUG_ON of the read release fires. */
    method ReportLockReleaseEvent(e: Event) returns (bug: bool)
      requires Good() && e.kind == Release
      modifies this
      ensures Good() && Step(old(State()), e) == if bug then Crashed else Ok(State())
    {
      hide Lists, Tables;
      bug := false;
      var skip, ls, pos := Lookup(e);
      if skip { return; }
      var q := threads[e.tid][pos];
      Overwrite(old(State()), e.tid, e.addr, q, q);
      match q.phase {
        case Uninitialized =>
          stats := stats[e.addr := ls];
          return;
        case Acquired =>
        case ReadAcquired =>
          q := q.(readCount := q.readCount - 1);
          if q.readCount < 0 { return true; }
          if q.readCount == 0 {
            Overwrite(old(State()), e.tid, e.addr, threads[e.tid][pos], q);
            StoreSeq(e.tid, pos, q);
            stats := stats[e.addr := ls.(nrRelease := ls.nrRelease + 1)];
            return;
          }
        case Acquiring | Contended | Released =>
          Discard(e, pos, ls);
          return;
      }
      stats := stats[e.addr := ls.(nrRelease := ls.nrRelease + 1)];
      DeleteSeq(e.tid, pos);
    }
  }

  /** Writing an entry twice, or writing and deleting it, leaves only the last change. */
  lemma Overwrite(s: Locks, tid: int, addr: int, q: Sequence, q': Sequence)
    ensures var th := ThreadOf(s, tid)[addr := q];
            && s.threads[tid := th][tid := th[addr := q']] == s.threads[tid := ThreadOf(s, tid)[addr := q']]
            && s.threads[tid := th][tid := th - {addr}] == s.threads[tid := ThreadOf(s, tid) - {addr}]
  {
    assert ThreadOf(s, tid)[addr := q][addr := q'] == ThreadOf(s, tid)[addr := q'];
    assert ThreadOf(s, tid)[addr := q] - {addr} == ThreadOf(s, tid) - {addr};
  }

  lemma EmptyList()
    ensures DistinctKeys([], AddrOf) && ToMap([], AddrOf) == map[]
  {
  }

  lemma Listed(list: seq<Sequence>, pos: nat)
    requires DistinctKeys(list, AddrOf) && pos < |list|
    ensures list[pos].addr in ToMap(list, AddrOf) && ToMap(list, AddrOf)[list[pos].addr] == list[pos]
    ensures ToMap(list, AddrOf)[list[pos].addr := list[pos]] == ToMap(list, AddrOf)
  {
    assert list[pos] in list;
  }

  lemma NotListed(list: seq<Sequence>, addr: int)
    requires DistinctKeys(list, AddrOf) && forall i | 0 <= i < |list| :: list[i].addr != addr
    ensures addr !in ToMap(list, AddrOf)
  {
  }
}
