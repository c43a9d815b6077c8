/** The asynchronous writer on its control blocks. */
module AioTool {
  import opened Options
  import opened AioWrite

  /** The answer for a block, when the kernel is willing to write that much. */
  function For(b: Block, r: Reply): (a: Reply)
    ensures Possible(b, a)
  {
    if r.answer.Wrote? && r.answer.n > b.nbytes then r.(answer := Wrote(b.nbytes)) else r
  }

  /** A kernel that writes at least something whenever it is asked. */
  predicate Writes(r: Reply) { r.answer.Wrote? && r.answer.n > 0 }

  class AioMap {
    const cblocks: array<Block>
    /** The blocks on the list to wait for. */
    const waitFor: array<bool>
    var refcount: int
    ghost var job: seq<nat>
    ghost var jobs: seq<Job>
    ghost var status: seq<Status>
    ghost var file: map<nat, int>

    ghost function State(): Aio
      reads this, cblocks
    {
      Aio(cblocks[..], refcount, job, jobs, status, file)
    }

    ghost predicate Valid()
      reads this, cblocks
    {
      waitFor.Length == cblocks.Length && Inv(State())
    }

    constructor (n: nat)
      ensures Valid() && fresh(cblocks) && fresh(waitFor) && State() == Start(n)
    {
      cblocks := new Block[n](_ => Block(FREE, 0, 0, 0));
      waitFor := new bool[n](_ => false);
      refcount := 0;
      job, jobs, status, file := Start(n).job, [], [], map[];
      new;
      assert cblocks[..] == Start(n).blocks;
    }

    /** Fill in a block and queue it, again and again while the kernel says to try again. */
    method Write(i: nat, fd: int, buf: nat, size: nat, off: nat, r: Reply) returns (rc: int)
      requires i < cblocks.Length
      modifies cblocks
      ensures rc == 0 <==> r.queued
      ensures cblocks[..] == old(cblocks[..])[i := Block(if r.queued then fd else FREE, buf, size, off)]
    {
      cblocks[i] := Block(fd, buf, size, off);
      var tries := 0;
      while true
        invariant tries <= r.again
        invariant cblocks[..] == old(cblocks[..])[i := Block(fd, buf, size, off)]
        decreases r.again - tries
      {
        var errnoAgain := tries < r.again;
        rc := if tries == r.again && r.queued then 0 else -1;
        if rc == 0 {
          break;
        } else if !errnoAgain {
          cblocks[i] := cblocks[i].(fd := FREE);
          break;
        }
        tries := tries + 1;
      }
    }

    method PushFn(i: nat, fd: int, j: Job, r: Reply) returns (rc: int)
      requires Valid() && Enabled(State(), Queue(i, fd, j, r))
      modifies this, cblocks
      ensures rc == 0 <==> r.queued
      ensures Valid() && State() == Push(old(State()), i, fd, j, r)
    {
      hide Inv;
      assert Sized(State()) by { InvSized(State()); }
      PushKeeps(State(), i, fd, j, r);
      rc := Write(i, fd, j.buf, |j.data|, j.off, r);
      if rc == 0 {
        refcount := refcount + 1;
        job, status := job[i := |jobs|], status + [Pending(i)];
        jobs := jobs + [j];
      }
    }

    /** Look at one request and restart it if only a part was written; true when the block is free again. */
    method CompleteOne(i: nat, r: Reply) returns (rc: bool)
      requires Valid() && i < cblocks.Length && Busy(cblocks[i]) && Possible(cblocks[i], r)
      modifies this, cblocks
      ensures Valid() && Completable(old(State()), i, r) && State() == Complete(old(State()), i, r)
      ensures rc <==> Freed(old(cblocks[i]), r)
    {
      hide Inv, Store;
      CompletableIn(State(), i, r);
      CompleteKeeps(State(), i, r);
      if r.answer.InProgress? {
        return false;
      }
      var written := Written(r);
      var cblock := cblocks[i];
      var remSize := cblock.nbytes - written;
      file := Store(file, cblock.offset, Part(jobs[job[i]], cblock, written));
      if remSize == 0 {
        cblocks[i] := cblock.(fd := FREE);
        refcount := refcount - 1;
        status := status[job[i] := Done];
        return true;
      }
      if !r.queued {
        status := status[job[i] := Lost];
      }
      var _ := Write(i, cblock.fd, cblock.buf + written, remSize, cblock.offset + written, r);
      return false;
    }

    /** One pass over the blocks: a block that is free, or else whether some block must be waited for. */
    method Pass(syncAll: bool, replies: seq<Reply>) returns (free: Option<nat>, suspend: bool)
      requires Valid() && |replies| == cblocks.Length
      modifies this, cblocks, waitFor
      ensures Valid() && jobs == old(jobs)
      ensures free.Some? ==> !syncAll && free.value < cblocks.Length && !Busy(cblocks[free.value])
      ensures free.None? ==> forall k | 0 <= k < cblocks.Length && Busy(cblocks[k]) :: waitFor[k]
      ensures free.None? && !suspend ==> forall k | 0 <= k < cblocks.Length :: !Busy(cblocks[k])
      ensures Outstanding(cblocks[..]) <= old(Outstanding(cblocks[..]))
      ensures (forall r | r in replies :: Writes(r)) && suspend ==>
          Outstanding(cblocks[..]) < old(Outstanding(cblocks[..]))
    {
      hide Inv, Complete, Outstanding;
      suspend := false;
      for i := 0 to cblocks.Length
        invariant Valid() && jobs == old(jobs)
        invariant forall k | 0 <= k < i && Busy(cblocks[k]) :: waitFor[k] && suspend
        invariant Outstanding(cblocks[..]) <= old(Outstanding(cblocks[..]))
        invariant (forall r | r in replies :: Writes(r)) && suspend ==>
            Outstanding(cblocks[..]) < old(Outstanding(cblocks[..]))
      {
        var free_ := !Busy(cblocks[i]);
        if !free_ {
          var r := For(cblocks[i], replies[i]);
          assert replies[i] in replies;
          WritesProductive(cblocks[i], replies[i]);
          ghost var s := State();
          CompletableIn(s, i, r);
          CompleteProgress(s, i, r);
          OthersKept(s, i, r);
          free_ := CompleteOne(i, r);
          assert cblocks[..] == Complete(s, i, r).blocks;
          assert forall k | 0 <= k < cblocks.Length && k != i :: cblocks[k] == s.blocks[k];
        }
        if free_ {
          if syncAll {
            waitFor[i] := false;
          } else {
            return Some(i), suspend;
          }
        } else {
          waitFor[i] := true;
          suspend := true;
        }
      }
      return None, suspend;
    }

    /**
     Wait for one free block, or for all of them. Nothing is returned when the kernel's answers run out
     first, which cannot happen once it has written everything.
     */
    method Sync(syncAll: bool, rounds: seq<seq<Reply>>) returns (result: Option<int>)
      requires Valid() && forall replies | replies in rounds :: |replies| == cblocks.Length
      modifies this, cblocks, waitFor
      ensures Valid() && jobs == old(jobs)
      ensures result == Some(-1) ==> forall k | 0 <= k < cblocks.Length :: !Busy(cblocks[k])
      ensures result.Some? && result.value != -1 ==>
                !syncAll && 0 <= result.value < cblocks.Length && !Busy(cblocks[result.value])
      ensures (forall replies | replies in rounds :: forall r | r in replies :: Writes(r)) ==>
                |rounds| > old(Outstanding(cblocks[..])) ==> result.Some?
    {
      hide Inv, Outstanding;
      OutstandingNat(cblocks[..]);
      for round := 0 to |rounds|
        invariant Valid() && jobs == old(jobs) && Outstanding(cblocks[..]) >= 0
        invariant (forall replies | replies in rounds :: forall r | r in replies :: Writes(r)) ==>
                    Outstanding(cblocks[..]) + round <= old(Outstanding(cblocks[..]))
      {
        assert rounds[round] in rounds;
        var free, suspend := Pass(syncAll, rounds[round]);
        if free.Some? {
          return Some(free.value);
        }
        if !suspend {
          return Some(-1);
        }
        OutstandingNat(cblocks[..]);
      }
      return None;
    }
  }

  lemma WritesProductive(b: Block, r: Reply)
    ensures Writes(r) ==> Productive(b, For(b, r))
  {
  }

  lemma InvSized(s: Aio)
    requires Inv(s)
    ensures Sized(s)
  {
  }

  lemma OthersKept(s: Aio, i: nat, r: Reply)
    requires Completable(s, i, r)
    ensures var t := Complete(s, i, r);
            && |t.blocks| == |s.blocks| && t.jobs == s.jobs
            && (forall k | 0 <= k < |s.blocks| && k != i :: t.blocks[k] == s.blocks[k])
            && (Freed(s.blocks[i], r) ==> !Busy(t.blocks[i]))
  {
    hide Store;
  }
}
