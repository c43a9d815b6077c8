/** The listing of tasks on the lists it builds. */
module TaskTool {
  import opened TaskForest
  import opened TaskPrint
  import opened TaskOrder

  class TaskList {
    const threads: seq<Thread>
    const listed: array<bool>
    const children: array<seq<nat>>
    var roots: seq<nat>

    ghost predicate Valid()
    {
      listed.Length == children.Length == |threads|
    }

    ghost function State(): (f: Forest)
      requires Valid()
      reads this, listed, children
      ensures Sized(f, |threads|)
    {
      Forest(listed[..], children[..], roots)
    }

    constructor (threads: seq<Thread>)
      ensures Valid() && fresh(listed) && fresh(children) && this.threads == threads
      ensures State() == Empty(|threads|)
    {
      this.threads := threads;
      listed := new bool[|threads|](_ => false);
      children := new seq<nat>[|threads|](_ => []);
      roots := [];
      new;
      assert State() == Empty(|threads|);
    }

    /** Hang a task and its ancestors up to one already in a list. */
    method TasksList(task: nat) returns (o: Outcome)
      requires Valid() && task < |threads|
      modifies listed, children
      ensures (State(), o) == Link(Parents(threads), old(State()), task)
      decreases Unlisted(State())
    {
      hide FindThread;
      if listed[task] {
        return Listed;
      }
      if threads[task].ppid == -1 {
        return LastInChain(task);
      }
      var parent := FindThread(threads, threads[task].ppid);
      match parent {
        case None =>
          return NoEntry;
        case Some(p) =>
          HangShrinks(State(), task, p);
          listed[task] := true;
          children[p] := children[p] + [task];
          assert State() == Hang(old(State()), task, p);
          o := TasksList(p);
      }
    }

    /** The loop that hangs every task; the flag tells that a parent was not found. */
    method LinkTasks() returns (err: bool)
      requires Valid() && State() == Empty(|threads|)
      modifies this, listed, children
      ensures (State(), err) == LinkFrom(Parents(threads), Empty(|threads|), 0)
      ensures err <==> SomeMissing(Parents(threads))
      ensures !err ==> Hung(Parents(threads), State())
    {
      hide Link, Parents;
      ghost var parents := Parents(threads);
      LinkingComplete(threads);
      for itask := 0 to |threads|
        invariant LinkFrom(parents, State(), itask) == LinkFrom(parents, Empty(|threads|), 0)
      {
        if !listed[itask] {
          var task := TasksList(itask);
          if task.NoEntry? {
            return true;
          }
          if task.LastInChain? {
            listed[task.task] := true;
            roots := roots + [task.task];
          }
        }
      }
      return false;
    }

    method TaskPrintLevel(task: nat, level: nat, ghost path: set<nat>) returns (out: seq<Line>)
      requires Valid() && Hung(Parents(threads), State())
      requires Depth(Parents(threads), task, level) && PathOk(Parents(threads), path, level)
      ensures out == PrintLevel(Parents(threads), State(), task, level, path)
      decreases Tasks(|threads|) - path
    {
      hide Parents, Inv;
      ghost var parents := Parents(threads);
      NotOnPath(parents, path, task, level);
      ChildrenDeeper(parents, State(), task, level);
      out := [Line(task, level)];
      ghost var lines: seq<Line> := [];
      for c := 0 to |children[task]|
        invariant AtLevel(parents, children[task][..c], level + 1)
        invariant lines == PrintAll(parents, State(), children[task][..c], level + 1, path + {task})
        invariant out == [Line(task, level)] + lines
      {
        assert children[task][..c + 1][..c] == children[task][..c];
        var more := TaskPrintLevel(children[task][c], level + 1, path + {task});
        out := out + more;
        lines := lines + more;
      }
      assert children[task][..|children[task]|] == children[task];
    }

    method PrintRoots() returns (out: seq<Line>)
      requires Valid() && Hung(Parents(threads), State())
      ensures out == Printed(Parents(threads), State())
      ensures Once(out) && forall x :: x in out <==> Depth(Parents(threads), x.task, x.level)
    {
      hide Parents, Inv, Depth;
      ghost var parents := Parents(threads);
      RootsAtTop(parents, State());
      out := [];
      for r := 0 to |roots|
        invariant AtLevel(parents, roots[..r], 0)
        invariant out == PrintAll(parents, State(), roots[..r], 0, {})
      {
        assert roots[..r + 1][..r] == roots[..r];
        var more := TaskPrintLevel(roots[r], 0, {});
        out := out + more;
      }
      assert roots[..|roots|] == roots;
      forall x ensures x in out <==> Depth(parents, x.task, x.level) {
        PrintsTheForest(parents, State(), x);
      }
      PrintsTheForest(parents, State(), Line(0, 0));
    }

    /**
     The listing: an error, or each task whose chain of parents ends, once, at its depth, below its parent
     and in the order in which it was reached.
     */
    method TasksPrint() returns (err: bool, out: seq<Line>)
      requires Valid() && State() == Empty(|threads|)
      modifies this, listed, children
      ensures err <==> SomeMissing(Parents(threads))
      ensures !err ==> Once(out) && forall x :: x in out <==> Depth(Parents(threads), x.task, x.level)
      ensures !err ==> Nested(Parents(threads), out, 0) && Tops(out, 0) == State().roots
      ensures !err ==> AllOrdered(Parents(threads), State())
    {
      hide Parents, Inv, Depth, AllOrdered, Nested;
      out := [];
      err := LinkTasks();
      if !err {
        out := PrintRoots();
        LinkingOrdered(threads);
        ListingNested(Parents(threads), State());
        RootsAtTop(Parents(threads), State());
        AllTops(Parents(threads), State(), State().roots, 0, {});
      }
    }
  }
}
