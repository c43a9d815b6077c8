/**
 Printing the forest of tasks. The recursion has no guard of its own: it ends because whatever hangs
 under a root has a chain of parents that ends, so no task is printed below itself.
 */
module TaskPrint {
  import opened TaskForest

  /** The chain of parents ends at a task without one after k steps. */
  predicate Depth(parents: seq<Parent>, i: nat, k: nat)
    requires ParentsOk(parents)
    decreases k
  {
    i < |parents| &&
    match parents[i]
    case Root => k == 0
    case Missing => false
    case At(j) => k > 0 && Depth(parents, j, k - 1)
  }

  lemma {:induction false} DepthUnique(parents: seq<Parent>, i: nat, k: nat, l: nat)
    requires ParentsOk(parents) && Depth(parents, i, k) && Depth(parents, i, l)
    ensures k == l
    decreases k
  {
    if parents[i].At? { DepthUnique(parents, parents[i].index, k - 1, l - 1); }
  }

  /** The ancestor s steps up the chain, or the end of the chain if it is shorter. */
  function Up(parents: seq<Parent>, i: nat, s: nat): (r: nat)
    requires ParentsOk(parents) && i < |parents|
    ensures r < |parents|
    decreases s
  {
    if s == 0 || !parents[i].At? then i else Up(parents, parents[i].index, s - 1)
  }

  lemma {:induction false} UpStep(parents: seq<Parent>, i: nat, s: nat)
    requires ParentsOk(parents) && i < |parents| && parents[Up(parents, i, s)].At?
    ensures Up(parents, i, s + 1) == parents[Up(parents, i, s)].index
    decreases s
  {
    if s > 0 && parents[i].At? { UpStep(parents, parents[i].index, s - 1); }
  }

  ghost predicate Above(parents: seq<Parent>, p: nat, level: nat)
    requires ParentsOk(parents)
  {
    exists d: nat | d < level :: Depth(parents, p, d)
  }

  ghost predicate Hung(parents: seq<Parent>, f: Forest) {
    Inv(parents, f) && AllListed(f)
  }

  /** The tasks on the way down from the root, all above what is about to be printed. */
  ghost predicate PathOk(parents: seq<Parent>, path: set<nat>, level: nat)
    requires ParentsOk(parents)
  {
    forall p | p in path :: p < |parents| && Above(parents, p, level)
  }

  function Tasks(n: nat): (r: set<nat>)
    ensures forall i: nat :: i in r <==> i < n
  {
    if n == 0 then {} else Tasks(n - 1) + {n - 1}
  }

  datatype Line = Line(task: nat, level: nat)

  lemma NotOnPath(parents: seq<Parent>, path: set<nat>, i: nat, level: nat)
    requires ParentsOk(parents) && Depth(parents, i, level) && PathOk(parents, path, level)
    ensures i !in path && Tasks(|parents|) - (path + {i}) < Tasks(|parents|) - path
    ensures PathOk(parents, path + {i}, level + 1)
  {
    if i in path {
      var d: nat :| d < level && Depth(parents, i, d);
      DepthUnique(parents, i, d, level);
    }
    assert i in Tasks(|parents|) - path;
    forall p | p in path + {i} ensures Above(parents, p, level + 1) {
      if p == i {
        assert Depth(parents, p, level);
      } else {
        var d: nat :| d < level && Depth(parents, p, d);
      }
    }
  }

  /** All of the list are at this level. */
  ghost predicate AtLevel(parents: seq<Parent>, tasks: seq<nat>, level: nat)
    requires ParentsOk(parents)
  {
    forall i | i in tasks :: Depth(parents, i, level)
  }

  lemma ChildrenDeeper(parents: seq<Parent>, f: Forest, i: nat, level: nat)
    requires Hung(parents, f) && Depth(parents, i, level)
    ensures AtLevel(parents, f.children[i], level + 1)
  {
    assert ChildrenOk(parents, f, i);
  }

  lemma RootsAtTop(parents: seq<Parent>, f: Forest)
    requires Hung(parents, f)
    ensures AtLevel(parents, f.roots, 0) && PathOk(parents, {}, 0)
  {
  }

  /** The lines printed for a task and all that hangs under it. */
  ghost function PrintLevel(parents: seq<Parent>, f: Forest, i: nat, level: nat, path: set<nat>): seq<Line>
    requires Hung(parents, f) && Depth(parents, i, level) && PathOk(parents, path, level)
    decreases Tasks(|parents|) - path, 0
  {
    NotOnPath(parents, path, i, level);
    ChildrenDeeper(parents, f, i, level);
    [Line(i, level)] + PrintAll(parents, f, f.children[i], level + 1, path + {i})
  }

  ghost function PrintAll(parents: seq<Parent>, f: Forest, tasks: seq<nat>, level: nat, path: set<nat>): seq<Line>
    requires Hung(parents, f) && AtLevel(parents, tasks, level) && PathOk(parents, path, level)
    decreases Tasks(|parents|) - path, 1, |tasks|
  {
    if tasks == [] then []
    else
      PrintAll(parents, f, tasks[..|tasks| - 1], level, path) +
      PrintLevel(parents, f, tasks[|tasks| - 1], level, path)
  }

  // What is printed.

  /** A line is for a task that hangs under i, at its own depth. */
  ghost predicate Under(parents: seq<Parent>, x: Line, i: nat, level: nat)
    requires ParentsOk(parents)
  {
    Depth(parents, x.task, x.level) && level <= x.level && Up(parents, x.task, x.level - level) == i
  }

  lemma {:induction false} PrintLevelUnder(parents: seq<Parent>, f: Forest, i: nat, level: nat, path: set<nat>, x: Line)
    requires Hung(parents, f) && Depth(parents, i, level) && PathOk(parents, path, level)
    requires x in PrintLevel(parents, f, i, level, path)
    ensures Under(parents, x, i, level)
    decreases Tasks(|parents|) - path, 0
  {
    NotOnPath(parents, path, i, level);
    ChildrenDeeper(parents, f, i, level);
    if x != Line(i, level) {
      var c := PrintAllUnder(parents, f, f.children[i], level + 1, path + {i}, x);
      assert ChildrenOk(parents, f, i) && parents[c] == At(i);
      UpStep(parents, x.task, x.level - level - 1);
    }
  }

  lemma {:induction false} PrintAllUnder(parents: seq<Parent>, f: Forest, tasks: seq<nat>, level: nat, path: set<nat>,
      x: Line) returns (c: nat)
    requires Hung(parents, f) && AtLevel(parents, tasks, level) && PathOk(parents, path, level)
    requires x in PrintAll(parents, f, tasks, level, path)
    ensures c in tasks && Under(parents, x, c, level)
    decreases Tasks(|parents|) - path, 1, |tasks|
  {
    var last := tasks[|tasks| - 1];
    if x in PrintLevel(parents, f, last, level, path) {
      PrintLevelUnder(parents, f, last, level, path, x);
      c := last;
    } else {
      c := PrintAllUnder(parents, f, tasks[..|tasks| - 1], level, path, x);
    }
  }

  /** Wherever a task is printed, its children are printed one level deeper. */
  lemma {:induction false} ChildrenPrinted(parents: seq<Parent>, f: Forest, i: nat, level: nat, path: set<nat>,
      x: Line, c: nat)
    requires Hung(parents, f) && Depth(parents, i, level) && PathOk(parents, path, level)
    requires x in PrintLevel(parents, f, i, level, path) && x.task < |parents| && c in f.children[x.task]
    ensures Line(c, x.level + 1) in PrintLevel(parents, f, i, level, path)
    decreases Tasks(|parents|) - path, 0
  {
    NotOnPath(parents, path, i, level);
    ChildrenDeeper(parents, f, i, level);
    if x == Line(i, level) {
      FirstPrinted(parents, f, f.children[i], level + 1, path + {i}, c);
    } else {
      ChildrenPrintedAll(parents, f, f.children[i], level + 1, path + {i}, x, c);
    }
  }

  lemma {:induction false} ChildrenPrintedAll(parents: seq<Parent>, f: Forest, tasks: seq<nat>, level: nat,
      path: set<nat>, x: Line, c: nat)
    requires Hung(parents, f) && AtLevel(parents, tasks, level) && PathOk(parents, path, level)
    requires x in PrintAll(parents, f, tasks, level, path) && x.task < |parents| && c in f.children[x.task]
    ensures Line(c, x.level + 1) in PrintAll(parents, f, tasks, level, path)
    decreases Tasks(|parents|) - path, 1, |tasks|
  {
    var last := tasks[|tasks| - 1];
    if x in PrintLevel(parents, f, last, level, path) {
      ChildrenPrinted(parents, f, last, level, path, x, c);
    } else {
      ChildrenPrintedAll(parents, f, tasks[..|tasks| - 1], level, path, x, c);
    }
  }

  /** Every task of a list is printed at the list's level. */
  lemma {:induction false} FirstPrinted(parents: seq<Parent>, f: Forest, tasks: seq<nat>, level: nat, path: set<nat>,
      c: nat)
    requires Hung(parents, f) && AtLevel(parents, tasks, level) && PathOk(parents, path, level) && c in tasks
    ensures Line(c, level) in PrintAll(parents, f, tasks, level, path)
    decreases |tasks|
  {
    var last := tasks[|tasks| - 1];
    if c == last {
      assert PrintLevel(parents, f, last, level, path)[0] == Line(c, level);
    } else {
      FirstPrinted(parents, f, tasks[..|tasks| - 1], level, path, c);
    }
  }

  // Exactly once.

  predicate Once(lines: seq<Line>) {
    forall a, b | 0 <= a < b < |lines| :: lines[a].task != lines[b].task
  }

  lemma OnceConcat(x: seq<Line>, y: seq<Line>)
    requires Once(x) && Once(y) && forall p, q | p in x && q in y :: p.task != q.task
    ensures Once(x + y)
  {
  }

  lemma {:induction false} PrintLevelOnce(parents: seq<Parent>, f: Forest, i: nat, level: nat, path: set<nat>)
    requires Hung(parents, f) && Depth(parents, i, level) && PathOk(parents, path, level)
    ensures Once(PrintLevel(parents, f, i, level, path))
    decreases Tasks(|parents|) - path, 0
  {
    NotOnPath(parents, path, i, level);
    ChildrenDeeper(parents, f, i, level);
    assert ChildrenOk(parents, f, i);
    var rest := PrintAll(parents, f, f.children[i], level + 1, path + {i});
    PrintAllOnce(parents, f, f.children[i], level + 1, path + {i});
    forall q | q in rest ensures q.task != i {
      var _ := PrintAllUnder(parents, f, f.children[i], level + 1, path + {i}, q);
      if q.task == i { DepthUnique(parents, i, level, q.level); }
    }
    OnceConcat([Line(i, level)], rest);
  }

  lemma {:induction false} PrintAllOnce(parents: seq<Parent>, f: Forest, tasks: seq<nat>, level: nat, path: set<nat>)
    requires Hung(parents, f) && AtLevel(parents, tasks, level) && PathOk(parents, path, level) && Distinct(tasks)
    ensures Once(PrintAll(parents, f, tasks, level, path))
    decreases Tasks(|parents|) - path, 1, |tasks|
  {
    if tasks != [] {
      var init, last := tasks[..|tasks| - 1], tasks[|tasks| - 1];
      PrintAllOnce(parents, f, init, level, path);
      PrintLevelOnce(parents, f, last, level, path);
      var x, y := PrintAll(parents, f, init, level, path), PrintLevel(parents, f, last, level, path);
      forall p, q | p in x && q in y ensures p.task != q.task {
        PrintedApart(parents, f, init, last, level, path, p, q);
      }
      OnceConcat(x, y);
    }
  }

  /** No task hangs under two tasks of the same level. */
  lemma PrintedApart(parents: seq<Parent>, f: Forest, init: seq<nat>, last: nat, level: nat, path: set<nat>, p: Line,
      q: Line)
    requires Hung(parents, f) && AtLevel(parents, init + [last], level) && PathOk(parents, path, level) && last !in init
    requires AtLevel(parents, init, level) && Depth(parents, last, level)
    requires p in PrintAll(parents, f, init, level, path) && q in PrintLevel(parents, f, last, level, path)
    ensures p.task != q.task
  {
    var c := PrintAllUnder(parents, f, init, level, path, p);
    PrintLevelUnder(parents, f, last, level, path, q);
    if p.task == q.task { DepthUnique(parents, p.task, p.level, q.level); }
  }

  // The whole output.

  ghost function Printed(parents: seq<Parent>, f: Forest): seq<Line>
    requires Hung(parents, f)
  {
    RootsAtTop(parents, f);
    PrintAll(parents, f, f.roots, 0, {})
  }

  lemma {:induction false} DeepPrinted(parents: seq<Parent>, f: Forest, i: nat, k: nat)
    requires Hung(parents, f) && Depth(parents, i, k)
    ensures Line(i, k) in Printed(parents, f)
    decreases k
  {
    RootsAtTop(parents, f);
    if k == 0 {
      FirstPrinted(parents, f, f.roots, 0, {}, i);
    } else {
      var j := parents[i].index;
      DeepPrinted(parents, f, j, k - 1);
      assert ChildrenOk(parents, f, j);
      ChildrenPrintedAll(parents, f, f.roots, 0, {}, Line(j, k - 1), i);
    }
  }

  /**
   Each task whose chain of parents ends is printed exactly once, indented by its depth, and no other
   task is printed: those that run in a circle are left out.
   */
  lemma PrintsTheForest(parents: seq<Parent>, f: Forest, x: Line)
    requires Hung(parents, f)
    ensures x in Printed(parents, f) <==> Depth(parents, x.task, x.level)
    ensures Once(Printed(parents, f))
  {
    RootsAtTop(parents, f);
    PrintAllOnce(parents, f, f.roots, 0, {});
    if x in Printed(parents, f) {
      var _ := PrintAllUnder(parents, f, f.roots, 0, {}, x);
    }
    if Depth(parents, x.task, x.level) {
      DeepPrinted(parents, f, x.task, x.level);
    }
  }

  ghost predicate Ends(parents: seq<Parent>, i: nat)
    requires ParentsOk(parents)
  {
    exists k: nat :: Depth(parents, i, k)
  }

  predicate IsPrinted(lines: seq<Line>, i: nat) {
    exists a | 0 <= a < |lines| :: lines[a].task == i
  }

  /** When every chain of parents ends, all tasks are printed. */
  lemma EveryTaskPrinted(parents: seq<Parent>, f: Forest, i: nat)
    requires Hung(parents, f) && (forall j: nat | j < |parents| :: Ends(parents, j)) && i < |parents|
    ensures IsPrinted(Printed(parents, f), i) && Once(Printed(parents, f))
  {
    assert Ends(parents, i);
    var k: nat :| Depth(parents, i, k);
    PrintsTheForest(parents, f, Line(i, k));
  }
}
