/**
 The order of the task listing: each task is right below its parent, and siblings come in the order in
 which the chains of parents, followed from one task after the other, first reach them.
 */
module TaskOrder {
  import opened TaskForest
  import opened TaskPrint

  // Indentation shows parents.

  /** Line b is below line a, with nothing less indented than b in between. */
  predicate Below(parents: seq<Parent>, lines: seq<Line>, a: nat, b: nat) {
    && a < b < |lines| && lines[b].level == lines[a].level + 1
    && lines[b].task < |parents| && parents[lines[b].task] == At(lines[a].task)
    && forall c | a < c < b :: lines[c].level >= lines[b].level
  }

  ghost predicate HasParent(parents: seq<Parent>, lines: seq<Line>, b: nat) {
    exists a: nat :: Below(parents, lines, a, b)
  }

  /** Every line indented more than `level` has its parent above it, and none is indented less. */
  ghost predicate Nested(parents: seq<Parent>, lines: seq<Line>, level: nat) {
    forall b: nat | b < |lines| ::
      lines[b].level >= level && (lines[b].level > level ==> HasParent(parents, lines, b))
  }

  lemma NestedConcat(parents: seq<Parent>, x: seq<Line>, y: seq<Line>, level: nat)
    requires Nested(parents, x, level) && Nested(parents, y, level)
    ensures Nested(parents, x + y, level)
  {
    var z := x + y;
    forall b: nat | b < |z| ensures z[b].level >= level && (z[b].level > level ==> HasParent(parents, z, b)) {
      if b < |x| {
        assert z[b] == x[b];
        if x[b].level > level {
          var a: nat :| Below(parents, x, a, b);
          assert Below(parents, z, a, b);
        }
      } else {
        var d := b - |x|;
        assert z[b] == y[d];
        if y[d].level > level {
          var a: nat :| Below(parents, y, a, d);
          assert forall c | |x| + a < c < b :: z[c] == y[c - |x|];
          assert Below(parents, z, |x| + a, b);
        }
      }
    }
  }

  /** A task on top of a list of its children and all below them. */
  lemma NestedUnder(parents: seq<Parent>, i: nat, rest: seq<Line>, level: nat)
    requires Nested(parents, rest, level + 1)
    requires forall x | x in rest && x.level == level + 1 :: x.task < |parents| && parents[x.task] == At(i)
    ensures Nested(parents, [Line(i, level)] + rest, level)
  {
    hide Below;
    var z := [Line(i, level)] + rest;
    forall b: nat | b < |z| ensures z[b].level >= level && (z[b].level > level ==> HasParent(parents, z, b)) {
      if b > 0 {
        assert z[b] == rest[b - 1] && rest[b - 1] in rest;
        if z[b].level == level + 1 {
          TopBelow(parents, Line(i, level), rest, b);
        } else {
          var a: nat :| Below(parents, rest, a, b - 1);
          ShiftBelow(parents, Line(i, level), rest, a, b - 1);
        }
      }
    }
  }

  lemma TopBelow(parents: seq<Parent>, top: Line, rest: seq<Line>, b: nat)
    requires 0 < b <= |rest| && rest[b - 1].level == top.level + 1
    requires rest[b - 1].task < |parents| && parents[rest[b - 1].task] == At(top.task)
    requires forall c: nat | c < |rest| :: rest[c].level >= top.level + 1
    ensures HasParent(parents, [top] + rest, b)
  {
    var z := [top] + rest;
    assert forall c | 0 < c <= |rest| :: z[c] == rest[c - 1];
    assert Below(parents, z, 0, b);
  }

  lemma ShiftBelow(parents: seq<Parent>, top: Line, rest: seq<Line>, a: nat, b: nat)
    requires Below(parents, rest, a, b)
    ensures HasParent(parents, [top] + rest, b + 1)
  {
    var z := [top] + rest;
    assert forall c | 0 < c <= |rest| :: z[c] == rest[c - 1];
    assert Below(parents, z, a + 1, b + 1);
  }

  lemma {:induction false} LevelNested(parents: seq<Parent>, f: Forest, i: nat, level: nat, path: set<nat>)
    requires Hung(parents, f) && Depth(parents, i, level) && PathOk(parents, path, level)
    ensures Nested(parents, PrintLevel(parents, f, i, level, path), level)
    decreases Tasks(|parents|) - path, 0
  {
    hide Nested;
    NotOnPath(parents, path, i, level);
    ChildrenDeeper(parents, f, i, level);
    var rest := PrintAll(parents, f, f.children[i], level + 1, path + {i});
    AllNested(parents, f, f.children[i], level + 1, path + {i});
    assert ChildrenOk(parents, f, i);
    forall x | x in rest && x.level == level + 1 ensures x.task < |parents| && parents[x.task] == At(i) {
      var c := PrintAllUnder(parents, f, f.children[i], level + 1, path + {i}, x);
    }
    NestedUnder(parents, i, rest, level);
  }

  lemma {:induction false} AllNested(parents: seq<Parent>, f: Forest, tasks: seq<nat>, level: nat, path: set<nat>)
    requires Hung(parents, f) && AtLevel(parents, tasks, level) && PathOk(parents, path, level)
    ensures Nested(parents, PrintAll(parents, f, tasks, level, path), level)
    decreases Tasks(|parents|) - path, 1, |tasks|
  {
    hide Nested;
    if tasks == [] {
      NothingNested(parents, level);
    } else {
      var init, last := tasks[..|tasks| - 1], tasks[|tasks| - 1];
      AllNested(parents, f, init, level, path);
      LevelNested(parents, f, last, level, path);
      NestedConcat(parents, PrintAll(parents, f, init, level, path), PrintLevel(parents, f, last, level, path), level);
    }
  }

  lemma NothingNested(parents: seq<Parent>, level: nat)
    ensures Nested(parents, [], level)
  {
  }

  /** In the whole listing the nearest less indented line above a task is its parent. */
  lemma ListingNested(parents: seq<Parent>, f: Forest)
    requires Hung(parents, f)
    ensures Nested(parents, Printed(parents, f), 0)
  {
    RootsAtTop(parents, f);
    AllNested(parents, f, f.roots, 0, {});
  }

  // Siblings.

  /** The tasks at one level of some lines, in order. */
  function Tops(lines: seq<Line>, level: nat): seq<nat> {
    if lines == [] then []
    else
      var x := lines[|lines| - 1];
      Tops(lines[..|lines| - 1], level) + if x.level == level then [x.task] else []
  }

  lemma {:induction false} TopsConcat(x: seq<Line>, y: seq<Line>, level: nat)
    ensures Tops(x + y, level) == Tops(x, level) + Tops(y, level)
  {
    if y == [] {
      assert x + y == x;
    } else {
      TopsConcat(x, y[..|y| - 1], level);
      assert (x + y)[..|x + y| - 1] == x + y[..|y| - 1];
    }
  }

  lemma {:induction false} NoTops(lines: seq<Line>, level: nat)
    requires forall x | x in lines :: x.level > level
    ensures Tops(lines, level) == []
  {
    if lines != [] {
      assert lines[|lines| - 1] in lines;
      NoTops(lines[..|lines| - 1], level);
    }
  }

  lemma LevelTops(parents: seq<Parent>, f: Forest, i: nat, level: nat, path: set<nat>)
    requires Hung(parents, f) && Depth(parents, i, level) && PathOk(parents, path, level)
    ensures Tops(PrintLevel(parents, f, i, level, path), level) == [i]
  {
    NotOnPath(parents, path, i, level);
    ChildrenDeeper(parents, f, i, level);
    var rest := PrintAll(parents, f, f.children[i], level + 1, path + {i});
    forall x | x in rest ensures x.level > level {
      var _ := PrintAllUnder(parents, f, f.children[i], level + 1, path + {i}, x);
    }
    NoTops(rest, level);
    TopsConcat([Line(i, level)], rest, level);
    assert [Line(i, level)][..0] == [];
  }

  /** A list is printed in its own order. */
  lemma {:induction false} AllTops(parents: seq<Parent>, f: Forest, tasks: seq<nat>, level: nat, path: set<nat>)
    requires Hung(parents, f) && AtLevel(parents, tasks, level) && PathOk(parents, path, level)
    ensures Tops(PrintAll(parents, f, tasks, level, path), level) == tasks
    decreases |tasks|
  {
    hide PrintLevel;
    if tasks != [] {
      var init, last := tasks[..|tasks| - 1], tasks[|tasks| - 1];
      AllTops(parents, f, init, level, path);
      LevelTops(parents, f, last, level, path);
      TopsConcat(PrintAll(parents, f, init, level, path), PrintLevel(parents, f, last, level, path), level);
    }
  }

  // The order of the lists.

  /** Task i is on the chain of parents that starts at task k. */
  ghost predicate OnChain(parents: seq<Parent>, k: nat, i: nat)
    requires ParentsOk(parents)
  {
    k < |parents| && exists s: nat :: Up(parents, k, s) == i
  }

  /** On the chain of some task before the k-th. */
  ghost predicate Reached(parents: seq<Parent>, k: nat, i: nat)
    requires ParentsOk(parents)
  {
    exists m: nat :: m < k && OnChain(parents, m, i)
  }

  /** No task of the list was reached before an earlier one of it. */
  ghost predicate Ordered(parents: seq<Parent>, tasks: seq<nat>)
    requires ParentsOk(parents)
  {
    forall a, b, k: nat | 0 <= a < b < |tasks| && Reached(parents, k, tasks[b]) :: Reached(parents, k, tasks[a])
  }

  ghost predicate AllOrdered(parents: seq<Parent>, f: Forest)
    requires ParentsOk(parents) && Sized(f, |parents|)
  {
    Ordered(parents, f.roots) && forall j: nat | j < |parents| :: Ordered(parents, f.children[j])
  }

  /** While the chain of task k is followed: what was reached before is listed, what is listed is reached by now. */
  ghost predicate Following(parents: seq<Parent>, f: Forest, k: nat)
    requires ParentsOk(parents) && Sized(f, |parents|)
  {
    forall i: nat | i < |parents| ::
      (Reached(parents, k, i) ==> f.listed[i]) && (f.listed[i] ==> Reached(parents, k + 1, i))
  }

  /** The parents of listed tasks are listed, but for the task that is looked at. */
  ghost predicate ClosedBut(parents: seq<Parent>, f: Forest, i: nat)
    requires ParentsOk(parents) && Sized(f, |parents|)
  {
    forall t: nat | t < |parents| && f.listed[t] && parents[t].At? ::
      f.listed[parents[t].index] || parents[t].index == i
  }

  ghost predicate Closed(parents: seq<Parent>, f: Forest)
    requires ParentsOk(parents) && Sized(f, |parents|)
  {
    forall t: nat | t < |parents| && f.listed[t] && parents[t].At? :: f.listed[parents[t].index]
  }

  lemma Later(parents: seq<Parent>, k: nat, m: nat, i: nat)
    requires ParentsOk(parents) && k <= m && Reached(parents, k, i)
    ensures Reached(parents, m, i)
  {
    var n: nat :| n < k && OnChain(parents, n, i);
    assert n < m;
  }

  /** A task that is only now reached goes behind all that are listed. */
  lemma AppendOrdered(parents: seq<Parent>, tasks: seq<nat>, i: nat, k: nat)
    requires ParentsOk(parents) && Ordered(parents, tasks) && !Reached(parents, k, i)
    requires forall t | t in tasks :: Reached(parents, k + 1, t)
    ensures Ordered(parents, tasks + [i])
  {
    var r := tasks + [i];
    forall a, b, m: nat | 0 <= a < b < |r| && Reached(parents, m, r[b]) ensures Reached(parents, m, r[a]) {
      assert r[a] == tasks[a];
      if b == |tasks| {
        if m <= k { Later(parents, m, k, i); }
        assert tasks[a] in tasks;
        Later(parents, k + 1, m, r[a]);
      }
    }
  }

  lemma ChainStep(parents: seq<Parent>, k: nat, i: nat)
    requires ParentsOk(parents) && OnChain(parents, k, i) && i < |parents| && parents[i].At?
    ensures OnChain(parents, k, parents[i].index)
  {
    var s: nat :| Up(parents, k, s) == i;
    UpStep(parents, k, s);
    assert Up(parents, k, s + 1) == parents[i].index;
  }

  lemma HangFollows(parents: seq<Parent>, f: Forest, i: nat, j: nat, k: nat)
    requires TaskForest.Inv(parents, f) && i < |parents| && !f.listed[i] && parents[i] == At(j) &&
        OnChain(parents, k, i)
    requires AllOrdered(parents, f) && Following(parents, f, k) && ClosedBut(parents, f, i)
    ensures var g := Hang(f, i, j); AllOrdered(parents, g) && Following(parents, g, k) && ClosedBut(parents, g, j)
  {
    hide Ordered;
    assert Reached(parents, k + 1, i);
    assert !Reached(parents, k, i);
    assert ChildrenOk(parents, f, j);
    AppendOrdered(parents, f.children[j], i, k);
  }

  lemma {:induction false} LinkFollows(parents: seq<Parent>, f: Forest, i: nat, k: nat)
    requires TaskForest.Inv(parents, f) && i < |parents| && OnChain(parents, k, i)
    requires AllOrdered(parents, f) && Following(parents, f, k) && ClosedBut(parents, f, i)
    ensures var (g, o) := Link(parents, f, i);
            && AllOrdered(parents, g) && Following(parents, g, k)
            && (o.Listed? ==> Closed(parents, g))
            && (o.LastInChain? ==> OnChain(parents, k, o.task) && ClosedBut(parents, g, o.task))
    decreases Unlisted(f)
  {
    hide TaskForest.Inv, AllOrdered, Following, OnChain;
    InvSized(parents, f);
    if !f.listed[i] && parents[i].At? {
      var j := parents[i].index;
      HangKeeps(parents, f, i, j);
      HangShrinks(f, i, j);
      HangFollows(parents, f, i, j, k);
      ChainStep(parents, k, i);
      LinkFollows(parents, Hang(f, i, j), j, k);
    }
  }

  lemma RootFollows(parents: seq<Parent>, f: Forest, r: nat, k: nat)
    requires TaskForest.Inv(parents, f) && r < |parents| && !f.listed[r] && parents[r].Root? && OnChain(parents, k, r)
    requires AllOrdered(parents, f) && Following(parents, f, k) && ClosedBut(parents, f, r)
    ensures var g := AddRoot(f, r); AllOrdered(parents, g) && Following(parents, g, k) && Closed(parents, g)
  {
    hide Ordered;
    assert Reached(parents, k + 1, r);
    assert !Reached(parents, k, r);
    AppendOrdered(parents, f.roots, r, k);
  }

  lemma {:induction false} ChainListed(parents: seq<Parent>, f: Forest, k: nat, s: nat)
    requires ParentsOk(parents) && Sized(f, |parents|) && Closed(parents, f) && k < |parents| && f.listed[k]
    ensures f.listed[Up(parents, k, s)]
    decreases s
  {
    if s > 0 && parents[k].At? { ChainListed(parents, f, parents[k].index, s - 1); }
  }

  /** After the chain of task k: exactly what the chains up to it reach is listed. */
  lemma NextFollows(parents: seq<Parent>, f: Forest, k: nat)
    requires ParentsOk(parents) && Sized(f, |parents|) && k < |parents|
    requires Following(parents, f, k) && Closed(parents, f) && f.listed[k]
    ensures Following(parents, f, k + 1)
  {
    forall i: nat | i < |parents|
      ensures (Reached(parents, k + 1, i) ==> f.listed[i]) && (f.listed[i] ==> Reached(parents, k + 2, i))
    {
      if Reached(parents, k + 1, i) {
        var m: nat :| m < k + 1 && OnChain(parents, m, i);
        if m == k {
          var s: nat :| Up(parents, k, s) == i;
          ChainListed(parents, f, k, s);
        } else {
          assert Reached(parents, k, i);
        }
        Later(parents, k + 1, k + 2, i);
      }
    }
  }

  lemma {:induction false} LinkFromOrdered(parents: seq<Parent>, f: Forest, k: nat)
    requires TaskForest.Inv(parents, f) && k <= |parents| && AllOrdered(parents, f)
    requires Following(parents, f, k) && Closed(parents, f) && forall i | 0 <= i < k :: f.listed[i]
    ensures var (g, err) := LinkFrom(parents, f, k); !err ==> AllOrdered(parents, g)
    decreases |parents| - k
  {
    hide TaskForest.Inv, AllOrdered, Following, Closed, ClosedBut, OnChain, Link;
    InvSized(parents, f);
    if k < |parents| {
      if f.listed[k] {
        NextFollows(parents, f, k);
        LinkFromOrdered(parents, f, k + 1);
      } else {
        SelfOnChain(parents, k);
        ClosedIsBut(parents, f, k);
        LinkKeeps(parents, f, k);
        LinkFollows(parents, f, k, k);
        var (g, o) := Link(parents, f, k);
        match o
        case NoEntry =>
        case Listed =>
          NextFollows(parents, g, k);
          LinkFromOrdered(parents, g, k + 1);
        case LastInChain(r) =>
          AddRootKeeps(parents, g, r);
          RootFollows(parents, g, r, k);
          NextFollows(parents, AddRoot(g, r), k);
          LinkFromOrdered(parents, AddRoot(g, r), k + 1);
      }
    }
  }

  lemma SelfOnChain(parents: seq<Parent>, k: nat)
    requires ParentsOk(parents) && k < |parents|
    ensures OnChain(parents, k, k)
  {
    assert Up(parents, k, 0) == k;
  }

  lemma ClosedIsBut(parents: seq<Parent>, f: Forest, i: nat)
    requires ParentsOk(parents) && Sized(f, |parents|) && Closed(parents, f)
    ensures ClosedBut(parents, f, i)
  {
  }

  /** For every parent relation: the roots and the children of each task come in the order they are reached. */
  lemma LinkingOrdered(threads: seq<Thread>)
    ensures var parents := Parents(threads);
            var (f, err) := LinkFrom(parents, Empty(|parents|), 0);
            !err ==> AllOrdered(parents, f)
  {
    hide LinkFrom;
    var parents := Parents(threads);
    EmptyOk(parents);
    LinkFromOrdered(parents, Empty(|parents|), 0);
  }
}
