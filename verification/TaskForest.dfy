/**
 `perf report --tasks`: every task is hung under that of its parent, following each chain of
 parents up to a task already hung, and the tasks without a parent are listed as roots.
 */
module TaskForest {
  import opened Options

  datatype Thread = Thread(tid: int, ppid: int)

  /** The parent of a task: none, one that is not known, or another task. */
  datatype Parent = Root | Missing | At(index: nat)

  function FindThread(threads: seq<Thread>, tid: int): (r: Option<nat>)
    ensures r.Some? ==> r.value < |threads| && threads[r.value].tid == tid
    ensures r.None? ==> forall i | 0 <= i < |threads| :: threads[i].tid != tid
  {
    if threads == [] then None
    else if threads[|threads| - 1].tid == tid then Some(|threads| - 1)
    else FindThread(threads[..|threads| - 1], tid)
  }

  function ParentOf(threads: seq<Thread>, i: nat): (p: Parent)
    requires i < |threads|
    ensures p.Root? <==> threads[i].ppid == -1
    ensures p.Missing? <==> threads[i].ppid != -1 && forall j | 0 <= j < |threads| :: threads[j].tid != threads[i].ppid
    ensures p.At? ==> p.index < |threads| && threads[p.index].tid == threads[i].ppid
  {
    if threads[i].ppid == -1 then Root
    else
      match FindThread(threads, threads[i].ppid)
      case None => Missing
      case Some(j) => At(j)
  }

  predicate ParentsOk(parents: seq<Parent>) {
    forall i | 0 <= i < |parents| && parents[i].At? :: parents[i].index < |parents|
  }

  function Parents(threads: seq<Thread>): (r: seq<Parent>)
    ensures ParentsOk(r) && |r| == |threads|
  {
    seq(|threads|, i requires 0 <= i < |threads| => ParentOf(threads, i))
  }

  // Linking.

  /** Which tasks are in some list, the children of each, and the roots. */
  datatype Forest = Forest(listed: seq<bool>, children: seq<seq<nat>>, roots: seq<nat>)

  /** How following a chain ends: at a listed task, at a task without a parent, or at an unknown parent. */
  datatype Outcome = Listed | LastInChain(task: nat) | NoEntry

  predicate Sized(f: Forest, n: nat) {
    |f.listed| == n && |f.children| == n
  }

  function Empty(n: nat): (f: Forest)
    ensures Sized(f, n)
  {
    Forest(seq(n, _ => false), seq(n, _ => []), [])
  }

  function Unlisted(f: Forest): set<nat> {
    set i: nat | i < |f.listed| && !f.listed[i]
  }

  function Hang(f: Forest, i: nat, j: nat): (g: Forest)
    requires i < |f.listed| && j < |f.children|
    ensures Sized(f, |f.listed|) ==> Sized(g, |f.listed|)
  {
    f.(listed := f.listed[i := true], children := f.children[j := f.children[j] + [i]])
  }

  lemma HangShrinks(f: Forest, i: nat, j: nat)
    requires i < |f.listed| && j < |f.children| && !f.listed[i]
    ensures Unlisted(Hang(f, i, j)) < Unlisted(f)
  {
    assert i in Unlisted(f);
  }

  function Link(parents: seq<Parent>, f: Forest, i: nat): (r: (Forest, Outcome))
    requires ParentsOk(parents) && Sized(f, |parents|) && i < |parents|
    ensures Sized(r.0, |parents|) && (r.1.LastInChain? ==> r.1.task < |parents|)
    decreases Unlisted(f)
  {
    if f.listed[i] then (f, Listed)
    else
      match parents[i]
      case Root => (f, LastInChain(i))
      case Missing => (f, NoEntry)
      case At(j) => HangShrinks(f, i, j); Link(parents, Hang(f, i, j), j)
  }

  function AddRoot(f: Forest, r: nat): (g: Forest)
    requires r < |f.listed|
    ensures Sized(f, |f.listed|) ==> Sized(g, |f.listed|)
  {
    f.(listed := f.listed[r := true], roots := f.roots + [r])
  }

  /** The loop over the tasks from the k-th on; the flag says that a parent was not found. */
  function LinkFrom(parents: seq<Parent>, f: Forest, k: nat): (r: (Forest, bool))
    requires ParentsOk(parents) && Sized(f, |parents|) && k <= |parents|
    ensures Sized(r.0, |parents|)
    decreases |parents| - k
  {
    if k == |parents| then (f, false)
    else if f.listed[k] then LinkFrom(parents, f, k + 1)
    else
      var (g, o) := Link(parents, f, k);
      match o
      case NoEntry => (g, true)
      case Listed => LinkFrom(parents, g, k + 1)
      case LastInChain(r) => LinkFrom(parents, AddRoot(g, r), k + 1)
  }

  // What the links always are.

  predicate Distinct(s: seq<nat>) {
    forall a, b | 0 <= a < b < |s| :: s[a] != s[b]
  }

  /** The children of a task are the listed tasks whose parent it is, each once. */
  predicate ChildrenOk(parents: seq<Parent>, f: Forest, j: nat)
    requires Sized(f, |parents|) && j < |parents|
  {
    && Distinct(f.children[j])
    && (forall c | c in f.children[j] :: c < |parents| && f.listed[c] && parents[c] == At(j))
    && (forall c: nat | c < |parents| && f.listed[c] && parents[c] == At(j) :: c in f.children[j])
  }

  predicate RootsOk(parents: seq<Parent>, f: Forest)
    requires Sized(f, |parents|)
  {
    && Distinct(f.roots)
    && (forall r | r in f.roots :: r < |parents| && f.listed[r] && parents[r].Root?)
    && (forall r: nat | r < |parents| && f.listed[r] && parents[r].Root? :: r in f.roots)
  }

  predicate Inv(parents: seq<Parent>, f: Forest) {
    && ParentsOk(parents) && Sized(f, |parents|)
    && (forall j: nat | j < |parents| :: ChildrenOk(parents, f, j))
    && RootsOk(parents, f)
    && (forall i: nat | i < |parents| && f.listed[i] :: !parents[i].Missing?)
  }

  lemma HangKeeps(parents: seq<Parent>, f: Forest, i: nat, j: nat)
    requires Inv(parents, f) && i < |parents| && !f.listed[i] && parents[i] == At(j)
    ensures Inv(parents, Hang(f, i, j))
  {
    var g := Hang(f, i, j);
    forall k: nat | k < |parents| ensures ChildrenOk(parents, g, k) {
      assert ChildrenOk(parents, f, k);
    }
  }

  lemma AddRootKeeps(parents: seq<Parent>, f: Forest, r: nat)
    requires Inv(parents, f) && r < |parents| && !f.listed[r] && parents[r].Root?
    ensures Inv(parents, AddRoot(f, r))
  {
    var g := AddRoot(f, r);
    forall k: nat | k < |parents| ensures ChildrenOk(parents, g, k) {
      assert ChildrenOk(parents, f, k);
    }
  }

  ghost predicate SomeMissing(parents: seq<Parent>) {
    exists i | 0 <= i < |parents| :: parents[i].Missing?
  }

  /** Following a chain lists every task on the way, and ends even if the chain runs in a circle. */
  lemma {:induction false} LinkKeeps(parents: seq<Parent>, f: Forest, i: nat)
    requires Inv(parents, f) && i < |parents|
    ensures var (g, o) := Link(parents, f, i);
            && Inv(parents, g)
            && (forall k: nat | k < |parents| && f.listed[k] :: g.listed[k])
            && (o.LastInChain? ==> !g.listed[o.task] && parents[o.task].Root?)
            && (o.NoEntry? ==> SomeMissing(parents))
            && (!o.NoEntry? ==> g.listed[i] || o == LastInChain(i))
    decreases Unlisted(f)
  {
    hide Inv;
    assert ParentsOk(parents) && Sized(f, |parents|) by { InvSized(parents, f); }
    if !f.listed[i] && parents[i].At? {
      var j := parents[i].index;
      HangKeeps(parents, f, i, j);
      HangShrinks(f, i, j);
      LinkKeeps(parents, Hang(f, i, j), j);
    }
  }

  lemma InvSized(parents: seq<Parent>, f: Forest)
    requires Inv(parents, f)
    ensures ParentsOk(parents) && Sized(f, |parents|)
  {
  }

  predicate AllListed(f: Forest) {
    forall i | 0 <= i < |f.listed| :: f.listed[i]
  }

  lemma {:induction false} LinkFromKeeps(parents: seq<Parent>, f: Forest, k: nat)
    requires Inv(parents, f) && k <= |parents| && forall i | 0 <= i < k :: f.listed[i]
    ensures var (g, err) := LinkFrom(parents, f, k);
            if err then SomeMissing(parents) else Inv(parents, g) && AllListed(g)
    decreases |parents| - k
  {
    hide Inv, Link;
    assert ParentsOk(parents) && Sized(f, |parents|) by { InvSized(parents, f); }
    if k < |parents| {
      if f.listed[k] {
        LinkFromKeeps(parents, f, k + 1);
      } else {
        LinkKeeps(parents, f, k);
        var (g, o) := Link(parents, f, k);
        match o
        case NoEntry =>
        case Listed => LinkFromKeeps(parents, g, k + 1);
        case LastInChain(r) =>
          AddRootKeeps(parents, g, r);
          LinkFromKeeps(parents, AddRoot(g, r), k + 1);
      }
    }
  }

  lemma EmptyOk(parents: seq<Parent>)
    requires ParentsOk(parents)
    ensures Inv(parents, Empty(|parents|))
  {
  }

  /**
   For every parent relation, also one with circles: linking fails exactly when some parent is
   unknown, and otherwise every task is in exactly the list it belongs to.
   */
  lemma LinkingComplete(threads: seq<Thread>)
    ensures var parents := Parents(threads);
            var (f, err) := LinkFrom(parents, Empty(|parents|), 0);
            (err <==> SomeMissing(parents)) && (!err ==> Inv(parents, f) && AllListed(f))
  {
    hide LinkFrom;
    var parents := Parents(threads);
    EmptyOk(parents);
    LinkFromKeeps(parents, Empty(|parents|), 0);
  }
}
