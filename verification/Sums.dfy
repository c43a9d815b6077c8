/** Sums of a measure over sequences and maps, and how an update, an insertion or a removal changes them. */
module Sums {

  function SumOf<T>(f: T -> int, s: seq<T>): int {
    if s == [] then 0 else SumOf(f, s[..|s| - 1]) + f(s[|s| - 1])
  }

  lemma {:induction false} SumConcat<T>(f: T -> int, a: seq<T>, b: seq<T>)
    ensures SumOf(f, a + b) == SumOf(f, a) + SumOf(f, b)
  {
    if b == [] {
      assert a + b == a;
    } else {
      SumConcat(f, a, b[..|b| - 1]);
      assert (a + b)[..|a + b| - 1] == a + b[..|b| - 1];
    }
  }

  lemma SumOne<T>(f: T -> int, x: T)
    ensures SumOf(f, [x]) == f(x)
  {
    assert SumOf(f, [x][..0]) == 0;
  }

  lemma SumAppend<T>(f: T -> int, s: seq<T>, x: T)
    ensures SumOf(f, s + [x]) == SumOf(f, s) + f(x)
  {
    assert (s + [x])[..|s|] == s;
  }

  lemma SumSplit<T>(f: T -> int, s: seq<T>, i: nat)
    requires i < |s|
    ensures SumOf(f, s) == SumOf(f, s[..i]) + f(s[i]) + SumOf(f, s[i + 1..])
  {
    SumConcat(f, s[..i], s[i..]);
    assert s == s[..i] + s[i..];
    SumConcat(f, [s[i]], s[i + 1..]);
    assert s[i..] == [s[i]] + s[i + 1..];
    SumOne(f, s[i]);
  }

  lemma SumUpdate<T>(f: T -> int, s: seq<T>, i: nat, x: T)
    requires i < |s|
    ensures SumOf(f, s[i := x]) == SumOf(f, s) - f(s[i]) + f(x)
  {
    SumSplit(f, s, i);
    SumSplit(f, s[i := x], i);
    assert s[i := x][..i] == s[..i] && s[i := x][i + 1..] == s[i + 1..];
  }

  lemma {:induction false} SumCong<T>(f: T -> int, g: T -> int, s: seq<T>)
    requires forall x | x in s :: f(x) == g(x)
    ensures SumOf(f, s) == SumOf(g, s)
  {
    if s != [] { SumCong(f, g, s[..|s| - 1]); }
  }

  lemma {:induction false} SumBounds<T>(f: T -> int, s: seq<T>, x: T)
    requires forall y | y in s :: f(y) >= 0
    ensures SumOf(f, s) >= 0
    ensures x in s ==> f(x) <= SumOf(f, s)
  {
    if s != [] {
      SumBounds(f, s[..|s| - 1], x);
      assert s == s[..|s| - 1] + [s[|s| - 1]];
    }
  }

  // Sums over the values of a map.

  ghost function SumMap<K, V>(f: V -> int, m: map<K, V>): int
    decreases |m|
  {
    if m == map[] then 0
    else
      var k :| k in m;
      f(m[k]) + SumMap(f, m - {k})
  }

  /** The sum does not depend on which key is taken first. */
  lemma {:induction false} SumMapAny<K, V>(f: V -> int, m: map<K, V>, k: K)
    requires k in m
    ensures SumMap(f, m) == f(m[k]) + SumMap(f, m - {k})
    decreases |m|
  {
    var k0 :| k0 in m && SumMap(f, m) == f(m[k0]) + SumMap(f, m - {k0});
    if k0 != k {
      SumMapAny(f, m - {k0}, k);
      SumMapAny(f, m - {k}, k0);
      assert m - {k0} - {k} == m - {k} - {k0};
    }
  }

  lemma SumMapPut<K, V>(f: V -> int, m: map<K, V>, k: K, v: V)
    ensures SumMap(f, m[k := v]) == SumMap(f, m) + f(v) - if k in m then f(m[k]) else 0
  {
    SumMapAny(f, m[k := v], k);
    if k in m {
      SumMapAny(f, m, k);
      assert m[k := v] - {k} == m - {k};
    } else {
      assert m[k := v] - {k} == m;
    }
  }

  lemma {:induction false} SumMapNonneg<K, V>(f: V -> int, m: map<K, V>)
    requires forall k | k in m :: f(m[k]) >= 0
    ensures SumMap(f, m) >= 0
    decreases |m|
  {
    if m != map[] {
      var k :| k in m;
      SumMapAny(f, m, k);
      SumMapNonneg(f, m - {k});
    }
  }

  lemma {:induction false} SumMapSame<K, V, W>(f: V -> int, m: map<K, V>, g: W -> int, n: map<K, W>)
    requires m.Keys == n.Keys && forall k | k in m :: f(m[k]) == g(n[k])
    ensures SumMap(f, m) == SumMap(g, n)
    decreases |m|
  {
    if m == map[] {
      assert n == map[];
    } else {
      var k :| k in m;
      SumMapAny(f, m, k);
      SumMapAny(g, n, k);
      assert (m - {k}).Keys == m.Keys - {k} && (n - {k}).Keys == n.Keys - {k};
      SumMapSame(f, m - {k}, g, n - {k});
    }
  }
}
