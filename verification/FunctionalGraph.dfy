/**
 * Partial functional graphs: every node has at most one outgoing edge.
 * Parent edges and placement anchors of an imagination, and the parent
 * index of a scene, are such graphs.
 */
module FunctionalGraph {
  import opened Machine

  /** The node `n` edges after `x`, if the walk lasts that long. */
  function Walk<T>(g: map<T, T>, x: T, n: nat): Option<T> {
    if n == 0 then Some(x) else if x in g then Walk(g, g[x], n - 1) else None
  }

  ghost predicate Reaches<T>(g: map<T, T>, x: T, y: T) {
    exists n: nat :: Walk(g, x, n) == Some(y)
  }

  ghost predicate OnCycle<T>(g: map<T, T>, x: T) {
    x in g && Reaches(g, g[x], x)
  }

  ghost predicate Acyclic<T>(g: map<T, T>) {
    forall x | x in g :: !OnCycle(g, x)
  }

  ghost predicate Subgraph<T>(h: map<T, T>, g: map<T, T>) {
    forall x | x in h :: x in g && h[x] == g[x]
  }

  lemma {:induction false} WalkAppend<T>(g: map<T, T>, x: T, m: nat, n: nat)
    requires Walk(g, x, m).Some?
    ensures Walk(g, x, m + n) == Walk(g, Walk(g, x, m).value, n)
    decreases m
  {
    if m > 0 { WalkAppend(g, g[x], m - 1, n); }
  }

  lemma ReachesSelf<T>(g: map<T, T>, x: T)
    ensures Reaches(g, x, x)
  {
    assert Walk(g, x, 0) == Some(x);
  }

  lemma ReachesTransitive<T>(g: map<T, T>, x: T, y: T, z: T)
    requires Reaches(g, x, y) && Reaches(g, y, z)
    ensures Reaches(g, x, z)
  {
    var m: nat :| Walk(g, x, m) == Some(y);
    var n: nat :| Walk(g, y, n) == Some(z);
    WalkAppend(g, x, m, n);
  }

  lemma ReachesStep<T>(g: map<T, T>, x: T)
    requires x in g
    ensures Reaches(g, x, g[x])
  {
    assert Walk(g, g[x], 0) == Some(g[x]);
    assert Walk(g, x, 1) == Some(g[x]);
  }

  /** A walk that is not at its end takes the first edge. */
  lemma ReachesFirst<T>(g: map<T, T>, x: T, y: T)
    requires Reaches(g, x, y) && x != y
    ensures x in g && Reaches(g, g[x], y)
  {
    var n: nat :| Walk(g, x, n) == Some(y);
    assert Walk(g, g[x], n - 1) == Some(y);
  }

  lemma {:induction false} SubgraphWalk<T>(h: map<T, T>, g: map<T, T>, x: T, n: nat)
    requires Subgraph(h, g) && Walk(h, x, n).Some?
    ensures Walk(g, x, n) == Walk(h, x, n)
    decreases n
  {
    if n > 0 { SubgraphWalk(h, g, h[x], n - 1); }
  }

  lemma SubgraphReaches<T>(h: map<T, T>, g: map<T, T>, x: T, y: T)
    requires Subgraph(h, g) && Reaches(h, x, y)
    ensures Reaches(g, x, y)
  {
    var n: nat :| Walk(h, x, n) == Some(y);
    SubgraphWalk(h, g, x, n);
  }

  lemma SubgraphAcyclic<T>(h: map<T, T>, g: map<T, T>)
    requires Subgraph(h, g) && Acyclic(g)
    ensures Acyclic(h)
  {
    forall x | x in h ensures !OnCycle(h, x) {
      if OnCycle(h, x) {
        SubgraphReaches(h, g, h[x], x);
        assert OnCycle(g, x);
      }
    }
  }

  /** Number of edges left from `x`; each edge is consumed at most once, so it is total. */
  function Height<T>(g: map<T, T>, x: T): nat
    decreases |g|
  {
    if x in g then
      assert |(g - {x}).Keys| == |g.Keys - {x}|;
      1 + Height(g - {x}, g[x])
    else 0
  }

  lemma {:induction false} HeightAvoids<T>(g: map<T, T>, x: T, k: T)
    requires !Reaches(g, x, k)
    ensures Height(g - {k}, x) == Height(g, x)
    decreases |g|
  {
    ReachesSelf(g, x);
    if x in g {
      var h := g - {x};
      assert |h.Keys| == |g.Keys - {x}|;
      if Reaches(h, g[x], k) {
        SubgraphReaches(h, g, g[x], k);
        ReachesStep(g, x);
        ReachesTransitive(g, x, g[x], k);
      }
      HeightAvoids(h, g[x], k);
      assert (g - {k}) - {x} == h - {k};
    }
  }

  /** In an acyclic graph the height strictly decreases along every edge. */
  lemma HeightDecreases<T>(g: map<T, T>, x: T)
    requires Acyclic(g) && x in g
    ensures Height(g, x) == 1 + Height(g, g[x])
  {
    assert !OnCycle(g, x);
    HeightAvoids(g, g[x], x);
  }

  // ----- chains and cycles -----

  /** Consecutive nodes are joined by edges. */
  ghost predicate Chain<T>(g: map<T, T>, ks: seq<T>) {
    forall i | 0 <= i < |ks| - 1 :: ks[i] in g && g[ks[i]] == ks[i + 1]
  }

  lemma {:induction false} ChainReaches<T>(g: map<T, T>, ks: seq<T>, i: nat, j: nat)
    requires Chain(g, ks) && i <= j < |ks|
    ensures Reaches(g, ks[i], ks[j])
    decreases j - i
  {
    if i == j {
      ReachesSelf(g, ks[i]);
    } else {
      ChainReaches(g, ks, i + 1, j);
      ReachesStep(g, ks[i]);
      ReachesTransitive(g, ks[i], ks[i + 1], ks[j]);
    }
  }

  /** A chain whose last edge returns to position `c` closes a cycle through all later nodes. */
  lemma {:induction false} ClosedChainCycles<T>(g: map<T, T>, ks: seq<T>, c: nat, q: nat)
    requires Chain(g, ks) && c <= q < |ks|
    requires ks[|ks| - 1] in g && g[ks[|ks| - 1]] == ks[c]
    ensures OnCycle(g, ks[q])
  {
    ChainReaches(g, ks, c, q);
    if q < |ks| - 1 {
      ChainReaches(g, ks, q + 1, |ks| - 1);
      ReachesStep(g, ks[|ks| - 1]);
      ReachesTransitive(g, ks[q + 1], ks[|ks| - 1], ks[c]);
      ReachesTransitive(g, ks[q + 1], ks[c], ks[q]);
    }
  }

  lemma {:induction false} WalkReturns<T>(g: map<T, T>, x: T, y: T, n: nat)
    requires OnCycle(g, x) && Walk(g, x, n) == Some(y)
    ensures Reaches(g, y, x)
    decreases n
  {
    if n == 0 {
      ReachesSelf(g, x);
    } else {
      WalkPrefix(g, x, n);
      var z := Walk(g, x, n - 1).value;
      WalkReturns(g, x, z, n - 1);
      WalkAppend(g, x, n - 1, 1);
      assert z in g && Walk(g, g[z], 0) == Some(g[z]) && y == g[z];
      if z != x { ReachesFirst(g, z, x); }
    }
  }

  lemma {:induction false} WalkPrefix<T>(g: map<T, T>, x: T, n: nat)
    requires n > 0 && Walk(g, x, n).Some?
    ensures Walk(g, x, n - 1).Some?
    decreases n
  {
    if n > 1 { WalkPrefix(g, g[x], n - 1); }
  }

  /** Everything reachable from a node on a cycle leads back to it. */
  lemma CycleReturns<T>(g: map<T, T>, x: T, y: T)
    requires OnCycle(g, x) && Reaches(g, x, y)
    ensures Reaches(g, y, x)
  {
    var n: nat :| Walk(g, x, n) == Some(y);
    WalkReturns(g, x, y, n);
  }

  lemma {:induction false} ClosedSetTraps<T>(g: map<T, T>, s: set<T>, x: T, n: nat)
    requires forall k | k in s && k in g :: g[k] in s
    requires x in s && Walk(g, x, n).Some?
    ensures Walk(g, x, n).value in s
    decreases n
  {
    if n > 0 { ClosedSetTraps(g, s, g[x], n - 1); }
  }

  /** A duplicate-free chain that closes on position `c` has a start on a cycle only when `c` is the start. */
  lemma StartOnCycle<T>(g: map<T, T>, ks: seq<T>, c: nat)
    requires Chain(g, ks) && c < |ks|
    requires forall i, j | 0 <= i < j < |ks| :: ks[i] != ks[j]
    requires ks[|ks| - 1] in g && g[ks[|ks| - 1]] == ks[c]
    requires OnCycle(g, ks[0])
    ensures c == 0
  {
    ChainReaches(g, ks, 0, c);
    CycleReturns(g, ks[0], ks[c]);
    var s := set i | c <= i < |ks| :: ks[i];
    forall k | k in s && k in g ensures g[k] in s {
      var i :| c <= i < |ks| && ks[i] == k;
      assert i < |ks| - 1 ==> ks[i + 1] in s;
      assert ks[c] in s;
    }
    var n: nat :| Walk(g, ks[c], n) == Some(ks[0]);
    assert ks[c] in s;
    ClosedSetTraps(g, s, ks[c], n);
  }

  /** A chain that runs out of edges did not start on a cycle. */
  lemma EndedChainNotOnCycle<T>(g: map<T, T>, ks: seq<T>)
    requires Chain(g, ks) && ks != [] && ks[|ks| - 1] !in g
    ensures !OnCycle(g, ks[0])
  {
    if OnCycle(g, ks[0]) {
      ChainReaches(g, ks, 0, |ks| - 1);
      CycleReturns(g, ks[0], ks[|ks| - 1]);
    }
  }

  // ----- relabelling -----

  /** `f` relabels the nodes of `g` one to one as the nodes of `h` and carries edges to edges. */
  ghost predicate Relabels<A, B>(g: map<A, A>, h: map<B, B>, f: map<A, B>) {
    && (forall x, y | x in f && y in f && f[x] == f[y] :: x == y)
    && (forall x | x in f :: x in g <==> f[x] in h)
    && (forall x | x in f && x in g :: g[x] in f && f[g[x]] == h[f[x]])
  }

  lemma {:induction false} RelabelWalk<A, B>(g: map<A, A>, h: map<B, B>, f: map<A, B>, x: A, n: nat)
    requires Relabels(g, h, f) && x in f
    ensures Walk(g, x, n).Some? <==> Walk(h, f[x], n).Some?
    ensures Walk(g, x, n).Some? ==> Walk(g, x, n).value in f && Walk(h, f[x], n) == Some(f[Walk(g, x, n).value])
    decreases n
  {
    if n > 0 && x in g { RelabelWalk(g, h, f, g[x], n - 1); }
  }

  lemma RelabelOnCycle<A, B>(g: map<A, A>, h: map<B, B>, f: map<A, B>, x: A)
    requires Relabels(g, h, f) && x in f
    ensures OnCycle(g, x) <==> OnCycle(h, f[x])
  {
    if OnCycle(g, x) {
      var n: nat :| Walk(g, g[x], n) == Some(x);
      RelabelWalk(g, h, f, g[x], n);
    }
    if OnCycle(h, f[x]) {
      var n: nat :| Walk(h, h[f[x]], n) == Some(f[x]);
      RelabelWalk(g, h, f, g[x], n);
    }
  }

  lemma {:induction false} RelabelHeight<A, B>(g: map<A, A>, h: map<B, B>, f: map<A, B>, x: A)
    requires Relabels(g, h, f) && x in f
    ensures Height(g, x) == Height(h, f[x])
    decreases |g|
  {
    if x in g {
      assert |(g - {x}).Keys| == |g.Keys - {x}|;
      RelabelHeight(g - {x}, h - {f[x]}, f, g[x]);
    }
  }

  // ----- walks that end -----

  /** The walk from `x` ends after exactly `d` edges. */
  ghost predicate EndsAfter<T>(g: map<T, T>, x: T, d: nat) {
    Walk(g, x, d).Some? && Walk(g, x, d).value !in g
  }

  /** A walk that ends never was on a cycle, and its length is the height. */
  lemma {:induction false} EndsMeansHeight<T>(g: map<T, T>, x: T, d: nat)
    requires EndsAfter(g, x, d)
    ensures !OnCycle(g, x) && Height(g, x) == d
    decreases d
  {
    if OnCycle(g, x) {
      var y := Walk(g, x, d).value;
      CycleReturns(g, x, y);
      if y != x { ReachesFirst(g, y, x); }
    }
    if d > 0 {
      EndsMeansHeight(g, g[x], d - 1);
      HeightAvoids(g, g[x], x);
    }
  }
}
