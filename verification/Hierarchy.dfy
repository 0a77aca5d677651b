/** The depth check of the parent index (crates/cogniform-world/src/world.rs, `hierarchy_depths`). */
module Hierarchy {
  import opened Machine
  import opened Ordering
  import opened FunctionalGraph

  type Id = nat

  datatype HierarchyError = ParentNotFound | Cycle | DepthExceeded

  /** Every parent edge joins live entities. */
  ghost predicate Closed(live: set<Id>, parents: map<Id, Id>) {
    forall c | c in parents :: c in live && parents[c] in live
  }

  /** A forest over the live entities, no deeper than `maxDepth` edges. */
  ghost predicate Sound(live: set<Id>, parents: map<Id, Id>, maxDepth: nat) {
    Closed(live, parents) && Acyclic(parents) && forall x | x in live :: Height(parents, x) <= maxDepth
  }

  /** Every recorded depth is exact and within the bound. */
  ghost predicate Exact(parents: map<Id, Id>, depths: map<Id, nat>, maxDepth: nat) {
    forall x | x in depths :: EndsAfter(parents, x, depths[x]) && depths[x] <= maxDepth
  }

  lemma StepUp(parents: map<Id, Id>, x: Id, d: nat)
    requires x in parents && EndsAfter(parents, parents[x], d)
    ensures EndsAfter(parents, x, d + 1)
  {
  }

  lemma TooDeep(live: set<Id>, parents: map<Id, Id>, maxDepth: nat, x: Id, d: nat)
    requires x in live && EndsAfter(parents, x, d) && d > maxDepth
    ensures !Sound(live, parents, maxDepth)
  {
    EndsMeansHeight(parents, x, d);
  }

  /** `assign_path_depths`: a path of children below a node of known depth, filled from the top down. */
  method AssignPathDepths(
    live: set<Id>, parents: map<Id, Id>, known: map<Id, nat>, path: seq<Id>, top: Id, maxDepth: nat)
    returns (r: Result<map<Id, nat>, HierarchyError>)
    requires Exact(parents, known, maxDepth) && top in known && Chain(parents, path + [top])
    requires forall x | x in path :: x in live
    ensures r.Ok? ==> Exact(parents, r.value, maxDepth) && r.value.Keys == known.Keys + Elements(path)
    ensures r.Err? ==> !Sound(live, parents, maxDepth)
  {
    var depths, depth: nat := known, known[top];
    ghost var chain := path + [top];
    var n := |path|;
    while n > 0
      invariant 0 <= n <= |path|
      invariant Exact(parents, depths, maxDepth) && depths.Keys == known.Keys + Elements(path[n..])
      invariant EndsAfter(parents, chain[n], depth) && depth <= maxDepth
    {
      n := n - 1;
      assert path[n..] == [path[n]] + path[n + 1..];
      assert chain[n] in parents && parents[chain[n]] == chain[n + 1];
      StepUp(parents, chain[n], depth);
      depth := depth + 1;
      if depth > maxDepth {
        assert path[n] in path;
        TooDeep(live, parents, maxDepth, path[n], depth);
        return Err(DepthExceeded);
      }
      depths := depths[path[n] := depth];
    }
    assert path[0..] == path;
    return Ok(depths);
  }

  lemma ClosedPathIsCycle(live: set<Id>, parents: map<Id, Id>, path: seq<Id>, current: Id, maxDepth: nat)
    requires Chain(parents, path + [current]) && current in path
    ensures !Sound(live, parents, maxDepth)
  {
    var chain := path + [current];
    var c :| 0 <= c < |path| && path[c] == current;
    assert chain[|path| - 1] in parents && parents[chain[|path| - 1]] == chain[|path|];
    assert Chain(parents, path) by { assert forall i | 0 <= i < |path| :: chain[i] == path[i]; }
    ClosedChainCycles(parents, path, c, c);
  }

  /** The walk from one live entity up to a known depth or a root. */
  method DepthsFrom(live: set<Id>, parents: map<Id, Id>, known: map<Id, nat>, start: Id, maxDepth: nat)
    returns (r: Result<map<Id, nat>, HierarchyError>)
    requires Closed(live, parents) && Exact(parents, known, maxDepth) && start in live
    ensures r.Ok? ==>
      Exact(parents, r.value, maxDepth) && known.Keys <= r.value.Keys <= known.Keys + live && start in r.value
    ensures r.Err? ==> !Sound(live, parents, maxDepth)
  {
    var path: seq<Id>, current := [], start;
    while true
      invariant current in live && forall x | x in path :: x in live
      invariant Chain(parents, path + [current]) && (path + [current])[0] == start
      invariant NoDuplicates(path)
      decreases live - Elements(path)
    {
      if current in known {
        r := AssignPathDepths(live, parents, known, path, current, maxDepth);
        return;
      }
      if current in path {
        ClosedPathIsCycle(live, parents, path, current, maxDepth);
        return Err(Cycle);
      }
      ghost var chain := path + [current];
      assert Elements(chain) == Elements(path) + {current};
      if current !in parents {
        r := AssignPathDepths(live, parents, known[current := 0], path, current, maxDepth);
        return;
      }
      path := path + [current];
      current := parents[current];
      ExtendChain(parents, chain, current);
    }
  }

  lemma ExtendChain(parents: map<Id, Id>, chain: seq<Id>, next: Id)
    requires chain != [] && Chain(parents, chain)
    requires chain[|chain| - 1] in parents && parents[chain[|chain| - 1]] == next
    ensures Chain(parents, chain + [next])
  {
  }

  /**
   * `hierarchy_depths`: succeeds exactly on forests within the depth bound, with every depth exact.
   * `order` lists the live entities; only which failure is met first depends on it.
   */
  method HierarchyDepths(live: set<Id>, order: seq<Id>, parents: map<Id, Id>, maxDepth: nat)
    returns (r: Result<map<Id, nat>, HierarchyError>)
    requires Elements(order) == live
    ensures r.Ok? <==> Sound(live, parents, maxDepth)
    ensures r.Ok? ==> r.value.Keys == live && forall x | x in live :: r.value[x] == Height(parents, x)
  {
    if exists c | c in parents :: c !in live || parents[c] !in live {
      return Err(ParentNotFound);
    }
    var depths: map<Id, nat> := map[];
    for n := 0 to |order|
      invariant Exact(parents, depths, maxDepth) && depths.Keys <= live
      invariant forall i | 0 <= i < n :: order[i] in depths
    {
      assert order[n] in Elements(order);
      if order[n] !in depths {
        r := DepthsFrom(live, parents, depths, order[n], maxDepth);
        if r.Err? { return; }
        depths := r.value;
      }
    }
    forall x | x in live ensures x in depths && !OnCycle(parents, x) && Height(parents, x) == depths[x] {
      assert x in Elements(order);
      EndsMeansHeight(parents, x, depths[x]);
    }
    r := Ok(depths);
  }
}
