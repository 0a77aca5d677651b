/** The cycle search shared by the hierarchy and placement checks (compiler.rs, `mark_relation_cycles`). */
module CycleMarker {
  import opened Machine
  import opened Ordering
  import opened FunctionalGraph

  /** What a plan points to: the position of another plan, and the relation that says so. */
  datatype Edge = Edge(target: nat, relation: nat)

  /** Targets are positions and no relation makes two edges. */
  ghost predicate Proper(edges: seq<Option<Edge>>) {
    && (forall x | 0 <= x < |edges| && edges[x].Some? :: edges[x].value.target < |edges|)
    && (forall x, y | 0 <= x < y < |edges| && edges[x].Some? && edges[y].Some? ::
          edges[x].value.relation != edges[y].value.relation)
  }

  ghost function Graph(edges: seq<Option<Edge>>): map<nat, nat> {
    map x: nat | x < |edges| && edges[x].Some? :: edges[x].value.target
  }

  ghost predicate Cyclic(edges: seq<Option<Edge>>, x: nat) { OnCycle<nat>(Graph(edges), x) }

  /** The walk so far: `path` follows edges from `start` to `current`, and `positions` inverts it. */
  ghost predicate Walking(
    edges: seq<Option<Edge>>, start: nat, path: seq<nat>, positions: map<nat, nat>, current: nat)
  {
    && current < |edges|
    && (forall p | 0 <= p < |path| :: path[p] < |edges| && path[p] in positions && positions[path[p]] == p)
    && (forall x | x in positions :: positions[x] < |path| && path[positions[x]] == x)
    && Chain(Graph(edges), path + [current])
    && (path + [current])[0] == start
  }

  lemma WalkingExtends(edges: seq<Option<Edge>>, start: nat, path: seq<nat>, positions: map<nat, nat>, current: nat)
    requires Proper(edges) && Walking(edges, start, path, positions, current) && current !in positions
    requires edges[current].Some?
    ensures Walking(edges, start, path + [current], positions[current := |path|], edges[current].value.target)
  {
    var more, g := path + [current] + [edges[current].value.target], Graph(edges);
    forall i | 0 <= i < |more| - 1 ensures more[i] in g && g[more[i]] == more[i + 1] {
      if i < |path| { assert (path + [current])[i] == more[i] && (path + [current])[i + 1] == more[i + 1]; }
    }
  }

  /** The walk from `start`: the positions of the cycle it runs into, or none if the edges end. */
  method FollowEdges(edges: seq<Option<Edge>>, start: nat) returns (cycle: seq<nat>)
    requires Proper(edges) && start < |edges|
    ensures forall x | x in cycle :: Cyclic(edges, x)
    ensures Cyclic(edges, start) ==> start in cycle
  {
    ghost var g, all := Graph(edges), Below(|edges|);
    var path: seq<nat>, positions: map<nat, nat>, current := [], map[], start;
    while current !in positions
      invariant Walking(edges, start, path, positions, current)
      decreases all - positions.Keys
    {
      BelowIs(|edges|);
      if edges[current].None? {
        EndedChainNotOnCycle(g, path + [current]);
        return [];
      }
      WalkingExtends(edges, start, path, positions, current);
      assert current in all - positions.Keys;
      assert positions[current := |path|].Keys == positions.Keys + {current};
      positions, path, current := positions[current := |path|], path + [current], edges[current].value.target;
    }
    var from := positions[current];
    cycle := path[from..];
    CloseWalk(edges, start, path, positions, current);
  }

  lemma CloseWalk(edges: seq<Option<Edge>>, start: nat, path: seq<nat>, positions: map<nat, nat>, current: nat)
    requires Walking(edges, start, path, positions, current) && current in positions
    ensures positions[current] <= |path| && forall x | x in path[positions[current]..] :: Cyclic(edges, x)
    ensures Cyclic(edges, start) ==> start in path[positions[current]..]
  {
    var g, from := Graph(edges), positions[current];
    var chain := path + [current];
    assert Chain(g, path) by {
      assert forall i | 0 <= i < |path| :: chain[i] == path[i];
    }
    assert chain[|path| - 1] == path[|path| - 1] && chain[|path|] == current;
    forall x | x in path[from..] ensures OnCycle(g, x) {
      var q :| from <= q < |path| && path[q] == x;
      ClosedChainCycles(g, path, from, q);
    }
    if OnCycle(g, start) { StartOnCycle(g, path, from); }
  }

  /** `order` lists distinct positions on cycles, and `reported` is the set of their relations. */
  ghost predicate Reported(edges: seq<Option<Edge>>, order: seq<nat>, reported: set<nat>) {
    && NoDuplicates(order)
    && (forall x | x in order :: Cyclic(edges, x) && edges[x].value.relation in reported)
    && (forall r | r in reported :: exists x :: x in order && edges[x].value.relation == r)
  }

  /**
   * Every position on a cycle is listed exactly once, and no other position is listed, not even one
   * on a path that leads into a cycle.
   */
  method MarkCycles(edges: seq<Option<Edge>>) returns (order: seq<nat>)
    requires Proper(edges)
    ensures NoDuplicates(order)
    ensures forall x: nat :: x in order <==> Cyclic(edges, x)
  {
    var reported: set<nat> := {};
    order := [];
    for start := 0 to |edges|
      invariant Reported(edges, order, reported)
      invariant forall x: nat | x < start && Cyclic(edges, x) :: x in order
    {
      var cycle := FollowEdges(edges, start);
      ghost var earlier := order;
      for q := 0 to |cycle|
        invariant Reported(edges, order, reported)
        invariant earlier <= order && forall p | 0 <= p < q :: cycle[p] in order
      {
        var x := cycle[q];
        assert x in cycle;
        if edges[x].value.relation !in reported {
          reported := reported + {edges[x].value.relation};
          order := order + [x];
        }
      }
    }
  }
}
