/** Exactly which problems the compiler reports, and when it reports none (compiler.rs). */
module Issues {
  import opened Machine
  import opened FunctionalGraph
  import opened CycleMarker
  import opened Protocol
  import opened CompilationReport
  import opened Planning
  import opened Relations
  import opened Placements

  // ----- scene constraints -----

  predicate ConstraintHolds(scene: SceneView, c: Constraint) {
    match c
    case EntityExists(id) => id in scene.entityIds
    case EntityAbsent(id) => id !in scene.entityIds
  }

  function ConstraintIssue(c: Constraint, i: nat): Unresolved {
    Unresolved(if c.EntityExists? then RequiredEntityMissing else RequiredEntityPresent,
      None, Some(i), None, None, Some(c.entityId))
  }

  /** `check_scene_constraints` over the first `n` constraints. */
  function ConstraintIssues(im: Imagination, scene: SceneView, n: nat): seq<Unresolved>
    requires n <= |im.constraints|
  {
    if n == 0 then []
    else
      ConstraintIssues(im, scene, n - 1)
      + (if ConstraintHolds(scene, im.constraints[n - 1]) then [] else [ConstraintIssue(im.constraints[n - 1], n - 1)])
  }

  /** `u` reports that constraint `i` is violated: a required entity is missing, or an excluded one is present. */
  ghost predicate Violated(im: Imagination, scene: SceneView, i: nat, u: Unresolved) {
    && i < |im.constraints| && u.constraintIndex == Some(i)
    && u.relationIndex.None? && u.entityKey.None? && u.relatedKey.None?
    && match im.constraints[i]
       case EntityExists(id) => id !in scene.entityIds && u.code.RequiredEntityMissing? && u.entityId == Some(id)
       case EntityAbsent(id) => id in scene.entityIds && u.code.RequiredEntityPresent? && u.entityId == Some(id)
  }

  lemma {:induction false} ConstraintIssuesExact(im: Imagination, scene: SceneView, n: nat, u: Unresolved)
    requires n <= |im.constraints|
    ensures u in ConstraintIssues(im, scene, n) <==> exists i | 0 <= i < n :: Violated(im, scene, i, u)
  {
    if n > 0 {
      ConstraintIssuesExact(im, scene, n - 1, u);
      assert !ConstraintHolds(scene, im.constraints[n - 1]) && u == ConstraintIssue(im.constraints[n - 1], n - 1)
        <==> Violated(im, scene, n - 1, u);
    }
  }

  // ----- the one problem a relation can have -----

  /** Problems visible before any placement is computed. */
  ghost function StaticCode(im: Imagination, i: nat): Option<UnresolvedCode>
    requires i < |im.relations|
  {
    var r := im.relations[i];
    if AssignCode(im, i).Some? then AssignCode(im, i)
    else if !r.Parent? && r.Target() in ParentGraph(im) then Some(ConflictingRelation)
    else if r.Parent? && OnCycle(ParentGraph(im), r.Subject()) then Some(HierarchyCycle)
    else if !r.Parent? && OnCycle(PlacementGraph(im), r.Subject()) then Some(PlacementCycle)
    else None
  }

  /** A relation is accepted by assignment exactly when it owns its subject. */
  lemma {:induction false} OwnsItsSubject(im: Imagination, i: nat)
    requires i < |im.relations|
    ensures AssignCode(im, i).None? <==> FinalOwner(im, im.relations[i].Subject()) == Some(i)
    ensures AssignCode(im, i).None? ==> WellFormed(im, i)
  {
    OwnerIsFirst(im, im.relations[i].Subject(), i);
    OwnerIsFirst(im, im.relations[i].Subject(), |im.relations|);
  }

  /** An earlier well-formed relation has the same subject. */
  ghost predicate Preceded(im: Imagination, i: nat)
    requires i < |im.relations|
  {
    exists j | 0 <= j < i :: WellFormed(im, j) && im.relations[j].Subject() == im.relations[i].Subject()
  }

  /** Exactly when each code is the static problem of a relation. */
  lemma {:induction false} StaticCodeExactly(im: Imagination, i: nat)
    requires i < |im.relations|
    ensures var r, c := im.relations[i], StaticCode(im, i);
      && (c == Some(UnknownEntityReference) <==> !(r.Subject() in Keys(im) && r.Target() in Keys(im)))
      && (c == Some(SelfRelation) <==> r.Subject() in Keys(im) && r.Subject() == r.Target())
      && (c == Some(ConflictingRelation) <==>
          WellFormed(im, i) && (Preceded(im, i) || (!r.Parent? && r.Target() in ParentGraph(im))))
      && (c == Some(HierarchyCycle) <==>
          WellFormed(im, i) && !Preceded(im, i) && r.Parent? && OnCycle(ParentGraph(im), r.Subject()))
      && (c == Some(PlacementCycle) <==>
          && WellFormed(im, i) && !Preceded(im, i) && !r.Parent? && r.Target() !in ParentGraph(im)
          && OnCycle(PlacementGraph(im), r.Subject()))
      && (c.Some? ==>
          c.value in {UnknownEntityReference, SelfRelation, ConflictingRelation, HierarchyCycle, PlacementCycle})
  {
    OwnerIsFirst(im, im.relations[i].Subject(), i);
  }

  ghost predicate StaticIssue(im: Imagination, u: Unresolved) {
    exists i :: 0 <= i < |im.relations| && HasStaticIssue(im, i, u)
  }

  ghost predicate HasStaticIssue(im: Imagination, i: nat, u: Unresolved) {
    i < |im.relations| && StaticCode(im, i).Some? && u == RelationIssue(im, StaticCode(im, i).value, i)
  }

  // ----- each pass reports what the definition says -----

  ghost predicate HasAssignIssue(im: Imagination, i: nat, u: Unresolved) {
    i < |im.relations| && AssignCode(im, i).Some? && u == RelationIssue(im, AssignCode(im, i).value, i)
  }

  lemma {:induction false} AssignIssuesExact(im: Imagination, n: nat, u: Unresolved)
    requires n <= |im.relations|
    ensures u in AssignIssues(im, n) <==> exists i :: 0 <= i < n && HasAssignIssue(im, i, u)
  {
    if n > 0 {
      AssignIssuesExact(im, n - 1, u);
      assert AssignCode(im, n - 1).Some? && u == RelationIssue(im, AssignCode(im, n - 1).value, n - 1)
        ==> HasAssignIssue(im, n - 1, u);
    }
  }

  lemma {:induction false} AnchorIssuesExact(plans: seq<EntityPlan>, index: map<Text, nat>, n: nat, u: Unresolved)
    requires n <= |plans|
    ensures u in AnchorIssues(plans, index, n) <==>
      exists x :: 0 <= x < n && AnchorIssue(plans, index, x) == Some(u)
  {
    if n > 0 { AnchorIssuesExact(plans, index, n - 1, u); }
  }

  /** An anchor issue is the conflict of the relation that owns the placed entity. */
  lemma {:induction false} AnchorIssueStatic(im: Imagination, plans: seq<EntityPlan>, index: map<Text, nat>, x: nat)
    requires Assigned(im, plans, index) && x < |plans| && AnchorIssue(plans, index, x).Some?
    ensures StaticIssue(im, AnchorIssue(plans, index, x).value)
  {
    var p := plans[x];
    PlanFields(im, p);
    var i := p.placement.value.relationIndex;
    PlanFields(im, plans[index[p.placement.value.anchor]]);
    PlacementGraphClosed(im, p.key);
    OwnsItsSubject(im, i);
    assert HasStaticIssue(im, i, AnchorIssue(plans, index, x).value);
  }

  lemma {:induction false} StaticAnchorIssue(im: Imagination, plans: seq<EntityPlan>, index: map<Text, nat>, i: nat)
    requires Assigned(im, plans, index) && i < |im.relations| && AssignCode(im, i).None?
    requires !im.relations[i].Parent? && im.relations[i].Target() in ParentGraph(im)
    ensures RelationIssue(im, ConflictingRelation, i) in AnchorIssues(plans, index, |plans|)
  {
    OwnsItsSubject(im, i);
    var x := index[im.relations[i].Subject()];
    PlanFields(im, plans[x]);
    PlanFields(im, plans[index[im.relations[i].Target()]]);
    assert AnchorIssue(plans, index, x) == Some(RelationIssue(im, ConflictingRelation, i));
    AnchorIssuesExact(plans, index, |plans|, RelationIssue(im, ConflictingRelation, i));
  }

  ghost function EdgeKind(parent: bool): EdgeOf { if parent then ParentEdge else PlacementEdge }

  ghost function RelationGraph(im: Imagination, parent: bool): map<Text, Text> {
    if parent then ParentGraph(im) else PlacementGraph(im)
  }

  ghost function CycleCode(parent: bool): UnresolvedCode { if parent then HierarchyCycle else PlacementCycle }

  /** The edge of a plan is its entity's edge in the relation graph. */
  lemma {:induction false} EdgeFields(
    im: Imagination, plans: seq<EntityPlan>, index: map<Text, nat>, parent: bool, x: nat)
    requires Assigned(im, plans, index) && x < |plans|
    ensures EdgeKind(parent)(plans[x]).Some? <==> plans[x].key in RelationGraph(im, parent)
    ensures EdgeKind(parent)(plans[x]).Some? ==>
      var (key, i) := EdgeKind(parent)(plans[x]).value;
      && key == RelationGraph(im, parent)[plans[x].key] && key in index && i < |im.relations|
      && FinalOwner(im, plans[x].key) == Some(i) && im.relations[i].Subject() == plans[x].key
      && im.relations[i].Target() == key && im.relations[i].Parent? == parent
  {
    PlanFields(im, plans[x]);
    OwnerIsFirst(im, plans[x].key, |im.relations|);
  }

  lemma {:induction false} EdgesDeclared(im: Imagination, plans: seq<EntityPlan>, index: map<Text, nat>, parent: bool)
    requires Assigned(im, plans, index)
    ensures forall x | 0 <= x < |plans| && EdgeKind(parent)(plans[x]).Some? ::
      EdgeKind(parent)(plans[x]).value.0 in index
  {
    forall x | 0 <= x < |plans| && EdgeKind(parent)(plans[x]).Some?
      ensures EdgeKind(parent)(plans[x]).value.0 in index
    {
      EdgeFields(im, plans, index, parent, x);
    }
  }

  /** The edge at a position, as the marker sees it. */
  lemma {:induction false} EdgeAt(im: Imagination, plans: seq<EntityPlan>, index: map<Text, nat>, parent: bool, x: nat)
    requires Assigned(im, plans, index) && x < |plans|
    requires forall y | 0 <= y < |plans| && EdgeKind(parent)(plans[y]).Some? ::
      EdgeKind(parent)(plans[y]).value.0 in index
    ensures var edges := EdgesOf(plans, index, EdgeKind(parent));
      && (edges[x].Some? <==> plans[x].key in RelationGraph(im, parent))
      && (edges[x].Some? ==>
            && RelationGraph(im, parent)[plans[x].key] in index
            && edges[x].value.target == index[RelationGraph(im, parent)[plans[x].key]]
            && FinalOwner(im, plans[x].key) == Some(edges[x].value.relation)
            && edges[x].value.relation < |im.relations|
            && im.relations[edges[x].value.relation].Subject() == plans[x].key)
  {
    EdgeFields(im, plans, index, parent, x);
  }

  lemma {:induction false} EdgesProper(im: Imagination, plans: seq<EntityPlan>, index: map<Text, nat>, parent: bool)
    requires Assigned(im, plans, index)
    ensures forall x | 0 <= x < |plans| && EdgeKind(parent)(plans[x]).Some? ::
      EdgeKind(parent)(plans[x]).value.0 in index
    ensures Proper(EdgesOf(plans, index, EdgeKind(parent)))
    ensures Relabels(RelationGraph(im, parent), Graph(EdgesOf(plans, index, EdgeKind(parent))), index)
  {
    EdgesDeclared(im, plans, index, parent);
    EdgesAreProper(im, plans, index, parent);
    EdgesRelabel(im, plans, index, parent);
  }

  lemma {:induction false} EdgesAreProper(im: Imagination, plans: seq<EntityPlan>, index: map<Text, nat>, parent: bool)
    requires Assigned(im, plans, index)
    requires forall x | 0 <= x < |plans| && EdgeKind(parent)(plans[x]).Some? ::
      EdgeKind(parent)(plans[x]).value.0 in index
    ensures Proper(EdgesOf(plans, index, EdgeKind(parent)))
  {
    var edges := EdgesOf(plans, index, EdgeKind(parent));
    forall x | 0 <= x < |edges| && edges[x].Some? ensures edges[x].value.target < |edges| {
      EdgeAt(im, plans, index, parent, x);
    }
    forall x, y | 0 <= x < y < |edges| && edges[x].Some? && edges[y].Some?
      ensures edges[x].value.relation != edges[y].value.relation
    {
      EdgeAt(im, plans, index, parent, x);
      EdgeAt(im, plans, index, parent, y);
      assert index[plans[x].key] != index[plans[y].key];
    }
  }

  lemma {:induction false} EdgesRelabel(im: Imagination, plans: seq<EntityPlan>, index: map<Text, nat>, parent: bool)
    requires Assigned(im, plans, index)
    requires forall x | 0 <= x < |plans| && EdgeKind(parent)(plans[x]).Some? ::
      EdgeKind(parent)(plans[x]).value.0 in index
    ensures Relabels(RelationGraph(im, parent), Graph(EdgesOf(plans, index, EdgeKind(parent))), index)
  {
    var edges := EdgesOf(plans, index, EdgeKind(parent));
    forall k | k in index
      ensures k in RelationGraph(im, parent) <==> index[k] in Graph(edges)
      ensures k in RelationGraph(im, parent) ==>
        && RelationGraph(im, parent)[k] in index
        && index[RelationGraph(im, parent)[k]] == Graph(edges)[index[k]]
    {
      EdgeAt(im, plans, index, parent, index[k]);
    }
  }

  ghost predicate MarkedExactly(
    im: Imagination, plans: seq<EntityPlan>, index: map<Text, nat>, parent: bool, order: seq<nat>)
    requires Assigned(im, plans, index)
  {
    EdgesProper(im, plans, index, parent);
    && (forall i | 0 <= i < |order| :: order[i] < |plans| && EdgeKind(parent)(plans[order[i]]).Some?)
    && (forall x: nat :: x in order <==> Cyclic(EdgesOf(plans, index, EdgeKind(parent)), x))
  }

  lemma {:induction false} CyclicMeansOnCycle(
    im: Imagination, plans: seq<EntityPlan>, index: map<Text, nat>, parent: bool, x: nat)
    requires Assigned(im, plans, index) && x < |plans|
    ensures (EdgesProper(im, plans, index, parent); Cyclic(EdgesOf(plans, index, EdgeKind(parent)), x))
      <==> OnCycle(RelationGraph(im, parent), plans[x].key)
  {
    EdgesProper(im, plans, index, parent);
    RelabelOnCycle(RelationGraph(im, parent), Graph(EdgesOf(plans, index, EdgeKind(parent))), index, plans[x].key);
  }

  lemma {:induction false} MarkedIssueIsCycle(
    im: Imagination, plans: seq<EntityPlan>, index: map<Text, nat>, parent: bool, order: seq<nat>, j: nat)
    requires Assigned(im, plans, index) && MarkedExactly(im, plans, index, parent, order) && j < |order|
    ensures HasCycleIssue(im, parent, EdgeKind(parent)(plans[order[j]]).value.1,
              CycleIssues(plans, EdgeKind(parent), CycleCode(parent), order)[j])
  {
    var x := order[j];
    assert x in order;
    CyclicMeansOnCycle(im, plans, index, parent, x);
    EdgeFields(im, plans, index, parent, x);
  }

  lemma {:induction false} CycleIssueIsMarked(
    im: Imagination, plans: seq<EntityPlan>, index: map<Text, nat>, parent: bool, order: seq<nat>, i: nat,
    u: Unresolved)
    requires Assigned(im, plans, index) && MarkedExactly(im, plans, index, parent, order)
    requires HasCycleIssue(im, parent, i, u)
    ensures u in CycleIssues(plans, EdgeKind(parent), CycleCode(parent), order)
  {
    var x := index[im.relations[i].Subject()];
    CyclicMeansOnCycle(im, plans, index, parent, x);
    EdgeFields(im, plans, index, parent, x);
    assert x in order;
    var j :| 0 <= j < |order| && order[j] == x;
    assert CycleIssues(plans, EdgeKind(parent), CycleCode(parent), order)[j] == u;
  }

  /** The reported cycle issues are those of the relations on a cycle of the relation graph. */
  lemma {:induction false} CycleIssuesExact(
    im: Imagination, plans: seq<EntityPlan>, index: map<Text, nat>, parent: bool, order: seq<nat>, u: Unresolved)
    requires Assigned(im, plans, index) && MarkedExactly(im, plans, index, parent, order)
    ensures u in CycleIssues(plans, EdgeKind(parent), CycleCode(parent), order) <==>
      exists i :: 0 <= i < |im.relations| && HasCycleIssue(im, parent, i, u)
  {
    var issues := CycleIssues(plans, EdgeKind(parent), CycleCode(parent), order);
    if u in issues {
      var j :| 0 <= j < |order| && issues[j] == u;
      MarkedIssueIsCycle(im, plans, index, parent, order, j);
    }
    if i :| 0 <= i < |im.relations| && HasCycleIssue(im, parent, i, u) {
      CycleIssueIsMarked(im, plans, index, parent, order, i, u);
    }
  }

  ghost predicate HasCycleIssue(im: Imagination, parent: bool, i: nat, u: Unresolved) {
    && i < |im.relations| && FinalOwner(im, im.relations[i].Subject()) == Some(i)
    && im.relations[i].Parent? == parent && im.relations[i].Subject() in Keys(im)
    && OnCycle(RelationGraph(im, parent), im.relations[i].Subject())
    && u == RelationIssue(im, CycleCode(parent), i)
  }

  /** On a cycle, every target is itself on the cycle's graph. */
  lemma {:induction false} CycleTargetStays<T>(g: map<T, T>, x: T)
    requires OnCycle(g, x) && g[x] != x
    ensures g[x] in g
  {
    ReachesFirst(g, g[x], x);
  }

  /**
   * All passes together report exactly the static issues: each relation has at most one, because an
   * entity whose anchor is parented cannot lie on a placement cycle.
   */
  lemma {:induction false} PassesExact(
    im: Imagination, plans: seq<EntityPlan>, index: map<Text, nat>, hierarchy: seq<Unresolved>,
    placement: seq<Unresolved>, u: Unresolved)
    requires Assigned(im, plans, index)
    requires u in hierarchy <==> exists i :: 0 <= i < |im.relations| && HasCycleIssue(im, true, i, u)
    requires u in placement <==> exists i :: 0 <= i < |im.relations| && HasCycleIssue(im, false, i, u)
    ensures u in AssignIssues(im, |im.relations|) + AnchorIssues(plans, index, |plans|) + hierarchy + placement
      <==> StaticIssue(im, u)
  {
    var all := AssignIssues(im, |im.relations|) + AnchorIssues(plans, index, |plans|) + hierarchy + placement;
    if u in all { ReportedIsStatic(im, plans, index, u, u in hierarchy, u in placement); }
    if StaticIssue(im, u) { StaticIsReported(im, plans, index, u); }
  }

  lemma {:induction false} ReportedIsStatic(
    im: Imagination, plans: seq<EntityPlan>, index: map<Text, nat>, u: Unresolved, inHierarchy: bool, inPlacement: bool)
    requires Assigned(im, plans, index)
    requires inHierarchy ==> exists i :: 0 <= i < |im.relations| && HasCycleIssue(im, true, i, u)
    requires inPlacement ==> exists i :: 0 <= i < |im.relations| && HasCycleIssue(im, false, i, u)
    requires u in AssignIssues(im, |im.relations|) || u in AnchorIssues(plans, index, |plans|) || inHierarchy
      || inPlacement
    ensures StaticIssue(im, u)
  {
    if u in AssignIssues(im, |im.relations|) {
      AssignIssuesExact(im, |im.relations|, u);
      var i :| 0 <= i < |im.relations| && HasAssignIssue(im, i, u);
      assert HasStaticIssue(im, i, u);
    } else if u in AnchorIssues(plans, index, |plans|) {
      AnchorIssuesExact(plans, index, |plans|, u);
      var x :| 0 <= x < |plans| && AnchorIssue(plans, index, x) == Some(u);
      AnchorIssueStatic(im, plans, index, x);
    } else if inHierarchy {
      var i :| 0 <= i < |im.relations| && HasCycleIssue(im, true, i, u);
      CycleIssueStatic(im, true, i, u);
    } else {
      var i :| 0 <= i < |im.relations| && HasCycleIssue(im, false, i, u);
      CycleIssueStatic(im, false, i, u);
    }
  }

  lemma {:induction false} CycleIssueStatic(im: Imagination, parent: bool, i: nat, u: Unresolved)
    requires HasCycleIssue(im, parent, i, u)
    ensures StaticIssue(im, u)
  {
    OwnsItsSubject(im, i);
    if !parent {
      CycleTargetStays(PlacementGraph(im), im.relations[i].Subject());
      assert im.relations[i].Target() !in ParentGraph(im);
    }
    assert HasStaticIssue(im, i, u);
  }

  lemma {:induction false} StaticIsReported(
    im: Imagination, plans: seq<EntityPlan>, index: map<Text, nat>, u: Unresolved)
    requires Assigned(im, plans, index) && StaticIssue(im, u)
    ensures u in AssignIssues(im, |im.relations|) || u in AnchorIssues(plans, index, |plans|)
      || exists i, parent :: 0 <= i < |im.relations| && HasCycleIssue(im, parent, i, u)
  {
    var i :| 0 <= i < |im.relations| && HasStaticIssue(im, i, u);
    OwnsItsSubject(im, i);
    var r := im.relations[i];
    if AssignCode(im, i).Some? {
      AssignIssuesExact(im, |im.relations|, u);
      assert HasAssignIssue(im, i, u);
    } else if !r.Parent? && r.Target() in ParentGraph(im) {
      StaticAnchorIssue(im, plans, index, i);
    } else {
      assert HasCycleIssue(im, r.Parent?, i, u);
    }
  }
}
