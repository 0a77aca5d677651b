/** The compiler's checking passes in order, proved against the definition of a problem (compiler.rs). */
module Diagnosis {
  import opened Machine
  import opened Ordering
  import opened FunctionalGraph
  import opened Protocol
  import opened CompilationReport
  import opened Planning
  import opened Relations
  import opened Placements
  import opened Issues
  import opened Acceptance

  /** Plans as `plan_entities` leaves them: one per declared entity, nothing attached. */
  ghost predicate Fresh(im: Imagination, plans: seq<EntityPlan>, index: map<Text, nat>) {
    && Indexed(plans, index) && index.Keys == Keys(im)
    && forall x | 0 <= x < |plans| ::
         plans[x].key in Keys(im) && plans[x] == PlanEntity(EntityOf(im, plans[x].key), plans[x].entityId)
  }

  /** A plan with its relation attached and its placement computed. */
  ghost function FinalPlan(pf: Platform, im: Imagination, p: EntityPlan): EntityPlan
    requires Acyclic(PlacementGraph(im)) && p.key in Keys(im) && Placed(pf, im, p.key).Ok?
  {
    Attach(p, im, |im.relations|).(transform := Placed(pf, im, p.key).value)
  }

  ghost function AttachAll(plans: seq<EntityPlan>, im: Imagination): seq<EntityPlan> {
    AttachUpTo(plans, im, |im.relations|)
  }

  ghost function FinalPlans(pf: Platform, im: Imagination, plans: seq<EntityPlan>): seq<EntityPlan>
    requires Acyclic(PlacementGraph(im))
    requires forall x | 0 <= x < |plans| :: plans[x].key in Keys(im) && Placed(pf, im, plans[x].key).Ok?
  {
    seq(|plans|, x requires 0 <= x < |plans| => FinalPlan(pf, im, plans[x]))
  }

  lemma {:induction false} AttachedAreAssigned(im: Imagination, base: seq<EntityPlan>, index: map<Text, nat>)
    requires Fresh(im, base, index)
    ensures Assigned(im, AttachAll(base, im), index)
  {
    var plans := AttachAll(base, im);
    forall x | 0 <= x < |base| ensures plans[x].key == base[x].key && PlanOf(im, plans[x]) {
      AttachFacts(base[x], im, |im.relations|);
    }
    SameKeysIndexed(base, plans, index);
  }

  /** The passes before placement: every static issue and nothing else. */
  method StaticPasses(im: Imagination, scene: SceneView, entities: array<EntityPlan>, index: map<Text, nat>)
    returns (unresolved: seq<Unresolved>)
    requires Fresh(im, entities[..], index)
    modifies entities
    ensures entities[..] == AttachAll(old(entities[..]), im)
    ensures Assigned(im, entities[..], index)
    ensures forall u :: u in unresolved <==>
      u in ConstraintIssues(im, scene, |im.constraints|) || StaticIssue(im, u)
  {
    ghost var base := entities[..];
    ghost var cs := ConstraintIssues(im, scene, |im.constraints|);
    unresolved := AssignRelations(im, entities, index, ConstraintIssues(im, scene, |im.constraints|));
    var plans := entities[..];
    assert plans == AttachAll(base, im);
    AttachedAreAssigned(im, base, index);
    forall p | p in plans && p.placement.Some? ensures p.placement.value.anchor in index {
      PlanFields(im, p);
    }
    unresolved := RejectParentedAnchors(plans, index, unresolved);
    ghost var before := unresolved;
    EdgesProper(im, plans, index, true);
    EdgesProper(im, plans, index, false);
    ghost var parents, placed;
    unresolved, parents := MarkRelationCycles(plans, index, ParentEdge, HierarchyCycle, unresolved);
    unresolved, placed := MarkRelationCycles(plans, index, PlacementEdge, PlacementCycle, unresolved);
    StaticPassesExact(im, plans, index, cs, parents, placed);
  }

  lemma {:induction false} StaticPassesExact(
    im: Imagination, plans: seq<EntityPlan>, index: map<Text, nat>, cs: seq<Unresolved>, parents: seq<nat>,
    placed: seq<nat>)
    requires Assigned(im, plans, index)
    requires MarkedExactly(im, plans, index, true, parents) && MarkedExactly(im, plans, index, false, placed)
    ensures var all := cs + AssignIssues(im, |im.relations|) + AnchorIssues(plans, index, |plans|)
        + CycleIssues(plans, ParentEdge, HierarchyCycle, parents)
        + CycleIssues(plans, PlacementEdge, PlacementCycle, placed);
      forall u :: u in all <==> u in cs || StaticIssue(im, u)
  {
    var hierarchy := CycleIssues(plans, ParentEdge, HierarchyCycle, parents);
    var placement := CycleIssues(plans, PlacementEdge, PlacementCycle, placed);
    forall u
      ensures u in AssignIssues(im, |im.relations|) + AnchorIssues(plans, index, |plans|) + hierarchy + placement
        <==> StaticIssue(im, u)
    {
      CycleIssuesExact(im, plans, index, true, parents, u);
      CycleIssuesExact(im, plans, index, false, placed, u);
      PassesExact(im, plans, index, hierarchy, placement, u);
    }
  }

  lemma {:induction false} StaticIssueOf(im: Imagination, i: nat)
    requires i < |im.relations| && StaticCode(im, i).Some?
    ensures StaticIssue(im, RelationIssue(im, StaticCode(im, i).value, i))
  {
    assert HasStaticIssue(im, i, RelationIssue(im, StaticCode(im, i).value, i));
  }

  lemma {:induction false} CleanIffNothingStatic(im: Imagination, scene: SceneView)
    ensures Clean(im, scene) <==>
      ConstraintIssues(im, scene, |im.constraints|) == [] && forall u :: !StaticIssue(im, u)
  {
    ConstraintIssuesEmpty(im, scene, |im.constraints|);
    assert (forall c | c in im.constraints :: ConstraintHolds(scene, c)) <==>
      forall i | 0 <= i < |im.constraints| :: ConstraintHolds(scene, im.constraints[i]);
    if i :| 0 <= i < |im.relations| && StaticCode(im, i).Some? { StaticIssueOf(im, i); }
  }

  /** The static issues are all of the problems unless there are none of them. */
  lemma {:induction false} StaticProblems(pf: Platform, im: Imagination, scene: SceneView, unresolved: seq<Unresolved>)
    requires forall u :: u in unresolved <==> u in ConstraintIssues(im, scene, |im.constraints|) || StaticIssue(im, u)
    ensures unresolved == [] <==> Clean(im, scene)
    ensures unresolved != [] ==> Elements(unresolved) == Elements(Problems(pf, im, scene))
  {
    CleanIffNothingStatic(im, scene);
    var cs := ConstraintIssues(im, scene, |im.constraints|);
    assert cs != [] ==> cs[0] in cs;
    assert unresolved != [] ==> unresolved[0] in unresolved;
    if !Clean(im, scene) {
      forall u ensures u in unresolved <==> u in Problems(pf, im, scene) {
        RelationProblemsExact(pf, im, scene, |im.relations|, u);
        if i :| 0 <= i < |im.relations| && HasStaticIssue(im, i, u) { assert HasProblem(pf, im, scene, i, u); }
        if i :| 0 <= i < |im.relations| && HasProblem(pf, im, scene, i, u) { assert HasStaticIssue(im, i, u); }
      }
    }
  }

  lemma {:induction false} FailuresExact(final: seq<Result<Transform, Failure>>, n: nat, u: Unresolved)
    requires n <= |final|
    ensures u in Failures(final, n) <==> exists x :: 0 <= x < n && final[x].Err? && u == IssueOf(final[x].error)
  {
    if n > 0 { FailuresExact(final, n - 1, u); }
  }

  lemma {:induction false} FailureIsProblem(pf: Platform, im: Imagination, scene: SceneView, k: Text)
    requires Clean(im, scene) && Acyclic(PlacementGraph(im)) && k in Keys(im) && Placed(pf, im, k).Err?
    ensures var f := Placed(pf, im, k).error; HasProblem(pf, im, scene, f.relationIndex, IssueOf(f))
  {
    FailureSubjectPlaced(pf, im, k);
    OwnerIsFirst(im, Placed(pf, im, k).error.subject, |im.relations|);
  }

  lemma {:induction false} ProblemIsFailure(pf: Platform, im: Imagination, scene: SceneView, i: nat, u: Unresolved)
    requires Clean(im, scene) && Acyclic(PlacementGraph(im)) && HasProblem(pf, im, scene, i, u)
    ensures var k := im.relations[i].Subject();
      k in Keys(im) && Placed(pf, im, k).Err? && u == IssueOf(Placed(pf, im, k).error)
  {
    FailureSubjectPlaced(pf, im, im.relations[i].Subject());
  }

  /** Placement reports every relation that fails by itself, and nothing else. */
  lemma {:induction false} PlacementProblems(
    pf: Platform, im: Imagination, scene: SceneView, plans: seq<EntityPlan>, index: map<Text, nat>, u: Unresolved)
    requires Clean(im, scene) && Assigned(im, plans, index) && Acyclic(PlacementGraph(im))
    ensures u in Failures(PlacedAll(pf, im, plans), |plans|) <==> u in Problems(pf, im, scene)
  {
    if u in Failures(PlacedAll(pf, im, plans), |plans|) { FailureReported(pf, im, scene, plans, index, u); }
    if u in Problems(pf, im, scene) { ReportedFailure(pf, im, scene, plans, index, u); }
  }

  lemma {:induction false} FailureReported(
    pf: Platform, im: Imagination, scene: SceneView, plans: seq<EntityPlan>, index: map<Text, nat>, u: Unresolved)
    requires Clean(im, scene) && Assigned(im, plans, index) && Acyclic(PlacementGraph(im))
    requires u in Failures(PlacedAll(pf, im, plans), |plans|)
    ensures u in Problems(pf, im, scene)
  {
    var final := PlacedAll(pf, im, plans);
    FailuresExact(final, |plans|, u);
    var x :| 0 <= x < |plans| && final[x].Err? && u == IssueOf(final[x].error);
    FailureIsProblem(pf, im, scene, plans[x].key);
    RelationProblemsExact(pf, im, scene, |im.relations|, u);
  }

  lemma {:induction false} ReportedFailure(
    pf: Platform, im: Imagination, scene: SceneView, plans: seq<EntityPlan>, index: map<Text, nat>, u: Unresolved)
    requires Clean(im, scene) && Assigned(im, plans, index) && Acyclic(PlacementGraph(im))
    requires u in Problems(pf, im, scene)
    ensures u in Failures(PlacedAll(pf, im, plans), |plans|)
  {
    CleanIffNothingStatic(im, scene);
    RelationProblemsExact(pf, im, scene, |im.relations|, u);
    var i :| 0 <= i < |im.relations| && HasProblem(pf, im, scene, i, u);
    ProblemIsFailure(pf, im, scene, i, u);
    var final, x := PlacedAll(pf, im, plans), index[im.relations[i].Subject()];
    assert final[x].Err? && u == IssueOf(final[x].error);
    FailuresExact(final, |plans|, u);
  }

  lemma {:induction false} AllPlacementProblems(
    pf: Platform, im: Imagination, scene: SceneView, plans: seq<EntityPlan>, index: map<Text, nat>)
    requires Clean(im, scene) && Assigned(im, plans, index) && Acyclic(PlacementGraph(im))
    ensures Elements(Failures(PlacedAll(pf, im, plans), |plans|)) == Elements(Problems(pf, im, scene))
  {
    forall u ensures u in Failures(PlacedAll(pf, im, plans), |plans|) <==> u in Problems(pf, im, scene) {
      PlacementProblems(pf, im, scene, plans, index, u);
    }
  }

  /**
   * All passes: the reported entries are exactly the problems, and when there are none every plan
   * carries its relation and its final transform.
   */
  method Diagnose(
    pf: Platform, im: Imagination, scene: SceneView, entities: array<EntityPlan>, index: map<Text, nat>)
    returns (unresolved: seq<Unresolved>)
    requires Fresh(im, entities[..], index)
    modifies entities
    ensures Elements(unresolved) == Elements(Problems(pf, im, scene))
    ensures unresolved == [] ==> Finished(pf, im, scene, old(entities[..]), entities[..])
  {
    ghost var base := entities[..];
    unresolved := StaticPasses(im, scene, entities, index);
    StaticProblems(pf, im, scene, unresolved);
    if unresolved == [] {
      NoStaticIssueIsAcyclic(im);
      PlacedAreOutcomes(pf, im, entities[..], index);
      AllPlacementProblems(pf, im, scene, entities[..], index);
      ghost var plans, final := entities[..], PlacedAll(pf, im, entities[..]);
      unresolved := ResolvePlacements(pf, entities, index, Heights(im, plans), final);
      EmptyElements(unresolved, Problems(pf, im, scene));
      if unresolved == [] { SettledAreFinished(pf, im, scene, base, index); }
    }
  }

  /** `Diagnose` on a copy of the planned entities. */
  method DiagnosePlans(pf: Platform, im: Imagination, scene: SceneView, base: seq<EntityPlan>, index: map<Text, nat>)
    returns (unresolved: seq<Unresolved>, plans: seq<EntityPlan>)
    requires Fresh(im, base, index)
    ensures Elements(unresolved) == Elements(Problems(pf, im, scene))
    ensures unresolved == [] ==> Finished(pf, im, scene, base, plans)
  {
    var entities := new EntityPlan[|base|](x requires 0 <= x < |base| => base[x]);
    assert entities[..] == base;
    unresolved := Diagnose(pf, im, scene, entities, index);
    plans := entities[..];
  }

  /** The imagination is compilable and every plan carries its relation and final transform. */
  ghost predicate Finished(
    pf: Platform, im: Imagination, scene: SceneView, before: seq<EntityPlan>, after: seq<EntityPlan>)
  {
    && Compilable(pf, im, scene)
    && (forall x | 0 <= x < |before| :: before[x].key in Keys(im))
    && after == FinalPlans(pf, im, before)
  }

  lemma {:induction false} SettledAreFinished(
    pf: Platform, im: Imagination, scene: SceneView, base: seq<EntityPlan>, index: map<Text, nat>)
    requires Problems(pf, im, scene) == [] && Fresh(im, base, index)
    requires Acyclic(PlacementGraph(im))
    requires forall x | 0 <= x < |base| :: AttachAll(base, im)[x].key in Keys(im)
    ensures Finished(pf, im, scene, base, Settle(AttachAll(base, im), PlacedAll(pf, im, AttachAll(base, im))))
  {
    NoProblemsIffCompilable(pf, im, scene);
    SettledAreFinal(pf, im, base);
  }

  lemma {:induction false} SettledAreFinal(pf: Platform, im: Imagination, base: seq<EntityPlan>)
    requires Acyclic(PlacementGraph(im))
    requires forall k | k in Keys(im) :: Placed(pf, im, k).Ok?
    requires forall x | 0 <= x < |base| :: base[x].key in Keys(im) && Unattached(base[x])
    ensures forall x | 0 <= x < |base| :: AttachAll(base, im)[x].key in Keys(im)
    ensures Settle(AttachAll(base, im), PlacedAll(pf, im, AttachAll(base, im))) == FinalPlans(pf, im, base)
  {
    forall x | 0 <= x < |base| ensures AttachAll(base, im)[x].key == base[x].key {
      AttachFacts(base[x], im, |im.relations|);
    }
  }

  lemma {:induction false} EmptyElements<T>(s: seq<T>, t: seq<T>)
    requires Elements(s) == Elements(t)
    ensures s == [] <==> t == []
  {
    assert s != [] ==> s[0] in Elements(s);
    assert t != [] ==> t[0] in Elements(t);
  }
}
