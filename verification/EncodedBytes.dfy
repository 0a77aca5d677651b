/** The exact number of bytes of a report's JSON, from its request and scene (compiler.rs, compilation codec.rs). */
module EncodedBytes {
  import opened Machine
  import opened Ordering
  import opened FunctionalGraph
  import opened Protocol
  import opened CompilationReport
  import opened Planning
  import opened Relations
  import opened Placements
  import opened Issues
  import opened Acceptance
  import opened Diagnosis
  import opened Emission
  import opened CompiledPatch
  import opened CompiledReport
  import opened JsonText
  import opened ReportJson
  import opened EncodedSizes

  // ----- explanations of planned entities -----

  function ExplanationSlots(es: seq<ImaginedEntity>, base: seq<EntityPlan>): nat
    requires |base| <= |es|
  {
    if base == [] then 0
    else ExplanationSlots(es, base[..|base| - 1]) + EntityExplanationSlots(es[|base| - 1], base[|base| - 1].entityId)
  }

  lemma {:induction false} ExplanationsTotal(es: seq<ImaginedEntity>, base: seq<EntityPlan>)
    requires |base| <= |es|
    ensures Sum(PlanDecisions(es, base), DecisionSlot) == ExplanationSlots(es, base)
  {
    if base != [] {
      var n := |base| - 1;
      ExplanationsTotal(es, base[..n]);
      EntityExplanationsTake(es[n], base[n].entityId);
      SumAppend(PlanDecisions(es, base[..n]), EntityDecisions(es[n], base[n].entityId), DecisionSlot);
    }
  }

  // ----- explanations of applied relations -----

  function AppliedCode(r: Relation): DecisionCode {
    match r
    case Parent(_, _) => ParentRelationApplied
    case Above(_, _, _) => AboveRelationApplied
    case RightOf(_, _, _) => RightOfRelationApplied
  }

  function AppliedDecision(im: Imagination, i: nat): Decision
    requires i < |im.relations|
  {
    Decision(AppliedCode(im.relations[i]), im.relations[i].Subject(), Some(i), None)
  }

  /** 63 bytes for each of the first `n` relations, with its code, its subject and its position. */
  function AppliedSlots(im: Imagination, n: nat): nat
    requires n <= |im.relations|
  {
    if n == 0 then 0
    else
      AppliedSlots(im, n - 1) + 63 + |DecisionName(AppliedCode(im.relations[n - 1]))|
      + EscapedBytes(im.relations[n - 1].Subject()) + |Decimal(n - 1)|
  }

  function AppliedDecisions(im: Imagination): seq<Decision> {
    seq(|im.relations|, i requires 0 <= i < |im.relations| => AppliedDecision(im, i))
  }

  lemma {:induction false} AppliedDecisionsTake(im: Imagination, n: nat)
    requires n <= |im.relations|
    ensures Sum(AppliedDecisions(im)[..n], DecisionSlot) == AppliedSlots(im, n)
  {
    if n > 0 {
      AppliedDecisionsTake(im, n - 1);
      SumTake(AppliedDecisions(im), n - 1, DecisionSlot);
    }
  }

  lemma {:induction false} FindExplained(plans: seq<EntityPlan>, d: Decision) returns (x: nat)
    requires d in RelationDecisions(plans)
    ensures x < |plans| && d in RelationDecision(plans[x])
  {
    var n := |plans| - 1;
    if d in RelationDecision(plans[n]) { x := n; } else { x := FindExplained(plans[..n], d); }
  }

  lemma {:induction false} ExplainedIsListed(plans: seq<EntityPlan>, x: nat, d: Decision)
    requires x < |plans| && d in RelationDecision(plans[x])
    ensures d in RelationDecisions(plans)
  {
    if x < |plans| - 1 { ExplainedIsListed(plans[..|plans| - 1], x, d); }
  }

  /** A final plan is explained by the relation that owns it. */
  lemma {:induction false} OwnerExplains(pf: Platform, im: Imagination, p: EntityPlan)
    requires Acyclic(PlacementGraph(im)) && p.key in Keys(im) && Placed(pf, im, p.key).Ok?
    requires p.parent.None? && p.parentRelation.None? && p.placement.None?
    ensures FinalOwner(im, p.key).Some? ==>
      && FinalOwner(im, p.key).value < |im.relations|
      && RelationDecision(FinalPlan(pf, im, p)) == [AppliedDecision(im, FinalOwner(im, p.key).value)]
    ensures FinalOwner(im, p.key).None? ==> RelationDecision(FinalPlan(pf, im, p)) == []
  {
    OwnerIsFirst(im, p.key, |im.relations|);
  }

  lemma {:induction false} PlanExplained(
    pf: Platform, im: Imagination, scene: SceneView, attempts: nat, base: seq<EntityPlan>, plans: seq<EntityPlan>,
    x: nat)
    requires Compiled(pf, im, scene, attempts, base, plans) && x < |plans|
    ensures FinalOwner(im, plans[x].key).Some? ==>
      && FinalOwner(im, plans[x].key).value < |im.relations|
      && RelationDecision(plans[x]) == [AppliedDecision(im, FinalOwner(im, plans[x].key).value)]
    ensures FinalOwner(im, plans[x].key).None? ==> RelationDecision(plans[x]) == []
  {
    FinalFields(pf, im, scene, attempts, base, plans, x);
    PlannedEntity(pf, im, scene, attempts, base, x);
    OwnerExplains(pf, im, base[x]);
  }

  /** The explained relations of a compiled request are all of its relations. */
  lemma {:induction false} AppliedExactly(
    pf: Platform, im: Imagination, scene: SceneView, attempts: nat, base: seq<EntityPlan>, plans: seq<EntityPlan>,
    d: Decision)
    requires Compiled(pf, im, scene, attempts, base, plans)
    ensures d in RelationDecisions(plans) <==> d in AppliedDecisions(im)
  {
    if d in RelationDecisions(plans) {
      var x := FindExplained(plans, d);
      PlanExplained(pf, im, scene, attempts, base, plans, x);
      assert AppliedDecisions(im)[FinalOwner(im, plans[x].key).value] == d;
    }
    if d in AppliedDecisions(im) {
      var i :| 0 <= i < |im.relations| && AppliedDecisions(im)[i] == d;
      GraphsAreRelations(im, i);
      var x := KeyHasPlan(pf, im, scene, attempts, base, plans, im.relations[i].Subject());
      PlanExplained(pf, im, scene, attempts, base, plans, x);
      ExplainedIsListed(plans, x, d);
    }
  }

  lemma {:induction false} AppliedPermuted(
    pf: Platform, im: Imagination, scene: SceneView, attempts: nat, base: seq<EntityPlan>, plans: seq<EntityPlan>)
    requires Compiled(pf, im, scene, attempts, base, plans)
    ensures multiset(RelationDecisions(plans)) == multiset(AppliedDecisions(im))
  {
    var ds, all := RelationDecisions(plans), AppliedDecisions(im);
    FinalKeysDistinct(pf, im, scene, attempts, base, plans);
    FinalPlansCarryOwners(pf, im, scene, attempts, base, plans);
    RelationDecisionsShape(im, plans);
    forall d ensures d in Elements(ds) <==> d in Elements(all) {
      AppliedExactly(pf, im, scene, attempts, base, plans, d);
    }
    forall i, j | 0 <= i < j < |all| ensures all[i] != all[j] { assert all[i].relationIndex != all[j].relationIndex; }
    SameElementsPermute(ds, all);
  }

  lemma {:induction false} AppliedTotal(
    pf: Platform, im: Imagination, scene: SceneView, attempts: nat, base: seq<EntityPlan>, plans: seq<EntityPlan>)
    requires Compiled(pf, im, scene, attempts, base, plans)
    ensures Sum(RelationDecisions(plans), DecisionSlot) == AppliedSlots(im, |im.relations|)
    ensures |RelationDecisions(plans)| == |im.relations|
  {
    AppliedPermuted(pf, im, scene, attempts, base, plans);
    SumOfPermutation(RelationDecisions(plans), AppliedDecisions(im), DecisionSlot);
    AppliedDecisionsTake(im, |im.relations|);
    assert AppliedDecisions(im)[..|im.relations|] == AppliedDecisions(im);
    assert |RelationDecisions(plans)| == |multiset(RelationDecisions(plans))|;
  }

  // ----- creates -----

  /** Every entity has a final transform. */
  ghost predicate Placeable(pf: Platform, im: Imagination, es: seq<ImaginedEntity>) {
    Acyclic(PlacementGraph(im)) && forall x | 0 <= x < |es| :: es[x].key in Keys(im) && Placed(pf, im, es[x].key).Ok?
  }

  lemma {:induction false} PlaceableBefore(pf: Platform, im: Imagination, es: seq<ImaginedEntity>, n: nat)
    requires Placeable(pf, im, es) && n <= |es|
    ensures Placeable(pf, im, es[..n])
  {
    forall x | 0 <= x < n ensures es[..n][x].key in Keys(im) && Placed(pf, im, es[..n][x].key).Ok? {
      assert es[..n][x] == es[x];
    }
  }

  /** What the create operation of one entity takes, with the comma after it. */
  function CreateBytes(show: Show, e: ImaginedEntity, t: Transform): nat {
    247 + EscapedBytes(e.DisplayName()) + TransformSize(show, t) + PrimitiveSize(show, e.primitive)
    + MaterialSize(show, if e.material.Some? then e.material.value else NEUTRAL_MATERIAL)
  }

  ghost function CreateSlots(pf: Platform, show: Show, im: Imagination, es: seq<ImaginedEntity>): nat
    requires Placeable(pf, im, es)
  {
    if es == [] then 0
    else
      var n := |es| - 1;
      PlaceableBefore(pf, im, es, n);
      CreateSlots(pf, show, im, es[..n]) + CreateBytes(show, es[n], Placed(pf, im, es[n].key).value)
  }

  function CreateSlot(show: Show): EntityPlan -> nat { p => OperationSlot(show)(CreateOf(p)) }

  lemma {:induction false} CreatesTake(show: Show, plans: seq<EntityPlan>)
    ensures Sum(Creates(plans), OperationSlot(show)) == Sum(plans, CreateSlot(show))
  {
    if plans != [] {
      CreatesTake(show, plans[1..]);
      assert Creates(plans)[1..] == Creates(plans[1..]);
    }
  }

  // ----- plans and the entities they come from -----

  /** Plan `p` comes from entity `e` and planned entity `b`. */
  ghost predicate Traces(im: Imagination, e: ImaginedEntity, b: EntityPlan, p: EntityPlan) {
    Follows(e, p) && p.entityId == b.entityId && CarriesOwner(im, p) && (p.parent.Some? <==> p.parentRelation.Some?)
  }

  ghost predicate AllTrace(im: Imagination, es: seq<ImaginedEntity>, base: seq<EntityPlan>, plans: seq<EntityPlan>) {
    |es| == |base| == |plans| && forall x | 0 <= x < |plans| :: Traces(im, es[x], base[x], plans[x])
  }

  lemma {:induction false} FinalFollows(pf: Platform, im: Imagination, p: EntityPlan)
    requires Acyclic(PlacementGraph(im)) && p.key in Keys(im) && Placed(pf, im, p.key).Ok?
    requires p == PlanEntity(EntityOf(im, p.key), p.entityId) && EntityOf(im, p.key).key == p.key
    ensures Follows(EntityOf(im, p.key), FinalPlan(pf, im, p))
  {
    var q := Attach(p, im, |im.relations|);
    AttachFacts(p, im, |im.relations|);
    assert PlanOf(im, q);
    PlanFields(im, q);
    PlacedKeepsRotation(pf, im, p.key);
    OwnerIsFirst(im, p.key, |im.relations|);
  }

  lemma {:induction false} CompiledTrace(
    pf: Platform, im: Imagination, scene: SceneView, attempts: nat, base: seq<EntityPlan>, plans: seq<EntityPlan>)
    requires Compiled(pf, im, scene, attempts, base, plans)
    ensures AllTrace(im, KeyOrder(im), base, plans)
  {
    FinalPlansCarryOwners(pf, im, scene, attempts, base, plans);
    forall x | 0 <= x < |plans| ensures Traces(im, KeyOrder(im)[x], base[x], plans[x]) {
      FinalFields(pf, im, scene, attempts, base, plans, x);
      PlannedEntity(pf, im, scene, attempts, base, x);
      FinalFollows(pf, im, base[x]);
    }
  }

  // ----- operations, in request terms -----

  /** Plan `x` follows its entity and has its final transform. */
  ghost predicate Filled(pf: Platform, im: Imagination, es: seq<ImaginedEntity>, plans: seq<EntityPlan>, x: nat)
    requires Placeable(pf, im, es) && x < |es| == |plans|
  {
    Follows(es[x], plans[x]) && plans[x].transform == Placed(pf, im, es[x].key).value
  }

  ghost predicate AllFilled(pf: Platform, im: Imagination, es: seq<ImaginedEntity>, plans: seq<EntityPlan>) {
    Placeable(pf, im, es) && |es| == |plans| && forall x | 0 <= x < |plans| :: Filled(pf, im, es, plans, x)
  }

  lemma {:induction false} CompiledFilled(
    pf: Platform, im: Imagination, scene: SceneView, attempts: nat, base: seq<EntityPlan>, plans: seq<EntityPlan>)
    requires Compiled(pf, im, scene, attempts, base, plans)
    ensures AllFilled(pf, im, KeyOrder(im), plans)
  {
    CompiledTrace(pf, im, scene, attempts, base, plans);
    forall x | 0 <= x < |base|
      ensures KeyOrder(im)[x].key in Keys(im) && Placed(pf, im, KeyOrder(im)[x].key).Ok?
      ensures plans[x].transform == Placed(pf, im, KeyOrder(im)[x].key).value
    {
      FinalFields(pf, im, scene, attempts, base, plans, x);
    }
    forall x | 0 <= x < |plans| ensures Filled(pf, im, KeyOrder(im), plans, x) {
      assert Traces(im, KeyOrder(im)[x], base[x], plans[x]);
    }
  }

  lemma {:induction false} FilledBefore(
    pf: Platform, im: Imagination, es: seq<ImaginedEntity>, plans: seq<EntityPlan>, n: nat)
    requires AllFilled(pf, im, es, plans) && n <= |es|
    ensures AllFilled(pf, im, es[..n], plans[..n])
  {
    PlaceableBefore(pf, im, es, n);
    forall x | 0 <= x < n ensures Filled(pf, im, es[..n], plans[..n], x) { assert Filled(pf, im, es, plans, x); }
  }

  lemma {:induction false} CreateFromRequest(show: Show, e: ImaginedEntity, p: EntityPlan)
    requires Follows(e, p)
    ensures CreateSlot(show)(p) == CreateBytes(show, e, p.transform)
  {
    CreateTakes(show, p);
  }

  lemma {:induction false} CreatesFromRequest(
    pf: Platform, show: Show, im: Imagination, es: seq<ImaginedEntity>, plans: seq<EntityPlan>)
    requires AllFilled(pf, im, es, plans)
    ensures Sum(plans, CreateSlot(show)) == CreateSlots(pf, show, im, es)
    decreases |es|
  {
    if es != [] {
      var n := |es| - 1;
      FilledBefore(pf, im, es, plans, n);
      CreatesFromRequest(pf, show, im, es[..n], plans[..n]);
      assert Filled(pf, im, es, plans, n);
      CreateFromRequest(show, es[n], plans[n]);
      SumLast(plans, CreateSlot(show));
    }
  }

  lemma {:induction false} SumLast<T>(s: seq<T>, f: T -> nat)
    requires s != []
    ensures Sum(s, f) == Sum(s[..|s| - 1], f) + f(s[|s| - 1])
  {
    SumTake(s, |s| - 1, f);
    assert s[..|s|] == s;
  }

  lemma {:induction false} ReparentsEach(show: Show, children: seq<EntityPlan>, plans: seq<EntityPlan>)
    requires forall p | p in children ::
      p.parent.Some? ==> p.parentRelation.Some? && IdOfKey(plans, p.parent.value).Some?
    ensures Sum(Reparents(children, plans), OperationSlot(show)) == 129 * |ParentRelations(children)|
  {
    if children != [] {
      assert children[0] in children;
      ReparentsEach(show, children[1..], plans);
      var rest := Reparents(children[1..], plans);
      if children[0].parent.Some? {
        assert Reparents(children, plans)[1..] == rest;
      } else {
        assert Reparents(children, plans) == rest;
      }
    }
  }

  lemma {:induction false} OperationsTotal(
    pf: Platform, show: Show, im: Imagination, scene: SceneView, attempts: nat, base: seq<EntityPlan>,
    plans: seq<EntityPlan>)
    requires Compiled(pf, im, scene, attempts, base, plans)
    ensures Placeable(pf, im, KeyOrder(im))
    ensures Sum(PatchOf(im, plans).operations, OperationSlot(show)) ==
      CreateSlots(pf, show, im, KeyOrder(im)) + 129 * im.ParentCount()
  {
    CompiledFilled(pf, im, scene, attempts, base, plans);
    CreatesTake(show, plans);
    CreatesFromRequest(pf, show, im, KeyOrder(im), plans);
    forall p | p in plans && p.parent.Some?
      ensures p.parentRelation.Some? && IdOfKey(plans, p.parent.value).Some?
    {
      ParentsHaveIds(pf, im, scene, attempts, base, plans, p);
    }
    ReparentsEach(show, plans, plans);
    ReparentCount(pf, im, scene, attempts, base, plans);
    SumAppend(Creates(plans), Reparents(plans, plans), OperationSlot(show));
  }

  // ----- problems -----

  /** 161 bytes and its position for a violated constraint. */
  function ViolationSlot(): nat -> nat { i => 161 + |Decimal(i)| }

  /** 104 bytes, its code, both keys and its position for a failing relation. */
  function FailureSlot(im: Imagination): (UnresolvedCode, nat) -> nat {
    (code, i) => 104 + |UnresolvedName(code)| + |Decimal(i)| + EscapedKeys(im, i)
  }

  /** Both keys of relation `i` as they are written. */
  function EscapedKeys(im: Imagination, i: nat): (n: nat)
    ensures n <= 6 * KeysAt(im, i)
  {
    if i < |im.relations| then EscapedBytes(im.relations[i].Subject()) + EscapedBytes(im.relations[i].Target()) else 0
  }

  lemma ViolationTakes(c: Constraint, i: nat)
    ensures UnresolvedSlot(ConstraintIssue(c, i)) == ViolationSlot()(i)
  {
  }

  lemma FailureTakes(im: Imagination, code: UnresolvedCode, i: nat)
    requires i < |im.relations|
    ensures UnresolvedSlot(RelationIssue(im, code, i)) == FailureSlot(im)(code, i)
  {
  }

  ghost function ProblemSlots(pf: Platform, im: Imagination, scene: SceneView): nat {
    ViolationSum(im, scene, |im.constraints|, ViolationSlot())
    + FailureSum(CodesOf(pf, im, scene), |im.relations|, FailureSlot(im))
  }

  lemma {:induction false} ProblemsTake(pf: Platform, im: Imagination, scene: SceneView)
    ensures Sum(Problems(pf, im, scene), UnresolvedSlot) == ProblemSlots(pf, im, scene)
  {
    forall c: Constraint, i: nat ensures UnresolvedSlot(ConstraintIssue(c, i)) == ViolationSlot()(i) {
      ViolationTakes(c, i);
    }
    forall code: UnresolvedCode, i: nat | i < |im.relations|
      ensures UnresolvedSlot(RelationIssue(im, code, i)) == FailureSlot(im)(code, i)
    {
      FailureTakes(im, code, i);
    }
    ProblemsTotal(pf, im, scene, UnresolvedSlot, ViolationSlot(), FailureSlot(im));
  }

  // ----- whole reports -----

  lemma {:induction false} SortedSlots(ds: seq<Decision>)
    ensures Sum(SortBy(ds, DecisionCmp), DecisionSlot) == Sum(ds, DecisionSlot)
  {
    DecisionOrder();
    SortBySorts(ds, DecisionCmp);
    SumOfPermutation(SortBy(ds, DecisionCmp), ds, DecisionSlot);
  }

  lemma {:induction false} SortedUnresolvedSlots(us: seq<Unresolved>)
    ensures Sum(SortBy(us, UnresolvedCmp), UnresolvedSlot) == Sum(us, UnresolvedSlot)
  {
    UnresolvedOrder();
    SortBySorts(us, UnresolvedCmp);
    SumOfPermutation(SortBy(us, UnresolvedCmp), us, UnresolvedSlot);
  }

  /** The encoded size of the report of a compilable request. */
  ghost function SuccessBytesOf(pf: Platform, show: Show, im: Imagination, base: seq<EntityPlan>): nat
    requires Placeable(pf, im, KeyOrder(im)) && |base| <= |KeyOrder(im)|
  {
    353 + |Decimal(im.schemaVersion)| + 2 * |Decimal(im.baseRevision)| + DeliverySize(im.delivery)
    + BudgetSize(im.declaredBudget.patch)
    + ListSize(CreateSlots(pf, show, im, KeyOrder(im)) + 129 * im.ParentCount())
    + ListSize(ExplanationSlots(KeyOrder(im), base) + AppliedSlots(im, |im.relations|))
  }

  /** The encoded size of the report of a request with problems. */
  ghost function ProblemBytesOf(pf: Platform, im: Imagination, scene: SceneView, base: seq<EntityPlan>): nat
    requires |base| <= |KeyOrder(im)|
  {
    130 + |Decimal(scene.revision)| + ListSize(ExplanationSlots(KeyOrder(im), base))
    + ListSize(ProblemSlots(pf, im, scene))
  }

  lemma {:induction false} SuccessParts(
    show: Show, im: Imagination, scene: SceneView, ds: seq<Decision>, plans: seq<EntityPlan>)
    requires im.baseRevision == scene.revision
    ensures ReportSize(show, SuccessReport(im, scene, ds, plans)) ==
      353 + |Decimal(im.schemaVersion)| + 2 * |Decimal(im.baseRevision)| + DeliverySize(im.delivery)
      + BudgetSize(im.declaredBudget.patch) + ListSize(Sum(PatchOf(im, plans).operations, OperationSlot(show)))
      + ListSize(Sum(ds, DecisionSlot))
  {
    SortedSlots(ds);
  }

  lemma {:induction false} DecisionsTotal(
    pf: Platform, im: Imagination, scene: SceneView, attempts: nat, base: seq<EntityPlan>, plans: seq<EntityPlan>)
    requires Compiled(pf, im, scene, attempts, base, plans)
    ensures Sum(PlanDecisions(KeyOrder(im), base) + RelationDecisions(plans), DecisionSlot) ==
      ExplanationSlots(KeyOrder(im), base) + AppliedSlots(im, |im.relations|)
  {
    ExplanationsTotal(KeyOrder(im), base);
    AppliedTotal(pf, im, scene, attempts, base, plans);
    SumAppend(PlanDecisions(KeyOrder(im), base), RelationDecisions(plans), DecisionSlot);
  }

  /** A success report takes exactly what its request, its final transforms and its kept identities say. */
  lemma {:induction false} SuccessExactly(
    pf: Platform, show: Show, im: Imagination, scene: SceneView, attempts: nat, base: seq<EntityPlan>,
    plans: seq<EntityPlan>)
    requires Compiled(pf, im, scene, attempts, base, plans) && im.baseRevision == scene.revision
    ensures Placeable(pf, im, KeyOrder(im))
    ensures var ds := PlanDecisions(KeyOrder(im), base) + RelationDecisions(plans);
      ReportSize(show, SuccessReport(im, scene, ds, plans)) == SuccessBytesOf(pf, show, im, base)
  {
    var ds := PlanDecisions(KeyOrder(im), base) + RelationDecisions(plans);
    OperationsTotal(pf, show, im, scene, attempts, base, plans);
    DecisionsTotal(pf, im, scene, attempts, base, plans);
    SuccessParts(show, im, scene, ds, plans);
  }

  /** A problem report takes exactly what its request and its scene say. */
  lemma {:induction false} ProblemExactly(
    pf: Platform, show: Show, im: Imagination, scene: SceneView, base: seq<EntityPlan>)
    requires |base| <= |KeyOrder(im)|
    ensures ReportSize(show, ProblemReport(im, scene, PlanDecisions(KeyOrder(im), base), Problems(pf, im, scene)))
      == ProblemBytesOf(pf, im, scene, base)
  {
    ExplanationsTotal(KeyOrder(im), base);
    SortedSlots(PlanDecisions(KeyOrder(im), base));
    ProblemsTake(pf, im, scene);
    SortedUnresolvedSlots(Problems(pf, im, scene));
  }
}
