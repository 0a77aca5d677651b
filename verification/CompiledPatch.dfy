/** The emitted patch always passes the protocol's own admission, with one exact exception (compiler.rs). */
module CompiledPatch {
  import opened Machine
  import opened Ordering
  import opened FunctionalGraph
  import opened Protocol
  import opened Planning
  import opened Relations
  import opened Placements
  import opened Acceptance
  import opened Diagnosis
  import opened Emission

  /** A successful compilation: planned entities, then final plans of a compilable imagination. */
  ghost predicate Compiled(
    pf: Platform, im: Imagination, scene: SceneView, attempts: nat, base: seq<EntityPlan>, plans: seq<EntityPlan>)
  {
    && im.DistinctKeys()
    && |base| == |KeyOrder(im)| && PlannedPrefix(pf, im, scene, attempts, KeyOrder(im), base)
    && Finished(pf, im, scene, base, plans)
  }

  lemma {:induction false} PlannedEntity(
    pf: Platform, im: Imagination, scene: SceneView, attempts: nat, base: seq<EntityPlan>, x: nat)
    requires im.DistinctKeys() && x < |base| <= |KeyOrder(im)|
    requires PlannedPrefix(pf, im, scene, attempts, KeyOrder(im), base)
    ensures KeyOrder(im)[x] in im.entities && base[x].key == KeyOrder(im)[x].key && base[x].key in Keys(im)
    ensures EntityOf(im, base[x].key) == KeyOrder(im)[x]
    ensures base[x] == PlanEntity(KeyOrder(im)[x], base[x].entityId)
  {
    KeyOrderStrict(im);
    assert KeyOrder(im)[x] in Elements(KeyOrder(im));
    EntityOfKey(im, KeyOrder(im)[x]);
  }

  /** Planned entities are indexed by the declared keys. */
  lemma {:induction false} PlannedAreFresh(
    pf: Platform, im: Imagination, scene: SceneView, attempts: nat, base: seq<EntityPlan>)
    requires im.DistinctKeys()
    requires |base| == |KeyOrder(im)| && PlannedPrefix(pf, im, scene, attempts, KeyOrder(im), base)
    ensures DistinctPlanKeys(base) && Fresh(im, base, KeyIndex(base))
  {
    var es := KeyOrder(im);
    forall x | 0 <= x < |base|
      ensures base[x].key == es[x].key && base[x].key in Keys(im)
      ensures base[x] == PlanEntity(EntityOf(im, base[x].key), base[x].entityId)
    {
      PlannedEntity(pf, im, scene, attempts, base, x);
    }
    DistinctPlannedKeys(im, base);
    KeysIndexed(im, base);
  }

  lemma {:induction false} DistinctPlannedKeys(im: Imagination, base: seq<EntityPlan>)
    requires im.DistinctKeys() && |base| == |KeyOrder(im)|
    requires forall x | 0 <= x < |base| :: base[x].key == KeyOrder(im)[x].key
    ensures DistinctPlanKeys(base)
  {
    KeyOrderStrict(im);
  }

  lemma {:induction false} KeysIndexed(im: Imagination, base: seq<EntityPlan>)
    requires im.DistinctKeys() && |base| == |KeyOrder(im)| && DistinctPlanKeys(base)
    requires forall x | 0 <= x < |base| :: base[x].key == KeyOrder(im)[x].key && base[x].key in Keys(im)
    ensures KeyIndex(base).Keys == Keys(im)
  {
    KeyOrderStrict(im);
    forall k | k in Keys(im) ensures k in KeyIndex(base) {
      var e :| e in im.entities && e.key == k;
      assert e in Elements(KeyOrder(im));
      var x :| 0 <= x < |KeyOrder(im)| && KeyOrder(im)[x] == e;
      assert base[x].key == k;
    }
  }

  lemma {:induction false} PlacedKeepsRotation(pf: Platform, im: Imagination, k: Text)
    requires Acyclic(PlacementGraph(im)) && k in Keys(im) && Placed(pf, im, k).Ok?
    ensures Placed(pf, im, k).value.rotation == DeclaredTransform(im, k).rotation
    ensures Placed(pf, im, k).value.scale == DeclaredTransform(im, k).scale
  {
    if k in PlacementGraph(im) {
      PlacementGraphClosed(im, k);
      HeightDecreases(PlacementGraph(im), k);
    }
  }

  /** Field by field, what each final plan holds. */
  lemma {:induction false} FinalFields(
    pf: Platform, im: Imagination, scene: SceneView, attempts: nat, base: seq<EntityPlan>, plans: seq<EntityPlan>,
    x: nat)
    requires Compiled(pf, im, scene, attempts, base, plans) && x < |base|
    ensures |plans| == |base| == |KeyOrder(im)|
    ensures KeyOrder(im)[x] in im.entities
    ensures plans[x].key == KeyOrder(im)[x].key && plans[x].key in Keys(im)
    ensures plans[x].entityId == base[x].entityId && plans[x].name == KeyOrder(im)[x].DisplayName()
    ensures plans[x].transform == Placed(pf, im, plans[x].key).value
    ensures KeyOrder(im)[x].Valid() ==> RotationNonZero(plans[x].transform.rotation)
    ensures plans[x].parent.Some? <==> plans[x].parentRelation.Some?
    ensures plans[x].parent.Some? <==> plans[x].key in ParentGraph(im)
    ensures plans[x].parent.Some? ==>
      && plans[x].parent.value == ParentGraph(im)[plans[x].key] && plans[x].parent.value in Keys(im)
      && plans[x].parent.value != plans[x].key
      && plans[x].parentRelation == FinalOwner(im, plans[x].key)
      && plans[x].parentRelation.value < |im.relations| && im.relations[plans[x].parentRelation.value].Parent?
      && im.relations[plans[x].parentRelation.value].Subject() == plans[x].key
    ensures plans[x].placement.Some? ==>
      && Some(plans[x].placement.value.relationIndex) == FinalOwner(im, plans[x].key)
      && plans[x].placement.value.relationIndex < |im.relations|
    ensures plans[x].parent.None? || plans[x].placement.None?
  {
    PlannedEntity(pf, im, scene, attempts, base, x);
    FinalPlanFields(pf, im, base[x]);
  }

  lemma {:induction false} FinalPlanFields(pf: Platform, im: Imagination, p: EntityPlan)
    requires Acyclic(PlacementGraph(im)) && p.key in Keys(im) && Placed(pf, im, p.key).Ok?
    requires p == PlanEntity(EntityOf(im, p.key), p.entityId)
    ensures var f := FinalPlan(pf, im, p);
      && f.key == p.key && f.entityId == p.entityId && f.name == EntityOf(im, p.key).DisplayName()
      && f.transform == Placed(pf, im, p.key).value
      && (EntityOf(im, p.key).Valid() ==> RotationNonZero(f.transform.rotation))
      && (f.parent.Some? <==> f.parentRelation.Some?)
      && (f.parent.Some? <==> p.key in ParentGraph(im))
      && (f.parent.Some? ==>
            && f.parent.value == ParentGraph(im)[p.key] && f.parent.value in Keys(im) && f.parent.value != p.key
            && f.parentRelation == FinalOwner(im, p.key) && f.parentRelation.value < |im.relations|
            && im.relations[f.parentRelation.value].Parent?
            && im.relations[f.parentRelation.value].Subject() == p.key)
      && (f.placement.Some? ==>
            && Some(f.placement.value.relationIndex) == FinalOwner(im, p.key)
            && f.placement.value.relationIndex < |im.relations|)
      && (f.parent.None? || f.placement.None?)
  {
    var q := Attach(p, im, |im.relations|);
    AttachFacts(p, im, |im.relations|);
    assert PlanOf(im, q);
    PlanFields(im, q);
    PlacedKeepsRotation(pf, im, p.key);
    OwnerIsFirst(im, p.key, |im.relations|);
  }

  lemma {:induction false} FinalKeysDistinct(
    pf: Platform, im: Imagination, scene: SceneView, attempts: nat, base: seq<EntityPlan>, plans: seq<EntityPlan>)
    requires Compiled(pf, im, scene, attempts, base, plans)
    ensures |plans| == |KeyOrder(im)| == |im.entities| && Emits(KeyOrder(im), plans)
    ensures forall x, y | 0 <= x < y < |plans| :: plans[x].key != plans[y].key && plans[x].entityId != plans[y].entityId
    ensures forall x | 0 <= x < |plans| :: plans[x].entityId !in scene.entityIds
  {
    KeyOrderStrict(im);
    PlannedIdsFresh(pf, im, scene, attempts, KeyOrder(im), base);
    forall x | 0 <= x < |plans|
      ensures plans[x].key == KeyOrder(im)[x].key && plans[x].name == KeyOrder(im)[x].DisplayName()
      ensures plans[x].entityId == base[x].entityId
    {
      FinalFields(pf, im, scene, attempts, base, plans, x);
    }
  }

  lemma {:induction false} IdOfKeyFinds(plans: seq<EntityPlan>, x: nat)
    requires x < |plans| && forall a, b | 0 <= a < b < |plans| :: plans[a].key != plans[b].key
    ensures IdOfKey(plans, plans[x].key) == Some(plans[x].entityId)
  {
    if x > 0 { IdOfKeyFinds(plans[1..], x - 1); }
  }

  /** Every declared key has a plan. */
  lemma {:induction false} KeyHasPlan(
    pf: Platform, im: Imagination, scene: SceneView, attempts: nat, base: seq<EntityPlan>, plans: seq<EntityPlan>,
    k: Text)
    returns (x: nat)
    requires Compiled(pf, im, scene, attempts, base, plans) && k in Keys(im)
    ensures x < |plans| == |base| && plans[x].key == k && IdOfKey(plans, k) == Some(plans[x].entityId)
  {
    PlannedAreFresh(pf, im, scene, attempts, base);
    x := KeyIndex(base)[k];
    FinalFields(pf, im, scene, attempts, base, plans, x);
    FinalKeysDistinct(pf, im, scene, attempts, base, plans);
    IdOfKeyFinds(plans, x);
  }

  // ----- counts -----

  ghost function ParentIndices(im: Imagination, n: nat): set<nat>
    requires n <= |im.relations|
  {
    if n == 0 then {}
    else ParentIndices(im, n - 1) + (if im.relations[n - 1].Parent? then {n - 1} else {})
  }

  lemma {:induction false} ParentIndicesAre(im: Imagination, n: nat, i: nat)
    requires n <= |im.relations|
    ensures i in ParentIndices(im, n) <==> i < n && im.relations[i].Parent?
  {
    if n > 0 { ParentIndicesAre(im, n - 1, i); }
  }

  lemma {:induction false} ParentIndicesCount(im: Imagination, n: nat)
    requires n <= |im.relations|
    ensures |ParentIndices(im, n)| == Sum(im.relations[..n], RelationReparents)
  {
    if n > 0 {
      ParentIndicesCount(im, n - 1);
      ParentIndicesAre(im, n - 1, n - 1);
      SumTake(im.relations, n - 1, RelationReparents);
    }
  }

  /** One reparent per parent relation, and never more than one per entity. */
  lemma {:induction false} ReparentCount(
    pf: Platform, im: Imagination, scene: SceneView, attempts: nat, base: seq<EntityPlan>, plans: seq<EntityPlan>)
    requires Compiled(pf, im, scene, attempts, base, plans)
    ensures NoDuplicates(ParentRelations(plans))
    ensures |ParentRelations(plans)| == im.ParentCount() <= |plans|
  {
    forall x, y | 0 <= x < y < |plans|
      ensures plans[x].parentRelation.None? || plans[x].parentRelation != plans[y].parentRelation
    {
      FinalFields(pf, im, scene, attempts, base, plans, x);
      FinalFields(pf, im, scene, attempts, base, plans, y);
      FinalKeysDistinct(pf, im, scene, attempts, base, plans);
    }
    ParentRelationsDistinct(plans);
    ParentIndicesCount(im, |im.relations|);
    assert im.relations[..|im.relations|] == im.relations;
    forall i ensures i in ParentRelations(plans) <==> i in ParentIndices(im, |im.relations|) {
      ParentRelationIsIndex(pf, im, scene, attempts, base, plans, i);
      ParentIndicesAre(im, |im.relations|, i);
    }
    NoDuplicatesCount(ParentRelations(plans));
    assert Elements(ParentRelations(plans)) == ParentIndices(im, |im.relations|);
  }

  lemma {:induction false} ParentRelationIsIndex(
    pf: Platform, im: Imagination, scene: SceneView, attempts: nat, base: seq<EntityPlan>, plans: seq<EntityPlan>,
    i: nat)
    requires Compiled(pf, im, scene, attempts, base, plans)
    ensures i in ParentRelations(plans) <==> i < |im.relations| && im.relations[i].Parent?
  {
    ParentRelationsAre(plans, i);
    if x :| 0 <= x < |plans| && plans[x].parent.Some? && plans[x].parentRelation == Some(i) {
      FinalFields(pf, im, scene, attempts, base, plans, x);
    }
    if i < |im.relations| && im.relations[i].Parent? {
      GraphsAreRelations(im, i);
      var x := KeyHasPlan(pf, im, scene, attempts, base, plans, im.relations[i].Subject());
      FinalFields(pf, im, scene, attempts, base, plans, x);
    }
  }

  // ----- the patch as a whole -----

  lemma {:induction false} ParentsHaveIds(
    pf: Platform, im: Imagination, scene: SceneView, attempts: nat, base: seq<EntityPlan>, plans: seq<EntityPlan>,
    p: EntityPlan)
    requires Compiled(pf, im, scene, attempts, base, plans) && p in plans && p.parent.Some?
    ensures p.parentRelation.Some?
    ensures IdOfKey(plans, p.parent.value).Some? && IdOfKey(plans, p.parent.value) != Some(p.entityId)
  {
    var x :| 0 <= x < |plans| && plans[x] == p;
    FinalFields(pf, im, scene, attempts, base, plans, x);
    var y := KeyHasPlan(pf, im, scene, attempts, base, plans, p.parent.value);
    FinalKeysDistinct(pf, im, scene, attempts, base, plans);
    assert x != y;
  }

  /** Text, size and counts of the patch are exactly what admission of the imagination computed. */
  lemma {:induction false} PatchSizes(
    pf: Platform, im: Imagination, scene: SceneView, attempts: nat, base: seq<EntityPlan>, plans: seq<EntityPlan>)
    requires Compiled(pf, im, scene, attempts, base, plans)
    ensures |plans| == |im.entities|
    ensures var p := PatchOf(im, plans);
      && |p.operations| == |im.entities| + im.ParentCount()
      && p.TextBytes() == im.OutputTextBytes()
      && p.Components() == 4 * |im.entities|
      && (im.ParentCount() <= U32_MAX ==> p.LogicalBytes() == im.NormalizedPatchBytes())
  {
    FinalKeysDistinct(pf, im, scene, attempts, base, plans);
    CreatesTotals(im, plans);
    forall p | p in plans && p.parent.Some?
      ensures p.parentRelation.Some? && IdOfKey(plans, p.parent.value).Some?
    {
      ParentsHaveIds(pf, im, scene, attempts, base, plans, p);
    }
    ReparentsSizes(plans, plans);
    ReparentCount(pf, im, scene, attempts, base, plans);
    PatchTotals(im, plans);
  }

  lemma {:induction false} CreatesTotals(im: Imagination, plans: seq<EntityPlan>)
    requires im.DistinctKeys() && Emits(KeyOrder(im), plans)
    ensures |Creates(plans)| == |plans| == |im.entities|
    ensures Sum(Creates(plans), OperationText) == Sum(im.entities, EntityNameBytes)
    ensures Sum(Creates(plans), OperationBytes) == Sum(im.entities, EntityCreateBytes)
    ensures Sum(Creates(plans), OperationComponents) == 4 * |plans|
  {
    KeyOrderStrict(im);
    CreatesSizes(KeyOrder(im), plans);
    SumOfPermutation(KeyOrder(im), im.entities, EntityNameBytes);
    SumOfPermutation(KeyOrder(im), im.entities, EntityCreateBytes);
  }

  lemma {:induction false} PatchTotals(im: Imagination, plans: seq<EntityPlan>)
    ensures PatchOf(im, plans).TextBytes() == im.delivery.TextBytes()
      + Sum(Creates(plans), OperationText) + Sum(Reparents(plans, plans), OperationText)
    ensures PatchOf(im, plans).LogicalBytes() == 71 + im.delivery.LogicalBytes()
      + Sum(Creates(plans), OperationBytes) + Sum(Reparents(plans, plans), OperationBytes)
    ensures PatchOf(im, plans).Components()
      == Sum(Creates(plans), OperationComponents) + Sum(Reparents(plans, plans), OperationComponents)
  {
    SumAppend(Creates(plans), Reparents(plans, plans), OperationText);
    SumAppend(Creates(plans), Reparents(plans, plans), OperationBytes);
    SumAppend(Creates(plans), Reparents(plans, plans), OperationComponents);
  }

  lemma {:induction false} CreateChecks(p: EntityPlan)
    requires RotationNonZero(p.transform.rotation)
    ensures CreateOf(p).Check().None?
  {
    var n, t, s, m :=
      Name(p.name), LocalTransform(p.transform), PrimitiveShape(p.primitive), SurfaceMaterial(p.material);
    var cs := CreateOf(p).components;
    assert cs[1..] == [t, s, m] && [t, s, m][1..] == [s, m] && [s, m][1..] == [m] && [m][1..] == [];
    assert CheckComponents([m], {NameKind, TransformKind, PrimitiveKind}).None?;
    assert {NameKind, TransformKind} + {PrimitiveKind} == {NameKind, TransformKind, PrimitiveKind};
    assert CheckComponents([s, m], {NameKind, TransformKind}).None?;
    assert {NameKind} + {TransformKind} == {NameKind, TransformKind};
    assert CheckComponents([t, s, m], {NameKind}).None?;
    assert {} + {NameKind} == {NameKind};
  }

  lemma {:induction false} CreatesChecks(plans: seq<EntityPlan>, o: Operation)
    requires forall p | p in plans :: RotationNonZero(p.transform.rotation)
    requires o in Creates(plans)
    ensures o.Check().None? && o.Create? && |o.components| == 4
  {
    if o != CreateOf(plans[0]) { CreatesChecks(plans[1..], o); } else { CreateChecks(plans[0]); }
  }

  lemma {:induction false} ReparentsChecks(children: seq<EntityPlan>, plans: seq<EntityPlan>, o: Operation)
    requires forall p | p in children :: p.parent.Some? ==> IdOfKey(plans, p.parent.value) != Some(p.entityId)
    requires o in Reparents(children, plans)
    ensures o.Check().None? && o.Reparent?
  {
    assert children[0] in children;
    if !(children[0].parent.Some? && o == ReparentOf(children[0], plans)) { ReparentsChecks(children[1..], plans, o); }
  }

  /** Every operation of the patch is valid by itself. */
  lemma {:induction false} OperationsCheck(
    pf: Platform, im: Imagination, scene: SceneView, attempts: nat, base: seq<EntityPlan>, plans: seq<EntityPlan>,
    limits: RuntimeLimits)
    requires Compiled(pf, im, scene, attempts, base, plans)
    requires forall e | e in im.entities :: e.Valid()
    requires limits.maxComponentsPerEntity >= 4
    ensures FirstBadOperation(PatchOf(im, plans).operations, limits).None?
  {
    forall p | p in plans
      ensures RotationNonZero(p.transform.rotation)
      ensures p.parent.Some? ==> IdOfKey(plans, p.parent.value) != Some(p.entityId)
    {
      var x :| 0 <= x < |plans| && plans[x] == p;
      FinalFields(pf, im, scene, attempts, base, plans, x);
      if p.parent.Some? { ParentsHaveIds(pf, im, scene, attempts, base, plans, p); }
    }
    var ops := PatchOf(im, plans).operations;
    forall o | o in ops
      ensures o.Check().None? && (o.Create? ==> Sat32(|o.components|) <= limits.maxComponentsPerEntity)
    {
      if o in Creates(plans) { CreatesChecks(plans, o); } else { ReparentsChecks(plans, plans, o); }
    }
    NoBadOperation(ops, limits);
  }

  lemma {:induction false} AdmissionArithmetic(im: Imagination, p: Patch, limits: RuntimeLimits)
    requires ValidateImagination(im, limits).None?
    requires p.schemaVersion == im.schemaVersion && p.declaredBudget == im.declaredBudget.patch
    requires |p.operations| == |im.entities| + im.ParentCount() && im.ParentCount() <= |im.entities|
    requires p.TextBytes() == im.OutputTextBytes() && p.Components() == 4 * |im.entities|
    requires im.ParentCount() <= U32_MAX ==> p.LogicalBytes() == im.NormalizedPatchBytes()
    requires FirstBadOperation(p.operations, limits).None?
    ensures ValidatePatch(p, limits).None? <==> 4 * |im.entities| <= U32_MAX
  {
    assert CheckCollections(im, limits).None? && CheckPatchBudget(im.declaredBudget.patch, limits).None?;
    assert CheckEntitiesAndOutput(im, limits).None?;
    if 4 * |im.entities| <= U32_MAX {
      assert Sat32(|im.entities|) == |im.entities| && Sat32(im.ParentCount()) == im.ParentCount();
    }
  }

  /**
   * The patch of an admitted imagination is itself admitted, except that 2^30 entities or more
   * slip past the saturating component estimate and are then refused.
   */
  lemma {:induction false} PatchAdmittedIff(
    pf: Platform, im: Imagination, scene: SceneView, attempts: nat, base: seq<EntityPlan>, plans: seq<EntityPlan>,
    limits: RuntimeLimits)
    requires ValidateImagination(im, limits).None? && Compiled(pf, im, scene, attempts, base, plans)
    ensures ValidatePatch(PatchOf(im, plans), limits).None? <==> 4 * |im.entities| <= U32_MAX
  {
    NoBadEntity(im.entities, {});
    OperationsCheck(pf, im, scene, attempts, base, plans, limits);
    PatchSizes(pf, im, scene, attempts, base, plans);
    ReparentCount(pf, im, scene, attempts, base, plans);
    AdmissionArithmetic(im, PatchOf(im, plans), limits);
  }
}
