/** What a compiled request puts into the scene: its patch field by field, in the terms of the request (compiler.rs). */
module CompiledScene {
  import opened Machine
  import opened FunctionalGraph
  import opened Protocol
  import opened CompilationReport
  import opened Planning
  import opened Relations
  import opened Placements
  import opened Acceptance
  import opened Emission
  import opened CompiledPatch

  // ----- declared values and their defaults -----

  /** No translation, no rotation, unit scale. */
  predicate Identity(t: Transform) {
    && t.translation.x == t.translation.y == t.translation.z == 0
    && t.rotation.x == t.rotation.y == t.rotation.z == 0 && t.rotation.w == 0x3F80_0000
    && t.scale.x == t.scale.y == t.scale.z == 0x3F80_0000
  }

  /** Opaque grey of 0.7, not metallic, with roughness 0.8. */
  predicate Neutral(m: Material) {
    && m.r == m.g == m.b == 0x3F33_3333 && m.a == 0x3F80_0000
    && m.metallic == 0 && m.roughness == 0x3F4C_CCCD
  }

  predicate DeclaresTransform(e: ImaginedEntity, t: Transform) {
    match e.transform case Some(declared) => t == declared case None => Identity(t)
  }

  predicate DeclaresMaterial(e: ImaginedEntity, m: Material) {
    match e.material case Some(declared) => m == declared case None => Neutral(m)
  }

  /** The operation creates `e` as entity `id` with transform `t` and what it declares otherwise. */
  ghost predicate CreatesEntity(o: Operation, e: ImaginedEntity, id: EntityId, t: Transform) {
    exists m ::
      && DeclaresMaterial(e, m)
      && o == Create(id, [Name(if e.name.Some? then e.name.value else e.key), LocalTransform(t),
                          PrimitiveShape(e.primitive), SurfaceMaterial(m)])
  }

  // ----- placement -----

  /** Where relation `r` puts a subject of size `size` declared at `d`, beside an anchor at `u`. */
  function RelationOffset(pf: Platform, r: Relation, d: Transform, size: Vec3, u: Transform, anchorSize: Vec3): F32
    requires !r.Parent?
  {
    match r
    case Above(_, _, clearance) => AboveOffset(pf, clearance, d, size, u, anchorSize)
    case RightOf(_, _, gap) => RightOffset(pf, gap, d, size, u, anchorSize)
  }

  predicate StandsAt(r: Relation, v: F32, t: Transform, d: Transform, u: Transform) {
    (r.Above? ==> StandsAbove(v, t, d, u)) && (r.RightOf? ==> StandsRight(v, t, d, u))
  }

  /**
   * The outcome of each spatial relation, from the outcome of its anchor: a failed anchor fails the subject, a rotated
   * end or an infinite place fails this relation, and otherwise the subject stands where the relation says.
   */
  lemma {:induction false} RelationPlaces(pf: Platform, im: Imagination, i: nat)
    requires WellRelated(im) && i < |im.relations| && !im.relations[i].Parent?
    ensures im.relations[i].Subject() in Keys(im) && im.relations[i].Target() in Keys(im)
    ensures var r, k, a := im.relations[i], im.relations[i].Subject(), im.relations[i].Target();
      match Placed(pf, im, a)
      case Err(f) => Placed(pf, im, k) == Err(f)
      case Ok(u) =>
        var d := DeclaredTransform(im, k);
        var v := RelationOffset(pf, r, d, EntityOf(im, k).primitive.dimensions, u,
                   EntityOf(im, a).primitive.dimensions);
        match Placed(pf, im, k)
        case Ok(t) => !Rotated(d) && !Rotated(u) && StandsAt(r, v, t, d, u)
        case Err(f) =>
          && f.relationIndex == i && f.subject == k && f.anchor == a
          && (if Rotated(d) || Rotated(u) then f.code == UnsupportedSpatialRotation
              else f.code == NonFinitePlacement && Infinite(v))
  {
    var r := im.relations[i];
    GraphsAreRelations(im, i);
    PlacementGraphClosed(im, r.Subject());
    if Placed(pf, im, r.Target()).Ok? {
      PlaceMeans(pf, KindOf(r), DeclaredTransform(im, r.Subject()), EntityOf(im, r.Subject()).primitive.dimensions,
        Placed(pf, im, r.Target()).value, EntityOf(im, r.Target()).primitive.dimensions);
    }
  }

  /** An entity that no spatial relation places stays where it is declared. */
  lemma {:induction false} UnplacedStays(pf: Platform, im: Imagination, k: Text)
    requires Acyclic(PlacementGraph(im)) && k in Keys(im)
    requires forall i | 0 <= i < |im.relations| && !im.relations[i].Parent? :: im.relations[i].Subject() != k
    ensures Placed(pf, im, k) == Ok(DeclaredTransform(im, k))
  {
    OwnerIsFirst(im, k, |im.relations|);
  }

  // ----- the patch -----

  lemma {:induction false} CreateAt(plans: seq<EntityPlan>, x: nat)
    requires x < |plans|
    ensures |Creates(plans)| == |plans| && Creates(plans)[x] == CreateOf(plans[x])
  {
    if |plans| > 1 { CreateAt(plans[1..], if x == 0 then 0 else x - 1); }
  }

  /** Plan fields that the create operation shows. */
  lemma {:induction false} PlanShows(
    pf: Platform, im: Imagination, scene: SceneView, attempts: nat, base: seq<EntityPlan>, plans: seq<EntityPlan>,
    x: nat)
    requires Compiled(pf, im, scene, attempts, base, plans) && x < |plans|
    ensures |plans| == |KeyOrder(im)|
    ensures var e, p := KeyOrder(im)[x], plans[x];
      && e.key in Keys(im) && EntityOf(im, e.key) == e && p.key == e.key
      && p.name == e.DisplayName() && p.primitive == e.primitive && DeclaresMaterial(e, p.material)
      && Placed(pf, im, e.key) == Ok(p.transform) && DeclaresTransform(e, DeclaredTransform(im, e.key))
  {
    FinalFields(pf, im, scene, attempts, base, plans, x);
    PlannedEntity(pf, im, scene, attempts, base, x);
    AttachFacts(base[x], im, |im.relations|);
  }

  /** Operation `x` creates entity `x` of the key order, with the transform that was computed for it. */
  lemma {:induction false} CompiledCreates(
    pf: Platform, im: Imagination, scene: SceneView, attempts: nat, base: seq<EntityPlan>, plans: seq<EntityPlan>,
    x: nat)
    requires Compiled(pf, im, scene, attempts, base, plans) && x < |im.entities|
    ensures x < |plans| == |KeyOrder(im)| == |im.entities| <= |PatchOf(im, plans).operations|
    ensures CreatesEntity(PatchOf(im, plans).operations[x], KeyOrder(im)[x], plans[x].entityId, plans[x].transform)
  {
    FinalKeysDistinct(pf, im, scene, attempts, base, plans);
    PlanShows(pf, im, scene, attempts, base, plans, x);
    CreateAt(plans, x);
    assert PatchOf(im, plans).operations[x] == CreateOf(plans[x]);
    assert DeclaresMaterial(KeyOrder(im)[x], plans[x].material);
  }

  /** The patch is the request's own transaction, on the request's own base and budget. */
  lemma PatchCarriesRequest(im: Imagination, plans: seq<EntityPlan>)
    ensures var p := PatchOf(im, plans);
      && p.schemaVersion == im.schemaVersion && p.transactionId == im.transactionId
      && p.idempotencyKey == im.idempotencyKey && p.baseRevision == im.baseRevision
      && p.delivery == im.delivery && p.declaredBudget == im.declaredBudget.patch
  {
  }

  /**
   * In every compiled request each spatial relation holds of the created entities: the subject is level with its
   * anchor on two axes, stands at the exact single-precision offset on the third, and keeps its declared rotation
   * and scale.
   */
  lemma {:induction false} RelationHolds(
    pf: Platform, im: Imagination, scene: SceneView, attempts: nat, base: seq<EntityPlan>, plans: seq<EntityPlan>,
    i: nat)
    returns (x: nat, y: nat, d: Transform)
    requires Compiled(pf, im, scene, attempts, base, plans) && i < |im.relations| && !im.relations[i].Parent?
    ensures x < |im.entities| && y < |im.entities|
    ensures |im.entities| == |plans| == |KeyOrder(im)| <= |PatchOf(im, plans).operations|
    ensures KeyOrder(im)[x].key == im.relations[i].Subject() && KeyOrder(im)[y].key == im.relations[i].Target()
    ensures CreatesEntity(PatchOf(im, plans).operations[x], KeyOrder(im)[x], plans[x].entityId, plans[x].transform)
    ensures CreatesEntity(PatchOf(im, plans).operations[y], KeyOrder(im)[y], plans[y].entityId, plans[y].transform)
    ensures DeclaresTransform(KeyOrder(im)[x], d) && !Rotated(d) && !Rotated(plans[y].transform)
    ensures var v := RelationOffset(pf, im.relations[i], d, KeyOrder(im)[x].primitive.dimensions, plans[y].transform,
                       KeyOrder(im)[y].primitive.dimensions);
      StandsAt(im.relations[i], v, plans[x].transform, d, plans[y].transform)
  {
    RelationPlaces(pf, im, i);
    x := KeyHasPlan(pf, im, scene, attempts, base, plans, im.relations[i].Subject());
    y := KeyHasPlan(pf, im, scene, attempts, base, plans, im.relations[i].Target());
    d := DeclaredTransform(im, im.relations[i].Subject());
    FinalKeysDistinct(pf, im, scene, attempts, base, plans);
    PlanShows(pf, im, scene, attempts, base, plans, x);
    PlanShows(pf, im, scene, attempts, base, plans, y);
    CompiledCreates(pf, im, scene, attempts, base, plans, x);
    CompiledCreates(pf, im, scene, attempts, base, plans, y);
  }

  /** An entity that no spatial relation places is created with its whole declared transform. */
  lemma {:induction false} UnplacedKeepsTransform(
    pf: Platform, im: Imagination, scene: SceneView, attempts: nat, base: seq<EntityPlan>, plans: seq<EntityPlan>,
    x: nat)
    requires Compiled(pf, im, scene, attempts, base, plans) && x < |im.entities| == |KeyOrder(im)|
    requires forall i | 0 <= i < |im.relations| && !im.relations[i].Parent? ::
      im.relations[i].Subject() != KeyOrder(im)[x].key
    ensures x < |plans| && x < |PatchOf(im, plans).operations|
    ensures CreatesEntity(PatchOf(im, plans).operations[x], KeyOrder(im)[x], plans[x].entityId, plans[x].transform)
    ensures DeclaresTransform(KeyOrder(im)[x], plans[x].transform)
  {
    CompiledCreates(pf, im, scene, attempts, base, plans, x);
    PlanShows(pf, im, scene, attempts, base, plans, x);
    UnplacedStays(pf, im, KeyOrder(im)[x].key);
  }

  // ----- the hierarchy -----

  lemma {:induction false} FindChild(children: seq<EntityPlan>, plans: seq<EntityPlan>, o: Operation) returns (x: nat)
    requires o in Reparents(children, plans)
    ensures x < |children| && children[x].parent.Some? && o == ReparentOf(children[x], plans)
  {
    if children[0].parent.Some? && o == ReparentOf(children[0], plans) {
      x := 0;
    } else {
      var rest := FindChild(children[1..], plans, o);
      x := rest + 1;
    }
  }

  lemma {:induction false} ChildIsReparented(children: seq<EntityPlan>, plans: seq<EntityPlan>, x: nat)
    requires x < |children| && children[x].parent.Some?
    ensures ReparentOf(children[x], plans) in Reparents(children, plans)
  {
    if x > 0 { ChildIsReparented(children[1..], plans, x - 1); }
  }

  /** Entities `x` and `y` of the key order are the child and the parent of relation `i`. */
  ghost predicate Parents(im: Imagination, i: nat, x: nat, y: nat) {
    && i < |im.relations| && im.relations[i].Parent? && x < |KeyOrder(im)| && y < |KeyOrder(im)|
    && KeyOrder(im)[x].key == im.relations[i].Subject() && KeyOrder(im)[y].key == im.relations[i].Target()
  }

  /** Every parent relation of a compiled request reparents its child to its parent, after all creates. */
  lemma {:induction false} ParentRelationReparents(
    pf: Platform, im: Imagination, scene: SceneView, attempts: nat, base: seq<EntityPlan>, plans: seq<EntityPlan>,
    i: nat)
    returns (x: nat, y: nat)
    requires Compiled(pf, im, scene, attempts, base, plans) && i < |im.relations| && im.relations[i].Parent?
    ensures Parents(im, i, x, y) && |plans| == |KeyOrder(im)| == |im.entities| <= |PatchOf(im, plans).operations|
    ensures Reparent(plans[x].entityId, Some(plans[y].entityId)) in PatchOf(im, plans).operations[|im.entities|..]
  {
    GraphsAreRelations(im, i);
    FinalKeysDistinct(pf, im, scene, attempts, base, plans);
    x := KeyHasPlan(pf, im, scene, attempts, base, plans, im.relations[i].Subject());
    y := KeyHasPlan(pf, im, scene, attempts, base, plans, im.relations[i].Target());
    FinalFields(pf, im, scene, attempts, base, plans, x);
    FinalFields(pf, im, scene, attempts, base, plans, y);
    ChildIsReparented(plans, plans, x);
    ReparentsFollow(im, plans);
  }

  lemma {:induction false} ReparentsFollow(im: Imagination, plans: seq<EntityPlan>)
    ensures |plans| <= |PatchOf(im, plans).operations|
    ensures PatchOf(im, plans).operations[|plans|..] == Reparents(plans, plans)
  {
    if plans != [] { CreateAt(plans, 0); }
  }

  /** Every operation after the creates is the reparenting of one parent relation. */
  lemma {:induction false} ReparentHasRelation(
    pf: Platform, im: Imagination, scene: SceneView, attempts: nat, base: seq<EntityPlan>, plans: seq<EntityPlan>,
    n: nat)
    returns (i: nat, x: nat, y: nat)
    requires Compiled(pf, im, scene, attempts, base, plans)
    requires |im.entities| <= n < |PatchOf(im, plans).operations|
    ensures Parents(im, i, x, y) && |plans| == |KeyOrder(im)|
    ensures PatchOf(im, plans).operations[n] == Reparent(plans[x].entityId, Some(plans[y].entityId))
  {
    FinalKeysDistinct(pf, im, scene, attempts, base, plans);
    ReparentsFollow(im, plans);
    var o := PatchOf(im, plans).operations[n];
    assert o == Reparents(plans, plans)[n - |plans|];
    x := FindChild(plans, plans, o);
    FinalFields(pf, im, scene, attempts, base, plans, x);
    i := plans[x].parentRelation.value;
    GraphsAreRelations(im, i);
    y := KeyHasPlan(pf, im, scene, attempts, base, plans, plans[x].parent.value);
    FinalFields(pf, im, scene, attempts, base, plans, y);
  }
}
