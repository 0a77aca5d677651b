/** Entity planning: normal order, collision-free identities and recorded defaults (compiler.rs). */
module Planning {
  import opened Machine
  import opened Ordering
  import opened Protocol
  import opened CompilationReport

  /**
   * What the compiler takes from outside its own logic: single-precision addition and
   * multiplication, and the SHA-256 prefix read as a 128-bit candidate identity from
   * (imagination ID, seed, key, attempt). Every result holds for all such functions.
   */
  datatype Platform = Platform(
    add: (F32, F32) -> F32, mul: (F32, F32) -> F32, candidateId: (nat, nat, Text, nat) -> nat)

  datatype SceneView = SceneView(revision: nat, entityIds: set<EntityId>)

  datatype PlacementKind = PlaceAbove(clearance: F32) | PlaceRightOf(gap: F32)

  datatype Placement = Placement(relationIndex: nat, anchor: Text, kind: PlacementKind)

  datatype EntityPlan = EntityPlan(
    key: Text, entityId: EntityId, name: Text, primitive: Primitive, transform: Transform, material: Material,
    parent: Option<Text>, parentRelation: Option<nat>, placement: Option<Placement>)

  const IDENTITY_TRANSFORM := Transform(
    Vec3(F32_ZERO, F32_ZERO, F32_ZERO),
    Quaternion(F32_ZERO, F32_ZERO, F32_ZERO, F32_ONE),
    Vec3(F32_ONE, F32_ONE, F32_ONE))

  // Base colour 0.7 with full opacity, metallic 0.0 and roughness 0.8.
  const NEUTRAL_MATERIAL := Material(0x3F33_3333, 0x3F33_3333, 0x3F33_3333, F32_ONE, F32_ZERO, 0x3F4C_CCCD)

  function EntityCmp(a: ImaginedEntity, b: ImaginedEntity): Order { TextCmp(a.key, b.key) }

  function KeyOrder(im: Imagination): seq<ImaginedEntity> { SortBy(im.entities, EntityCmp) }

  /** The first attempt from `attempt` on whose candidate is non-zero and not taken. */
  function FirstFreeId(pf: Platform, im: Imagination, key: Text, taken: set<EntityId>, attempt: nat, attempts: nat)
    : Option<EntityId>
    decreases attempts - attempt
  {
    if attempt >= attempts then None
    else
      var candidate := pf.candidateId(im.imaginationId, im.seed, key, attempt);
      if candidate != 0 && candidate !in taken then Some(candidate)
      else FirstFreeId(pf, im, key, taken, attempt + 1, attempts)
  }

  lemma {:induction false} FirstFreeIdIsFree(
    pf: Platform, im: Imagination, key: Text, taken: set<EntityId>, attempt: nat, attempts: nat)
    ensures FirstFreeId(pf, im, key, taken, attempt, attempts).Some? ==>
      var id := FirstFreeId(pf, im, key, taken, attempt, attempts).value; id != 0 && id !in taken
    decreases attempts - attempt
  {
    if attempt < attempts { FirstFreeIdIsFree(pf, im, key, taken, attempt + 1, attempts); }
  }

  /** Candidate `attempt` cannot be used. */
  predicate Unusable(pf: Platform, im: Imagination, key: Text, taken: set<EntityId>, attempt: nat) {
    var id := pf.candidateId(im.imaginationId, im.seed, key, attempt);
    id == 0 || id in taken
  }

  /** The derived identity is the candidate of the first usable attempt, and there is none only if no attempt is. */
  lemma {:induction false} FirstFreeIdExactly(
    pf: Platform, im: Imagination, key: Text, taken: set<EntityId>, attempt: nat, attempts: nat)
    returns (at: nat)
    ensures attempt <= at <= Max(attempt, attempts)
    ensures forall a | attempt <= a < at :: Unusable(pf, im, key, taken, a)
    ensures at < attempts ==> !Unusable(pf, im, key, taken, at)
    ensures FirstFreeId(pf, im, key, taken, attempt, attempts) ==
      if at < attempts then Some(pf.candidateId(im.imaginationId, im.seed, key, at)) else None
    decreases attempts - attempt
  {
    at := attempt;
    if attempt < attempts && Unusable(pf, im, key, taken, attempt) {
      at := FirstFreeIdExactly(pf, im, key, taken, attempt + 1, attempts);
    }
  }

  method DeriveEntityId(pf: Platform, im: Imagination, key: Text, taken: set<EntityId>, attempts: NonZero32)
    returns (r: Option<EntityId>)
    ensures r == FirstFreeId(pf, im, key, taken, 0, attempts)
  {
    var attempt := 0;
    while attempt < attempts
      invariant attempt <= attempts
      invariant FirstFreeId(pf, im, key, taken, 0, attempts) == FirstFreeId(pf, im, key, taken, attempt, attempts)
    {
      var candidate := pf.candidateId(im.imaginationId, im.seed, key, attempt);
      if candidate != 0 && candidate !in taken { return Some(candidate); }
      attempt := attempt + 1;
    }
    return None;
  }

  /** A free preferred identity is kept; otherwise one is derived. */
  function ChooseId(pf: Platform, im: Imagination, e: ImaginedEntity, taken: set<EntityId>, attempts: nat)
    : Option<EntityId>
  {
    if e.preferredId.Some? && e.preferredId.value !in taken then e.preferredId
    else FirstFreeId(pf, im, e.key, taken, 0, attempts)
  }

  function PlanEntity(e: ImaginedEntity, id: EntityId): EntityPlan {
    EntityPlan(e.key, id, e.DisplayName(), e.primitive,
      if e.transform.Some? then e.transform.value else IDENTITY_TRANSFORM,
      if e.material.Some? then e.material.value else NEUTRAL_MATERIAL,
      None, None, None)
  }

  function IdDecision(e: ImaginedEntity, id: EntityId): Decision {
    Decision(if e.preferredId.Some? then PreferredEntityIdSubstituted else GeneratedEntityId, e.key, None, Some(id))
  }

  function DefaultDecisions(e: ImaginedEntity): seq<Decision> {
    (if e.name.Some? then [] else [Decision(DefaultName, e.key, None, None)])
    + (if e.transform.Some? then [] else [Decision(DefaultTransform, e.key, None, None)])
    + (if e.material.Some? then [] else [Decision(DefaultMaterial, e.key, None, None)])
  }

  /** The explanations owed for one entity that received identity `id`. */
  function EntityDecisions(e: ImaginedEntity, id: EntityId): seq<Decision> {
    (if e.preferredId == Some(id) then [] else [IdDecision(e, id)]) + DefaultDecisions(e)
  }

  /** `d` explains a choice the compiler made for entity `e`, which received identity `id`. */
  predicate Explains(e: ImaginedEntity, id: EntityId, d: Decision) {
    && d.entityKey == e.key && d.relationIndex.None?
    && match d.code
       case GeneratedEntityId => e.preferredId.None? && d.entityId == Some(id)
       case PreferredEntityIdSubstituted =>
         e.preferredId.Some? && e.preferredId.value != id && d.entityId == Some(id)
       case DefaultName => e.name.None? && d.entityId.None?
       case DefaultTransform => e.transform.None? && d.entityId.None?
       case DefaultMaterial => e.material.None? && d.entityId.None?
       case _ => false
  }

  lemma {:induction false} DefaultDecisionsExactly(e: ImaginedEntity, id: EntityId, d: Decision)
    ensures d in DefaultDecisions(e) <==> Explains(e, id, d) && d.entityId.None?
  {
  }

  /** What is explained of an entity: every value that was generated, substituted or defaulted, and nothing else. */
  lemma {:induction false} EntityDecisionsExactly(e: ImaginedEntity, id: EntityId, d: Decision)
    ensures d in EntityDecisions(e, id) <==> Explains(e, id, d)
  {
    DefaultDecisionsExactly(e, id, d);
  }

  ghost function Ids(plans: seq<EntityPlan>): set<EntityId> { set p | p in plans :: p.entityId }

  /** Every entity gets the identity `ChooseId` picks given the scene and the entities before it. */
  ghost predicate PlannedPrefix(
    pf: Platform, im: Imagination, scene: SceneView, attempts: nat, es: seq<ImaginedEntity>, plans: seq<EntityPlan>)
  {
    && |plans| <= |es|
    && forall i | 0 <= i < |plans| ::
         && ChooseId(pf, im, es[i], scene.entityIds + Ids(plans[..i]), attempts) == Some(plans[i].entityId)
         && plans[i] == PlanEntity(es[i], plans[i].entityId)
  }

  /** Decisions of the planned entities, in planning order. */
  function PlanDecisions(es: seq<ImaginedEntity>, plans: seq<EntityPlan>): seq<Decision>
    requires |plans| <= |es|
  {
    if plans == [] then []
    else
      var n := |plans| - 1;
      PlanDecisions(es, plans[..n]) + EntityDecisions(es[n], plans[n].entityId)
  }

  /** One turn of the planning loop: the identity and the explanations recorded for `e`. */
  method PlanNext(pf: Platform, im: Imagination, e: ImaginedEntity, taken: set<EntityId>, attempts: NonZero32)
    returns (id: Option<EntityId>, ds: seq<Decision>)
    ensures id == ChooseId(pf, im, e, taken, attempts)
    ensures id.Some? ==> id.value !in taken && ds == EntityDecisions(e, id.value)
  {
    ds := [];
    if e.preferredId.Some? && e.preferredId.value !in taken {
      id := e.preferredId;
    } else {
      id := DeriveEntityId(pf, im, e.key, taken, attempts);
      if id.None? { return; }
      FirstFreeIdIsFree(pf, im, e.key, taken, 0, attempts);
      ds := [IdDecision(e, id.value)];
    }
    ds := ds + DefaultDecisions(e);
  }

  datatype PlanOutcome = Planned(plans: seq<EntityPlan>, decisions: seq<Decision>) | Exhausted(entityIndex: nat)

  /**
   * `plan_entities`: plans every entity in key order, or stops at the first one for which
   * every attempt is taken.
   */
  method PlanEntities(pf: Platform, im: Imagination, scene: SceneView, attempts: NonZero32) returns (r: PlanOutcome)
    ensures r.Planned? ==>
      && |r.plans| == |KeyOrder(im)|
      && PlannedPrefix(pf, im, scene, attempts, KeyOrder(im), r.plans)
      && r.decisions == PlanDecisions(KeyOrder(im), r.plans)
    ensures r.Exhausted? ==> r.entityIndex < |KeyOrder(im)| && exists plans ::
      && |plans| == r.entityIndex
      && PlannedPrefix(pf, im, scene, attempts, KeyOrder(im), plans)
      && ChooseId(pf, im, KeyOrder(im)[r.entityIndex], scene.entityIds + Ids(plans), attempts).None?
  {
    var es := KeyOrder(im);
    var plans: seq<EntityPlan>, decisions: seq<Decision>, used: set<EntityId> := [], [], {};
    while |plans| < |es|
      invariant used == Ids(plans)
      invariant PlannedPrefix(pf, im, scene, attempts, es, plans)
      invariant decisions == PlanDecisions(es, plans)
      decreases |es| - |plans|
    {
      var id, ds := PlanNext(pf, im, es[|plans|], scene.entityIds + used, attempts);
      if id.None? {
        return Exhausted(|plans|);
      }
      ExtendPlan(pf, im, scene, attempts, es, plans, id.value);
      ExtendDecisions(es, plans, id.value);
      plans := plans + [PlanEntity(es[|plans|], id.value)];
      used := used + {id.value};
      decisions := decisions + ds;
    }
    return Planned(plans, decisions);
  }

  lemma {:induction false} ExtendPlan(
    pf: Platform, im: Imagination, scene: SceneView, attempts: nat, es: seq<ImaginedEntity>, plans: seq<EntityPlan>,
    id: EntityId)
    requires |plans| < |es| && PlannedPrefix(pf, im, scene, attempts, es, plans)
    requires ChooseId(pf, im, es[|plans|], scene.entityIds + Ids(plans), attempts) == Some(id)
    ensures PlannedPrefix(pf, im, scene, attempts, es, plans + [PlanEntity(es[|plans|], id)])
  {
    var more := plans + [PlanEntity(es[|plans|], id)];
    assert more[..|plans|] == plans;
    assert forall i | 0 <= i < |plans| :: more[..i] == plans[..i];
  }

  lemma {:induction false} ExtendDecisions(es: seq<ImaginedEntity>, plans: seq<EntityPlan>, id: EntityId)
    requires |plans| < |es|
    ensures var more := plans + [PlanEntity(es[|plans|], id)];
      && Ids(more) == Ids(plans) + {id}
      && PlanDecisions(es, more) == PlanDecisions(es, plans) + EntityDecisions(es[|plans|], id)
  {
    var more := plans + [PlanEntity(es[|plans|], id)];
    assert more[..|plans|] == plans;
  }

  /**
   * Each entity keeps a preferred identity that the scene and the entities before it leave free, and otherwise gets
   * the first usable candidate.
   */
  lemma {:induction false} PlannedIdExactly(
    pf: Platform, im: Imagination, scene: SceneView, attempts: nat, es: seq<ImaginedEntity>, plans: seq<EntityPlan>,
    i: nat)
    returns (at: nat)
    requires PlannedPrefix(pf, im, scene, attempts, es, plans) && i < |plans|
    ensures var e, id, taken := es[i], plans[i].entityId, scene.entityIds + Ids(plans[..i]);
      if e.preferredId.Some? && e.preferredId.value !in taken then id == e.preferredId.value
      else
        && at < attempts && id == pf.candidateId(im.imaginationId, im.seed, e.key, at)
        && !Unusable(pf, im, e.key, taken, at) && forall a | 0 <= a < at :: Unusable(pf, im, e.key, taken, a)
  {
    at := FirstFreeIdExactly(pf, im, es[i].key, scene.entityIds + Ids(plans[..i]), 0, attempts);
  }

  /** Planned identities are pairwise distinct and absent from the scene. */
  lemma {:induction false} PlannedIdsFresh(
    pf: Platform, im: Imagination, scene: SceneView, attempts: nat, es: seq<ImaginedEntity>, plans: seq<EntityPlan>)
    requires PlannedPrefix(pf, im, scene, attempts, es, plans)
    ensures forall i | 0 <= i < |plans| :: plans[i].entityId !in scene.entityIds
    ensures forall i, j | 0 <= i < j < |plans| :: plans[i].entityId != plans[j].entityId
  {
    forall j | 0 <= j < |plans| ensures plans[j].entityId !in scene.entityIds + Ids(plans[..j]) {
      FirstFreeIdIsFree(pf, im, es[j].key, scene.entityIds + Ids(plans[..j]), 0, attempts);
    }
    forall i, j | 0 <= i < j < |plans| ensures plans[i].entityId != plans[j].entityId {
      assert plans[..j][i] in plans[..j];
    }
  }

  /** Key order is a strictly increasing rearrangement of the declared entities. */
  lemma KeyOrderStrict(im: Imagination)
    requires im.DistinctKeys()
    ensures multiset(KeyOrder(im)) == multiset(im.entities)
    ensures |KeyOrder(im)| == |im.entities| && Elements(KeyOrder(im)) == Elements(im.entities)
    ensures StrictlySorted(KeyOrder(im), EntityCmp)
    ensures forall i, j | 0 <= i < j < |im.entities| :: KeyOrder(im)[i].key != KeyOrder(im)[j].key
  {
    forall a: ImaginedEntity, b: ImaginedEntity, c: ImaginedEntity ensures Lawful(EntityCmp, a, b, c) {
      TextCmpLawful(a.key, b.key, c.key);
    }
    SortBySorts(im.entities, EntityCmp);
    var s := KeyOrder(im);
    PermutationNoDuplicates(s, im.entities);
    forall i, j | 0 <= i < j < |s| ensures s[i].key != s[j].key && EntityCmp(s[i], s[j]) != Equal {
      TextCmpLawful(s[i].key, s[j].key, []);
      assert s[i] in Elements(s) && s[j] in Elements(s);
    }
    SortedDistinctIsStrict(s, EntityCmp);
  }
}
