/** What each part of a compiled report takes in JSON, against the part of the request it comes from (limits.rs). */
module EncodedSizes {
  import opened Machine
  import opened Protocol
  import opened CompilationReport
  import opened Planning
  import opened Emission
  import opened CompiledReport
  import opened JsonText
  import opened ReportJson
  import opened RequestJson

  // ----- report entries -----

  predicate IndexFits(i: Option<nat>) { i.Some? ==> i.value <= U32_MAX }

  /** A decision takes at most the 192 bytes allowed for it and six for each byte of its key. */
  lemma {:induction false} DecisionWithin(d: Decision)
    requires IndexFits(d.relationIndex)
    ensures DecisionSlot(d) <= 192 + 6 * DecisionText(d)
  {
    if d.relationIndex.Some? { WidthDigits(d.relationIndex.value); }
    assert |DecisionName(d.code)| <= 31;
  }

  /** An unresolved entry takes at most the 256 bytes allowed for it and six for each byte of its keys. */
  lemma {:induction false} UnresolvedWithin(u: Unresolved)
    requires IndexFits(u.relationIndex) && IndexFits(u.constraintIndex)
    ensures UnresolvedSlot(u) <= 256 + 6 * UnresolvedText(u)
  {
    if u.relationIndex.Some? { WidthDigits(u.relationIndex.value); }
    if u.constraintIndex.Some? { WidthDigits(u.constraintIndex.value); }
    assert |UnresolvedName(u.code)| <= 28;
  }

  // ----- created entities -----

  /** A created entity takes 247 bytes beyond its name, transform, primitive and material. */
  lemma {:induction false} CreateTakes(show: Show, p: EntityPlan)
    ensures OperationSlot(show)(CreateOf(p)) == 247 + EscapedBytes(p.name) + TransformSize(show, p.transform)
      + PrimitiveSize(show, p.primitive) + MaterialSize(show, p.material)
  {
    SumOfFour(Name(p.name), LocalTransform(p.transform), PrimitiveShape(p.primitive), SurfaceMaterial(p.material),
      ComponentSlot(show));
  }

  /** The bytes of the explanations of one entity, with a comma after each. */
  function EntityExplanationSlots(e: ImaginedEntity, id: EntityId): nat {
    var key := EscapedBytes(e.key);
    (if e.preferredId == Some(id) then 0 else if e.preferredId.Some? then 128 + key else 116 + key)
    + (if e.name.Some? then 0 else 79 + key) + (if e.transform.Some? then 0 else 84 + key)
    + if e.material.Some? then 0 else 83 + key
  }

  lemma {:induction false} EntityExplanationsTake(e: ImaginedEntity, id: EntityId)
    ensures Sum(EntityDecisions(e, id), DecisionSlot) == EntityExplanationSlots(e, id)
  {
    EntityDecisionsTotal(e, id, DecisionSlot);
  }

  /** A plan carries what its entity declares, the defaults for the rest, and another translation only if placed. */
  ghost predicate Follows(e: ImaginedEntity, p: EntityPlan) {
    var declared := if e.transform.Some? then e.transform.value else IDENTITY_TRANSFORM;
    && p.key == e.key && p.name == e.DisplayName() && p.primitive == e.primitive
    && p.material == (if e.material.Some? then e.material.value else NEUTRAL_MATERIAL)
    && p.transform.rotation == declared.rotation && p.transform.scale == declared.scale
    && (p.placement.None? ==> p.transform == declared)
  }

  lemma {:induction false} DefaultsTake(show: Show)
    ensures TransformSize(show, IDENTITY_TRANSFORM) == 120 && MaterialSize(show, NEUTRAL_MATERIAL) == 79
  {
    assert F32_ZERO in DEFAULT_FLOATS && F32_ONE in DEFAULT_FLOATS;
    assert NEUTRAL_MATERIAL.r in DEFAULT_FLOATS && NEUTRAL_MATERIAL.roughness in DEFAULT_FLOATS;
  }

  lemma {:induction false} MovedTakes(show: Show, s: Transform, t: Transform)
    requires s.rotation == t.rotation && s.scale == t.scale
    ensures TransformSize(show, t) <= TransformSize(show, s) + 63
  {
  }

  lemma {:induction false} CreateWithin(show: Show, e: ImaginedEntity, p: EntityPlan)
    requires Follows(e, p)
    ensures OperationSlot(show)(CreateOf(p)) <= 247 + EscapedBytes(e.DisplayName()) + PrimitiveSize(show, e.primitive)
      + (if e.transform.Some? then TransformSize(show, e.transform.value) else 120)
      + (if e.material.Some? then MaterialSize(show, e.material.value) else 79)
      + if p.placement.Some? then 63 else 0
  {
    CreateTakes(show, p);
    DefaultsTake(show);
    MovedTakes(show, if e.transform.Some? then e.transform.value else IDENTITY_TRANSFORM, p.transform);
  }

  /**
   * A created entity and its explanations take at most what the entity takes in the request, the 192 bytes allowed
   * for each of four decisions, 24 bytes for each byte of its key, and 63 for another translation.
   */
  lemma {:induction false} EntityWithin(show: Show, e: ImaginedEntity, p: EntityPlan)
    requires Follows(e, p)
    ensures OperationSlot(show)(CreateOf(p)) + Sum(EntityDecisions(e, p.entityId), DecisionSlot) <=
      EntitySlot(show)(e) + 768 + 24 * |e.key| + if p.placement.Some? then 63 else 0
  {
    CreateWithin(show, e, p);
    EntityExplanationsTake(e, p.entityId);
  }

  // ----- applied relations -----

  function ReparentSlot(p: EntityPlan): nat { if p.parent.Some? then 129 else 0 }

  /** An applied relation takes at most 225 bytes with its operation or its translation, and six for each key byte. */
  lemma {:induction false} RelationWithin(im: Imagination, p: EntityPlan)
    requires CarriesOwner(im, p) && |im.relations| <= U32_MAX && (p.parent.Some? <==> p.parentRelation.Some?)
    ensures Sum(RelationDecision(p), DecisionSlot) + ReparentSlot(p) + (if p.placement.Some? then 63 else 0) <=
      225 * |RelationDecision(p)| + 6 * |p.key|
  {
    var ds := RelationDecision(p);
    if ds != [] {
      WidthDigits(ds[0].relationIndex.value);
      assert ds == [ds[0]] && ds[1..] == [];
    }
  }
}
