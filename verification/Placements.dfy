/** Spatial placement: the memoised resolution and what it computes (compiler.rs). */
module Placements {
  import opened Machine
  import opened FunctionalGraph
  import opened Protocol
  import opened CompilationReport
  import opened Planning
  import opened Relations

  predicate Unrotated(t: Transform) {
    IsZero(t.rotation.x) && IsZero(t.rotation.y) && IsZero(t.rotation.z)
  }

  /** Half the extent of a primitive of dimension `dimension` scaled by `scale`. */
  function HalfExtent(pf: Platform, dimension: F32, scale: F32): F32 {
    pf.mul(pf.mul(dimension, scale), F32_HALF)
  }

  /** Anchor position, plus half the anchor, plus the gap, plus half the subject. */
  function Beside(pf: Platform, position: F32, anchorHalf: F32, gap: F32, subjectHalf: F32): F32 {
    pf.add(pf.add(pf.add(position, anchorHalf), gap), subjectHalf)
  }

  /** Where a relation puts its subject, given the anchor's final transform. */
  function Place(
    pf: Platform, kind: PlacementKind, subject: Transform, subjectSize: Vec3, anchor: Transform, anchorSize: Vec3)
    : Result<Transform, UnresolvedCode>
  {
    if !Unrotated(subject) || !Unrotated(anchor) then Err(UnsupportedSpatialRotation)
    else
      match kind
      case PlaceAbove(clearance) =>
        (match FiniteF32(Beside(pf, anchor.translation.y, HalfExtent(pf, anchorSize.y, anchor.scale.y),
                 clearance, HalfExtent(pf, subjectSize.y, subject.scale.y)))
         case None => Err(NonFinitePlacement)
         case Some(y) => Ok(subject.(translation := Vec3(anchor.translation.x, y, anchor.translation.z))))
      case PlaceRightOf(gap) =>
        (match FiniteF32(Beside(pf, anchor.translation.x, HalfExtent(pf, anchorSize.x, anchor.scale.x),
                 gap, HalfExtent(pf, subjectSize.x, subject.scale.x)))
         case None => Err(NonFinitePlacement)
         case Some(x) => Ok(subject.(translation := Vec3(x, anchor.translation.y, anchor.translation.z))))
  }

  // ----- where a placed entity stands -----

  predicate Rotated(t: Transform) {
    t.rotation.x !in {0, 0x8000_0000} || t.rotation.y !in {0, 0x8000_0000} || t.rotation.z !in {0, 0x8000_0000}
  }

  predicate Infinite(v: F32) { (v / 0x80_0000) % 0x100 == 0xFF }

  /** `x` is the finite `v` without the sign of a zero. */
  predicate Normalised(v: F32, x: F32) { !Infinite(v) && x == (if v == 0x8000_0000 then 0 else v) }

  /**
   * Along one axis: the anchor's position, plus half of its scaled dimension, plus the distance, plus half of the
   * subject's scaled dimension, in single precision and in this order.
   */
  function Offset(
    pf: Platform, position: F32, anchorDimension: F32, anchorScale: F32, distance: F32, dimension: F32, scale: F32)
    : F32
  {
    var toFace := pf.add(position, pf.mul(pf.mul(anchorDimension, anchorScale), 0x3F00_0000));
    pf.add(pf.add(toFace, distance), pf.mul(pf.mul(dimension, scale), 0x3F00_0000))
  }

  /** The height of a subject of size `size` declared at `d`, above an anchor at `u`. */
  function AboveOffset(pf: Platform, clearance: F32, d: Transform, size: Vec3, u: Transform, anchorSize: Vec3): F32 {
    Offset(pf, u.translation.y, anchorSize.y, u.scale.y, clearance, size.y, d.scale.y)
  }

  function RightOffset(pf: Platform, gap: F32, d: Transform, size: Vec3, u: Transform, anchorSize: Vec3): F32 {
    Offset(pf, u.translation.x, anchorSize.x, u.scale.x, gap, size.x, d.scale.x)
  }

  /** A transform `t` at height `v` over an anchor at `u`, rotated and scaled as declared at `d`. */
  predicate StandsAbove(v: F32, t: Transform, d: Transform, u: Transform) {
    && t.rotation == d.rotation && t.scale == d.scale
    && t.translation.x == u.translation.x && Normalised(v, t.translation.y) && t.translation.z == u.translation.z
  }

  predicate StandsRight(v: F32, t: Transform, d: Transform, u: Transform) {
    && t.rotation == d.rotation && t.scale == d.scale
    && Normalised(v, t.translation.x) && t.translation.y == u.translation.y && t.translation.z == u.translation.z
  }

  lemma {:induction false} PlaceMeans(
    pf: Platform, kind: PlacementKind, d: Transform, size: Vec3, u: Transform, anchorSize: Vec3)
    ensures var placed := Place(pf, kind, d, size, u, anchorSize);
      var v := if kind.PlaceAbove? then AboveOffset(pf, kind.clearance, d, size, u, anchorSize)
               else RightOffset(pf, kind.gap, d, size, u, anchorSize);
      && (placed == Err(UnsupportedSpatialRotation) <==> Rotated(d) || Rotated(u))
      && (placed == Err(NonFinitePlacement) <==> !Rotated(d) && !Rotated(u) && Infinite(v))
      && (placed.Err? ==> placed.error.UnsupportedSpatialRotation? || placed.error.NonFinitePlacement?)
      && (placed.Ok? ==>
            if kind.PlaceAbove? then StandsAbove(v, placed.value, d, u) else StandsRight(v, placed.value, d, u))
  {
  }

  // ----- meaning, by key and independent of any order -----

  ghost function EntityOf(im: Imagination, k: Text): ImaginedEntity
    requires k in Keys(im)
  {
    var e :| e in im.entities && e.key == k; e
  }

  lemma {:induction false} EntityOfKey(im: Imagination, e: ImaginedEntity)
    requires im.DistinctKeys() && e in im.entities
    ensures e.key in Keys(im) && EntityOf(im, e.key) == e
  {
    var f := EntityOf(im, e.key);
    var i :| 0 <= i < |im.entities| && im.entities[i] == e;
    var j :| 0 <= j < |im.entities| && im.entities[j] == f;
    assert i == j;
  }

  ghost function DeclaredTransform(im: Imagination, k: Text): Transform
    requires k in Keys(im)
  {
    if EntityOf(im, k).transform.Some? then EntityOf(im, k).transform.value else IDENTITY_TRANSFORM
  }

  function KindOf(r: Relation): PlacementKind
    requires !r.Parent?
  {
    match r case Above(_, _, clearance) => PlaceAbove(clearance) case RightOf(_, _, gap) => PlaceRightOf(gap)
  }

  /** `PlacementResolutionFailure`: the reason, and the relation that itself could not be applied. */
  datatype Failure = Failure(code: UnresolvedCode, relationIndex: nat, subject: Text, anchor: Text)

  lemma {:induction false} PlacementGraphClosed(im: Imagination, k: Text)
    requires k in PlacementGraph(im)
    ensures PlacementGraph(im)[k] in Keys(im) && FinalOwner(im, k).Some?
    ensures FinalOwner(im, k).value < |im.relations| && !im.relations[FinalOwner(im, k).value].Parent?
    ensures im.relations[FinalOwner(im, k).value].Subject() == k
    ensures im.relations[FinalOwner(im, k).value].Target() == PlacementGraph(im)[k] != k
  {
    OwnerIsFirst(im, k, |im.relations|);
  }

  /**
   * The final transform of `k`: the declared one when `k` is not placed, otherwise the relation's
   * formula over the final transform of its anchor. A failure of the anchor is the subject's failure.
   */
  ghost function Placed(pf: Platform, im: Imagination, k: Text): Result<Transform, Failure>
    requires Acyclic(PlacementGraph(im)) && k in Keys(im)
    decreases Height(PlacementGraph(im), k)
  {
    var g := PlacementGraph(im);
    if k !in g then Ok(DeclaredTransform(im, k))
    else
      PlacementGraphClosed(im, k);
      HeightDecreases(g, k);
      match Placed(pf, im, g[k])
      case Err(f) => Err(f)
      case Ok(anchor) =>
        match Place(pf, KindOf(im.relations[FinalOwner(im, k).value]), DeclaredTransform(im, k),
                EntityOf(im, k).primitive.dimensions, anchor, EntityOf(im, g[k]).primitive.dimensions)
        case Err(code) => Err(Failure(code, FinalOwner(im, k).value, k, g[k]))
        case Ok(t) => Ok(t)
  }

  // ----- plans that carry the relations of an imagination -----

  ghost predicate PlanOf(im: Imagination, p: EntityPlan) {
    p.key in Keys(im) && p == Attach(PlanEntity(EntityOf(im, p.key), p.entityId), im, |im.relations|)
  }

  ghost predicate Assigned(im: Imagination, plans: seq<EntityPlan>, index: map<Text, nat>) {
    Indexed(plans, index) && index.Keys == Keys(im) && forall x | 0 <= x < |plans| :: PlanOf(im, plans[x])
  }

  /** What a plan's fields say in terms of the two graphs. */
  lemma {:induction false} PlanFields(im: Imagination, p: EntityPlan)
    requires PlanOf(im, p)
    ensures p.transform == DeclaredTransform(im, p.key) && p.primitive == EntityOf(im, p.key).primitive
    ensures p.parent.Some? <==> p.parentRelation.Some?
    ensures p.parent.Some? <==> p.key in ParentGraph(im)
    ensures p.parent.Some? ==>
      && p.parent.value == ParentGraph(im)[p.key] && p.parent.value in Keys(im)
      && p.parentRelation == FinalOwner(im, p.key)
    ensures p.placement.Some? <==> p.key in PlacementGraph(im)
    ensures p.placement.Some? ==>
      && p.placement.value.anchor == PlacementGraph(im)[p.key] && p.placement.value.anchor in Keys(im)
      && Some(p.placement.value.relationIndex) == FinalOwner(im, p.key)
      && p.placement.value.relationIndex < |im.relations|
      && !im.relations[p.placement.value.relationIndex].Parent?
      && p.placement.value.kind == KindOf(im.relations[p.placement.value.relationIndex])
    ensures p.parent.None? || p.placement.None?
  {
    assert EntityOf(im, p.key).key == p.key;
    OwnerIsFirst(im, p.key, |im.relations|);
  }

  function IssueOf(f: Failure): Unresolved { Issue(f.code, f.relationIndex, f.subject, f.anchor) }

  lemma {:induction false} FailureSubjectPlaced(pf: Platform, im: Imagination, k: Text)
    requires Acyclic(PlacementGraph(im)) && k in Keys(im)
    requires Placed(pf, im, k).Err?
    ensures var f := Placed(pf, im, k).error;
      && f.subject in PlacementGraph(im) && f.subject in Keys(im) && Placed(pf, im, f.subject) == Err(f)
      && f.relationIndex < |im.relations| && IssueOf(f) == RelationIssue(im, f.code, f.relationIndex)
      && FinalOwner(im, f.subject) == Some(f.relationIndex)
    decreases Height(PlacementGraph(im), k)
  {
    var g := PlacementGraph(im);
    PlacementGraphClosed(im, k);
    HeightDecreases(g, k);
    if Placed(pf, im, g[k]).Err? { FailureSubjectPlaced(pf, im, g[k]); }
  }

  /** The outcome for `subject` given the outcome for its anchor. */
  function Step(pf: Platform, subject: EntityPlan, anchor: EntityPlan, settled: Result<Transform, Failure>)
    : Result<Transform, Failure>
    requires subject.placement.Some?
  {
    match settled
    case Err(f) => Err(f)
    case Ok(t) =>
      var p := subject.placement.value;
      match Place(pf, p.kind, subject.transform, subject.primitive.dimensions, t, anchor.primitive.dimensions)
      case Err(code) => Err(Failure(code, p.relationIndex, subject.key, p.anchor))
      case Ok(placed) => Ok(placed)
  }

  /** The outcome at `x` follows from the one of its anchor, which is lower. */
  ghost predicate OutcomeAt(
    pf: Platform, plans: seq<EntityPlan>, index: map<Text, nat>, height: seq<nat>,
    final: seq<Result<Transform, Failure>>, x: nat)
    requires x < |height| == |final| == |plans|
  {
    match plans[x].placement
    case None => final[x] == Ok(plans[x].transform)
    case Some(p) =>
      && p.anchor in index && index[p.anchor] < |plans|
      && height[index[p.anchor]] < height[x]
      && final[x] == Step(pf, plans[x], plans[index[p.anchor]], final[index[p.anchor]])
  }

  /** Outcomes for every plan that agree with each other step by step, with `height` falling towards anchors. */
  ghost predicate Outcomes(
    pf: Platform, plans: seq<EntityPlan>, index: map<Text, nat>, height: seq<nat>,
    final: seq<Result<Transform, Failure>>)
  {
    |height| == |final| == |plans| && forall x | 0 <= x < |plans| :: OutcomeAt(pf, plans, index, height, final, x)
  }

  ghost function PlacedAll(pf: Platform, im: Imagination, plans: seq<EntityPlan>): seq<Result<Transform, Failure>>
    requires Acyclic(PlacementGraph(im))
    requires forall x | 0 <= x < |plans| :: plans[x].key in Keys(im)
  {
    seq(|plans|, x requires 0 <= x < |plans| => Placed(pf, im, plans[x].key))
  }

  ghost function Heights(im: Imagination, plans: seq<EntityPlan>): seq<nat> {
    seq(|plans|, x requires 0 <= x < |plans| => Height(PlacementGraph(im), plans[x].key))
  }

  lemma {:induction false} PlacedAreOutcomes(
    pf: Platform, im: Imagination, plans: seq<EntityPlan>, index: map<Text, nat>)
    requires Assigned(im, plans, index) && Acyclic(PlacementGraph(im))
    ensures Outcomes(pf, plans, index, Heights(im, plans), PlacedAll(pf, im, plans))
  {
    forall x | 0 <= x < |plans|
      ensures OutcomeAt(pf, plans, index, Heights(im, plans), PlacedAll(pf, im, plans), x)
    {
      PlacedIsOutcome(pf, im, plans, index, x);
    }
  }

  lemma {:induction false} PlacedIsOutcome(
    pf: Platform, im: Imagination, plans: seq<EntityPlan>, index: map<Text, nat>, x: nat)
    requires Assigned(im, plans, index) && Acyclic(PlacementGraph(im)) && x < |plans|
    ensures OutcomeAt(pf, plans, index, Heights(im, plans), PlacedAll(pf, im, plans), x)
  {
    PlanFields(im, plans[x]);
    if plans[x].placement.Some? {
      PlacementGraphClosed(im, plans[x].key);
      HeightDecreases(PlacementGraph(im), plans[x].key);
      PlanFields(im, plans[index[plans[x].placement.value.anchor]]);
    }
  }

  // ----- the memoised resolution -----

  /** Settled plans hold their final transform, all others are as declared. */
  ghost predicate Memo(
    plans: seq<EntityPlan>, final: seq<Result<Transform, Failure>>, current: seq<EntityPlan>, resolved: seq<bool>)
    requires |final| == |plans|
  {
    && |current| == |resolved| == |plans|
    && forall x | 0 <= x < |plans| ::
         if resolved[x] then final[x].Ok? && current[x] == plans[x].(transform := final[x].value)
         else current[x] == plans[x]
  }

  ghost predicate SettledBelow(final: seq<Result<Transform, Failure>>, resolved: seq<bool>, n: nat) {
    n <= |final| == |resolved| && forall y | 0 <= y < n && final[y].Ok? :: resolved[y]
  }

  /** Every plan with its outcome; a failed one keeps the declared transform. */
  function Settle(plans: seq<EntityPlan>, final: seq<Result<Transform, Failure>>): seq<EntityPlan>
    requires |final| == |plans|
  {
    seq(|plans|, x requires 0 <= x < |plans| =>
      if final[x].Ok? then plans[x].(transform := final[x].value) else plans[x])
  }

  /** Plan `x` keeps its declared transform, or stands beside its anchor. */
  ghost predicate StandsIn(
    pf: Platform, declared: seq<EntityPlan>, index: map<Text, nat>, settled: seq<EntityPlan>, x: nat)
    requires x < |declared| == |settled|
  {
    var d, t := declared[x], settled[x].transform;
    settled[x] == d.(transform := t) &&
    match d.placement
    case None => t == d.transform
    case Some(p) =>
      && p.anchor in index && index[p.anchor] < |settled|
      && var a := settled[index[p.anchor]];
         var size, anchorSize := d.primitive.dimensions, declared[index[p.anchor]].primitive.dimensions;
         match p.kind
         case PlaceAbove(clearance) =>
           StandsAbove(AboveOffset(pf, clearance, d.transform, size, a.transform, anchorSize), t, d.transform,
             a.transform)
         case PlaceRightOf(gap) =>
           StandsRight(RightOffset(pf, gap, d.transform, size, a.transform, anchorSize), t, d.transform, a.transform)
  }

  lemma {:induction false} SettledStands(
    pf: Platform, plans: seq<EntityPlan>, index: map<Text, nat>, height: seq<nat>,
    final: seq<Result<Transform, Failure>>, x: nat)
    requires Outcomes(pf, plans, index, height, final) && x < |plans| && final[x].Ok?
    ensures StandsIn(pf, plans, index, Settle(plans, final), x)
  {
    assert OutcomeAt(pf, plans, index, height, final, x);
    if plans[x].placement.Some? {
      var p := plans[x].placement.value;
      var a := index[p.anchor];
      PlaceMeans(pf, p.kind, plans[x].transform, plans[x].primitive.dimensions, final[a].value,
        plans[a].primitive.dimensions);
    }
  }

  /**
   * `resolve_placement`: settles one plan after its anchor. An already settled plan never moves,
   * and the outcome is the one `final` gives, whatever was settled before.
   */
  method ResolvePlacement(
    pf: Platform, x: nat, entities: array<EntityPlan>, index: map<Text, nat>, resolved: array<bool>,
    ghost plans: seq<EntityPlan>, ghost height: seq<nat>, ghost final: seq<Result<Transform, Failure>>)
    returns (failure: Option<Failure>)
    requires Outcomes(pf, plans, index, height, final) && x < |plans|
    requires Memo(plans, final, entities[..], resolved[..])
    modifies entities, resolved
    ensures Memo(plans, final, entities[..], resolved[..])
    ensures forall y | 0 <= y < resolved.Length && old(resolved[y]) :: resolved[y] && entities[y] == old(entities[y])
    ensures forall n | 0 <= n <= |plans| && SettledBelow(final, old(resolved[..]), n) ::
      SettledBelow(final, resolved[..], n)
    ensures forall y | 0 <= y < resolved.Length && resolved[y] && !old(resolved[y]) :: height[y] <= height[x]
    ensures resolved[x] <==> final[x].Ok?
    ensures failure == if final[x].Ok? then None else Some(final[x].error)
    ensures failure.None? ==>
      var settled := Settle(plans, final); entities[x] == settled[x] && StandsIn(pf, plans, index, settled, x)
    decreases height[x]
  {
    assert OutcomeAt(pf, plans, index, height, final, x);
    if final[x].Ok? { SettledStands(pf, plans, index, height, final, x); }
    if resolved[x] { return None; }
    if entities[x].placement.None? {
      resolved[x] := true;
      return None;
    }
    var placement := entities[x].placement.value;
    var a := index[placement.anchor];
    failure := ResolvePlacement(pf, a, entities, index, resolved, plans, height, final);
    if failure.Some? { return; }
    var outcome := Place(pf, placement.kind, entities[x].transform, entities[x].primitive.dimensions,
      entities[a].transform, entities[a].primitive.dimensions);
    if outcome.Err? {
      return Some(Failure(outcome.error, placement.relationIndex, entities[x].key, placement.anchor));
    }
    entities[x] := entities[x].(transform := outcome.value);
    resolved[x] := true;
    return None;
  }

  /** The failures of the first `n` plans, in plan order; a failed anchor is repeated for its dependants. */
  function Failures(final: seq<Result<Transform, Failure>>, n: nat): seq<Unresolved>
    requires n <= |final|
  {
    if n == 0 then []
    else Failures(final, n - 1) + (if final[n - 1].Err? then [IssueOf(final[n - 1].error)] else [])
  }

  /** `resolve_placements`: every plan whose placement succeeds stands where its relation says. */
  method ResolvePlacements(
    pf: Platform, entities: array<EntityPlan>, index: map<Text, nat>,
    ghost height: seq<nat>, ghost final: seq<Result<Transform, Failure>>)
    returns (unresolved: seq<Unresolved>)
    requires Outcomes(pf, entities[..], index, height, final)
    modifies entities
    ensures unresolved == Failures(final, |final|)
    ensures entities[..] == Settle(old(entities[..]), final)
    ensures forall x | 0 <= x < entities.Length && final[x].Ok? ::
      StandsIn(pf, old(entities[..]), index, entities[..], x)
  {
    ghost var plans := entities[..];
    var resolved := new bool[entities.Length](_ => false);
    unresolved := [];
    for x := 0 to entities.Length
      invariant Memo(plans, final, entities[..], resolved[..])
      invariant unresolved == Failures(final, x)
      invariant SettledBelow(final, resolved[..], x)
    {
      var failure := ResolvePlacement(pf, x, entities, index, resolved, plans, height, final);
      if failure.Some? { unresolved := unresolved + [IssueOf(failure.value)]; }
    }
    AllSettled(plans, final, entities[..], resolved[..]);
    forall x | 0 <= x < entities.Length && final[x].Ok? ensures StandsIn(pf, plans, index, entities[..], x) {
      SettledStands(pf, plans, index, height, final, x);
    }
  }

  lemma {:induction false} AllSettled(
    plans: seq<EntityPlan>, final: seq<Result<Transform, Failure>>, current: seq<EntityPlan>, resolved: seq<bool>)
    requires |final| == |plans| && Memo(plans, final, current, resolved)
    requires SettledBelow(final, resolved, |plans|)
    ensures current == Settle(plans, final)
  {
  }
}
