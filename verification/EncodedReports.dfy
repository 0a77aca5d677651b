/** Which reports the derived limits let the compiler encode (limits.rs, compilation codec.rs). */
module EncodedReports {
  import opened Machine
  import opened Ordering
  import opened Protocol
  import opened CompilationReport
  import opened Planning
  import opened Relations
  import opened Acceptance
  import opened Emission
  import opened CompiledPatch
  import opened CompiledReport
  import opened JsonText
  import opened ReportJson
  import opened RequestJson
  import opened ReportEncoding
  import opened EncodedSizes
  import opened EncodedBytes

  // ----- everything emitted for the first plans -----

  lemma {:induction false} ReparentsTake(show: Show, children: seq<EntityPlan>, plans: seq<EntityPlan>)
    ensures Sum(Reparents(children, plans), OperationSlot(show)) <= Sum(children, ReparentSlot)
  {
    if children != [] {
      var rest := Reparents(children[1..], plans);
      ReparentsTake(show, children[1..], plans);
      if children[0].parent.Some? {
        assert Reparents(children, plans)[1..] == rest;
      } else {
        assert Reparents(children, plans) == rest;
      }
    }
  }

  ghost function Emitted(show: Show, es: seq<ImaginedEntity>, base: seq<EntityPlan>, plans: seq<EntityPlan>): nat
    requires |es| == |base| == |plans|
  {
    Sum(plans, CreateSlot(show)) + Sum(plans, ReparentSlot) + Sum(PlanDecisions(es, base), DecisionSlot)
    + Sum(RelationDecisions(plans), DecisionSlot)
  }

  ghost function Allowed(show: Show, es: seq<ImaginedEntity>, plans: seq<EntityPlan>): nat {
    Sum(es, EntitySlot(show)) + 768 * |es| + 30 * Sum(es, KeyBytes) + 225 * |RelationDecisions(plans)|
  }

  lemma {:induction false} EmittedWithin(
    show: Show, im: Imagination, es: seq<ImaginedEntity>, base: seq<EntityPlan>, plans: seq<EntityPlan>)
    requires AllTrace(im, es, base, plans) && |im.relations| <= U32_MAX
    ensures Emitted(show, es, base, plans) <= Allowed(show, es, plans)
    decreases |plans|
  {
    if plans != [] {
      var n := |plans| - 1;
      EmittedWithin(show, im, es[..n], base[..n], plans[..n]);
      assert Traces(im, es[n], base[n], plans[n]);
      EntityWithin(show, es[n], plans[n]);
      RelationWithin(im, plans[n]);
      EmittedGrows(show, es, base, plans);
      AllowedGrows(show, es, plans);
    }
  }

  lemma {:induction false} EmittedGrows(
    show: Show, es: seq<ImaginedEntity>, base: seq<EntityPlan>, plans: seq<EntityPlan>)
    requires |es| == |base| == |plans| > 0
    ensures var n := |plans| - 1;
      Emitted(show, es, base, plans) == Emitted(show, es[..n], base[..n], plans[..n])
        + OperationSlot(show)(CreateOf(plans[n])) + ReparentSlot(plans[n])
        + Sum(EntityDecisions(es[n], base[n].entityId), DecisionSlot) + Sum(RelationDecision(plans[n]), DecisionSlot)
  {
    var n := |plans| - 1;
    assert plans == plans[..n] + [plans[n]];
    SumPush(plans[..n], plans[n], CreateSlot(show));
    SumPush(plans[..n], plans[n], ReparentSlot);
    SumAppend(PlanDecisions(es, base[..n]), EntityDecisions(es[n], base[n].entityId), DecisionSlot);
    SumAppend(RelationDecisions(plans[..n]), RelationDecision(plans[n]), DecisionSlot);
    PlanDecisionsTake(es, base[..n]);
  }

  /** Only as many entities count as are planned. */
  lemma {:induction false} PlanDecisionsTake(es: seq<ImaginedEntity>, base: seq<EntityPlan>)
    requires |base| <= |es|
    ensures PlanDecisions(es[..|base|], base) == PlanDecisions(es, base)
    decreases |base|
  {
    if base != [] {
      var n := |base| - 1;
      PlanDecisionsTake(es, base[..n]);
      PlanDecisionsTake(es[..|base|], base[..n]);
      assert es[..|base|][..n] == es[..n];
    }
  }

  lemma {:induction false} AllowedGrows(show: Show, es: seq<ImaginedEntity>, plans: seq<EntityPlan>)
    requires |es| == |plans| > 0
    ensures var n := |plans| - 1;
      Allowed(show, es, plans) == Allowed(show, es[..n], plans[..n])
        + EntitySlot(show)(es[n]) + 768 + 30 * |es[n].key| + 225 * |RelationDecision(plans[n])|
  {
    var n := |plans| - 1;
    assert es == es[..n] + [es[n]];
    SumPush(es[..n], es[n], EntitySlot(show));
    SumPush(es[..n], es[n], KeyBytes);
  }

  // ----- reports with a patch -----

  lemma {:induction false} RelationsTake(show: Show, rs: seq<Relation>)
    ensures Sum(rs, RelationSlot(show)) >= 33 * |rs|
  {
    if rs != [] { RelationsTake(show, rs[1..]); }
  }

  /** The entries of a success report in the order they were made. */
  ghost function SuccessDecisionsOf(im: Imagination, base: seq<EntityPlan>, plans: seq<EntityPlan>): seq<Decision>
    requires |base| <= |KeyOrder(im)|
  {
    PlanDecisions(KeyOrder(im), base) + RelationDecisions(plans)
  }

  lemma {:induction false} SuccessTakes(
    show: Show, im: Imagination, scene: SceneView, base: seq<EntityPlan>, plans: seq<EntityPlan>)
    requires im.schemaVersion == SCHEMA_V1 && im.baseRevision == scene.revision <= U64_MAX
    requires |KeyOrder(im)| == |base| == |plans|
    ensures ReportSize(show, SuccessReport(im, scene, SuccessDecisionsOf(im, base, plans), plans)) <=
      398 + DeliverySize(im.delivery) + BudgetSize(im.declaredBudget.patch) + Emitted(show, KeyOrder(im), base, plans)
  {
    SuccessParts(show, im, scene, SuccessDecisionsOf(im, base, plans), plans);
    SumAppend(PlanDecisions(KeyOrder(im), base), RelationDecisions(plans), DecisionSlot);
    SumAppend(Creates(plans), Reparents(plans, plans), OperationSlot(show));
    CreatesTake(show, plans);
    ReparentsTake(show, plans, plans);
    WidthDigits(scene.revision);
  }

  /** What the first part of a request allows its report to take. */
  lemma {:induction false} AllowedWithinRequest(show: Show, im: Imagination, plans: seq<EntityPlan>)
    requires im.DistinctKeys() && |RelationDecisions(plans)| <= |im.relations|
    ensures DeliverySize(im.delivery) + BudgetSize(im.declaredBudget.patch) + Allowed(show, KeyOrder(im), plans) <=
      RequestSize(show, im) + 768 * |im.entities| + 192 * |im.relations| + 30 * im.TextBytes()
  {
    KeyTotals(im);
    KeyOrderStrict(im);
    SumOfPermutation(KeyOrder(im), im.entities, EntitySlot(show));
    RelationsTake(show, im.relations);
  }

  /**
   * A success report takes at most what its request takes, with what the derived limits allow for decisions and text.
   */
  lemma {:induction false} SuccessWithinRequest(
    pf: Platform, show: Show, im: Imagination, scene: SceneView, attempts: nat, base: seq<EntityPlan>,
    plans: seq<EntityPlan>)
    requires Compiled(pf, im, scene, attempts, base, plans) && |im.relations| <= U32_MAX
    requires im.schemaVersion == SCHEMA_V1 && im.baseRevision == scene.revision <= U64_MAX
    ensures ReportSize(show, SuccessReport(im, scene, SuccessDecisionsOf(im, base, plans), plans)) <=
      RequestSize(show, im) + 398 + 768 * |im.entities| + 192 * |im.relations| + 30 * im.TextBytes()
  {
    CompiledTrace(pf, im, scene, attempts, base, plans);
    EmittedWithin(show, im, KeyOrder(im), base, plans);
    SuccessTakes(show, im, scene, base, plans);
    AppliedTotal(pf, im, scene, attempts, base, plans);
    AllowedWithinRequest(show, im, plans);
  }

  /** No more relations than entities apply. */
  lemma {:induction false} RelationsWithinEntities(
    pf: Platform, im: Imagination, scene: SceneView, attempts: nat, base: seq<EntityPlan>, plans: seq<EntityPlan>)
    requires Compiled(pf, im, scene, attempts, base, plans)
    ensures |im.relations| <= |im.entities|
  {
    AppliedTotal(pf, im, scene, attempts, base, plans);
    SuccessBytes(pf, im, scene, attempts, base, plans);
  }

  /**
   * A size within the request and the allowances fits the derived limit, unless 64 bits cannot count it. Where the
   * decision count saturates, what is allowed for unresolved entries pays for the relations.
   */
  lemma {:induction false} SuccessArithmetic64(im: Imagination, limits: RuntimeLimits, request: nat, size: nat)
    requires CheckCollections(im, limits).None? && Sat64(im.TextBytes()) <= limits.maxTextBytes
    requires 4 * |im.entities| <= U32_MAX && |im.relations| <= |im.entities|
    requires request + 1 <= limits.maxEncodedBytes
    requires size <= request + 398 + 768 * |im.entities| + 192 * |im.relations| + 30 * im.TextBytes()
    ensures size + 1 <= DerivedLimits(limits).maxEncodedBytes <==> size + 1 <= U64_MAX
  {
    var d, u := DerivedLimits(limits).maxDecisions, DerivedLimits(limits).maxUnresolvedConstraints;
    assert d >= 4 * |im.entities| && (d == U32_MAX || d >= 4 * |im.entities| + |im.relations|);
    assert u >= |im.relations|;
  }

  /** The protocol encoder accepts the request: it is valid and its line fits. Encoding checks no nesting. */
  predicate RequestEncodes(show: Show, im: Imagination, limits: RuntimeLimits) {
    ValidateImagination(im, limits).None? && |Line(RequestJson.RequestJson(show, im))| <= limits.maxEncodedBytes
  }

  /** An admitted request can itself be encoded exactly when it fits the encoded size. */
  lemma {:induction false} RequestEncodesIff(show: Show, im: Imagination, limits: RuntimeLimits)
    ensures RequestEncodes(show, im, limits) <==>
      ValidateImagination(im, limits).None? && RequestSize(show, im) + 1 <= limits.maxEncodedBytes
  {
    RequestWritten(show, im);
  }

  lemma {:induction false} ReportFitsRequest(
    pf: Platform, show: Show, im: Imagination, scene: SceneView, attempts: nat, base: seq<EntityPlan>,
    plans: seq<EntityPlan>, limits: RuntimeLimits)
    requires ValidateImagination(im, limits).None? && im.baseRevision == scene.revision <= U64_MAX
    requires Compiled(pf, im, scene, attempts, base, plans) && 4 * |im.entities| <= U32_MAX
    requires RequestSize(show, im) + 1 <= limits.maxEncodedBytes
    ensures var size := ReportSize(show, SuccessReport(im, scene, SuccessDecisionsOf(im, base, plans), plans));
      size + 1 <= DerivedLimits(limits).maxEncodedBytes <==> size + 1 <= U64_MAX
  {
    TextAdmitted(im, limits);
    RelationsWithinEntities(pf, im, scene, attempts, base, plans);
    SuccessWithinRequest(pf, show, im, scene, attempts, base, plans);
    SuccessArithmetic64(im, limits, RequestSize(show, im),
      ReportSize(show, SuccessReport(im, scene, SuccessDecisionsOf(im, base, plans), plans)));
  }

  /** Exactly when the success report of a request can be encoded under the derived limits, in terms of the request. */
  lemma {:induction false} SuccessEncodesIff(
    pf: Platform, show: Show, im: Imagination, scene: SceneView, attempts: nat, base: seq<EntityPlan>,
    plans: seq<EntityPlan>, limits: RuntimeLimits)
    requires im.baseRevision == scene.revision && Compiled(pf, im, scene, attempts, base, plans)
    ensures Placeable(pf, im, KeyOrder(im))
    ensures var r := SuccessReport(im, scene, SuccessDecisionsOf(im, base, plans), plans);
      Encodes(show, r, DerivedLimits(limits)) <==>
      SuccessBytesOf(pf, show, im, base) + 1 <= DerivedLimits(limits).maxEncodedBytes
  {
    EncodesIffFits(show, SuccessReport(im, scene, SuccessDecisionsOf(im, base, plans), plans), limits);
    SuccessExactly(pf, show, im, scene, attempts, base, plans);
  }

  /**
   * If a compilable request with an admitted patch itself fits the encoded size, its report fits the derived one,
   * unless it is longer than 64 bits can count.
   */
  lemma {:induction false} SuccessFits64(
    pf: Platform, show: Show, im: Imagination, scene: SceneView, attempts: nat, base: seq<EntityPlan>,
    plans: seq<EntityPlan>, limits: RuntimeLimits)
    requires ValidateImagination(im, limits).None? && im.baseRevision == scene.revision <= U64_MAX
    requires Compiled(pf, im, scene, attempts, base, plans) && 4 * |im.entities| <= U32_MAX
    requires RequestSize(show, im) + 1 <= limits.maxEncodedBytes
    ensures Placeable(pf, im, KeyOrder(im))
    ensures var size := SuccessBytesOf(pf, show, im, base);
      size + 1 <= DerivedLimits(limits).maxEncodedBytes <==> size + 1 <= U64_MAX
  {
    SuccessExactly(pf, show, im, scene, attempts, base, plans);
    ReportFitsRequest(pf, show, im, scene, attempts, base, plans, limits);
  }

  // ----- reports with problems -----

  lemma {:induction false} ExplanationsWithin(es: seq<ImaginedEntity>, base: seq<EntityPlan>)
    requires |base| <= |es|
    ensures ExplanationSlots(es, base) <= 374 * |base| + 24 * Sum(es[..|base|], KeyBytes)
  {
    if base != [] {
      var n := |base| - 1;
      ExplanationsWithin(es, base[..n]);
      SumTake(es, n, KeyBytes);
    }
  }

  lemma {:induction false} ViolationsWithin(im: Imagination, scene: SceneView, n: nat)
    requires n <= |im.constraints| <= U32_MAX
    ensures ViolationSum(im, scene, n, ViolationSlot()) <= 171 * n
  {
    if n > 0 {
      ViolationsWithin(im, scene, n - 1);
      WidthDigits(n - 1);
    }
  }

  lemma {:induction false} FailureWithin(im: Imagination, code: UnresolvedCode, i: nat)
    requires i < |im.relations| <= U32_MAX
    ensures FailureSlot(im)(code, i) <= 142 + 6 * RelationText(im.relations[i])
  {
    WidthDigits(i);
    assert |UnresolvedName(code)| <= 28;
  }

  lemma {:induction false} FailuresWithin(im: Imagination, codes: Codes, n: nat)
    requires n <= |im.relations| <= U32_MAX
    ensures FailureSum(codes, n, FailureSlot(im)) <= 142 * n + 6 * Sum(im.relations[..n], RelationText)
  {
    if n > 0 {
      FailuresWithin(im, codes, n - 1);
      SumTake(im.relations, n - 1, RelationText);
      if codes(n - 1).Some? { FailureWithin(im, codes(n - 1).value, n - 1); }
    }
  }

  lemma {:induction false} ProblemSlotsWithin(pf: Platform, im: Imagination, scene: SceneView)
    requires |im.relations| <= U32_MAX && |im.constraints| <= U32_MAX
    ensures ProblemSlots(pf, im, scene) <=
      142 * |im.relations| + 171 * |im.constraints| + 6 * Sum(im.relations, RelationText)
  {
    ViolationsWithin(im, scene, |im.constraints|);
    FailuresWithin(im, CodesOf(pf, im, scene), |im.relations|);
    assert im.relations[..|im.relations|] == im.relations;
  }

  /** 374 bytes for each entity, 142 for each relation and 171 for each constraint, beyond text. */
  lemma {:induction false} ProblemsWithin(pf: Platform, im: Imagination, scene: SceneView, base: seq<EntityPlan>)
    requires im.DistinctKeys() && |base| == |KeyOrder(im)| && scene.revision <= U64_MAX
    requires |im.relations| <= U32_MAX && |im.constraints| <= U32_MAX
    ensures ProblemBytesOf(pf, im, scene, base) <=
      154 + 374 * |im.entities| + 142 * |im.relations| + 171 * |im.constraints| + 24 * im.TextBytes()
  {
    KeyTotals(im);
    ExplanationsWithin(KeyOrder(im), base);
    ProblemSlotsWithin(pf, im, scene);
    WidthDigits(scene.revision);
  }

  /** The allowances pay for a problem report even where their counts saturate. */
  lemma {:induction false} ProblemArithmetic64(im: Imagination, limits: RuntimeLimits, size: nat)
    requires CheckCollections(im, limits).None? && Sat64(im.TextBytes()) <= limits.maxTextBytes
    requires 4 * |im.entities| <= U32_MAX && |im.relations| <= U32_MAX && |im.constraints| <= U32_MAX
    requires size <=
      154 + 374 * |im.entities| + 142 * |im.relations| + 171 * |im.constraints| + 24 * im.TextBytes()
    ensures size + 1 <= DerivedLimits(limits).maxEncodedBytes <==> size + 1 <= U64_MAX
  {
    var d, u := DerivedLimits(limits).maxDecisions, DerivedLimits(limits).maxUnresolvedConstraints;
    assert d >= 4 * |im.entities| && (d == U32_MAX || d >= 4 * |im.entities| + |im.relations|);
    assert u == U32_MAX || u >= |im.relations| + |im.constraints|;
    assert 192 * d + 256 * u >= 374 * |im.entities| + 142 * |im.relations| + 171 * |im.constraints|;
  }

  /** Exactly when a problem report can be encoded under the derived limits, in terms of the request. */
  lemma {:induction false} ProblemEncodesIff(
    pf: Platform, show: Show, im: Imagination, scene: SceneView, base: seq<EntityPlan>, limits: RuntimeLimits)
    requires |base| <= |KeyOrder(im)|
    ensures var r := ProblemReport(im, scene, PlanDecisions(KeyOrder(im), base), Problems(pf, im, scene));
      Encodes(show, r, DerivedLimits(limits)) <==>
      ProblemBytesOf(pf, im, scene, base) + 1 <= DerivedLimits(limits).maxEncodedBytes
  {
    EncodesIffFits(show, ProblemReport(im, scene, PlanDecisions(KeyOrder(im), base), Problems(pf, im, scene)), limits);
    ProblemExactly(pf, show, im, scene, base);
  }

  /**
   * If four decisions for each entity, the relations and the constraints can each be counted in 32 bits, a problem
   * report fits the derived encoded size, unless it is longer than 64 bits can count.
   */
  lemma {:induction false} ProblemFits64(
    pf: Platform, im: Imagination, scene: SceneView, base: seq<EntityPlan>, limits: RuntimeLimits)
    requires ValidateImagination(im, limits).None? && im.DistinctKeys() && |base| == |KeyOrder(im)|
    requires 4 * |im.entities| <= U32_MAX && |im.relations| <= U32_MAX && |im.constraints| <= U32_MAX
    requires scene.revision <= U64_MAX
    ensures var size := ProblemBytesOf(pf, im, scene, base);
      size + 1 <= DerivedLimits(limits).maxEncodedBytes <==> size + 1 <= U64_MAX
  {
    TextAdmitted(im, limits);
    ProblemsWithin(pf, im, scene, base);
    ProblemArithmetic64(im, limits, ProblemBytesOf(pf, im, scene, base));
  }

  // ----- either report -----

  lemma {:induction false} CompilablePlaceable(pf: Platform, im: Imagination, scene: SceneView)
    requires im.DistinctKeys() && Compilable(pf, im, scene)
    ensures Placeable(pf, im, KeyOrder(im))
  {
    KeyOrderStrict(im);
    forall x | 0 <= x < |KeyOrder(im)| ensures KeyOrder(im)[x].key in Keys(im) {
      assert KeyOrder(im)[x] in Elements(KeyOrder(im));
    }
  }

  /** The encoded size of the report of a request in a scene, given the planned identities. */
  ghost function EncodedBytesOf(pf: Platform, show: Show, im: Imagination, scene: SceneView, base: seq<EntityPlan>): nat
    requires im.DistinctKeys() && |base| <= |KeyOrder(im)|
  {
    if Compilable(pf, im, scene) then (CompilablePlaceable(pf, im, scene); SuccessBytesOf(pf, show, im, base))
    else ProblemBytesOf(pf, im, scene, base)
  }

  /** A compilable request itself fits the encoded size; for any other the three counts each fit 32 bits. */
  ghost predicate Fits(pf: Platform, show: Show, im: Imagination, scene: SceneView, limits: RuntimeLimits) {
    if Compilable(pf, im, scene) then RequestSize(show, im) + 1 <= limits.maxEncodedBytes
    else 4 * |im.entities| <= U32_MAX && |im.relations| <= U32_MAX && |im.constraints| <= U32_MAX
  }
}
