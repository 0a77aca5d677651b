/** `DeterministicCompiler::compile` from admission to the validated report (compiler.rs). */
module Compiler {
  import opened Machine
  import opened Ordering
  import opened Protocol
  import opened CompilationReport
  import opened Planning
  import opened Relations
  import opened Acceptance
  import opened Diagnosis
  import opened Emission
  import opened CompiledPatch
  import opened CompiledReport
  import opened ReportJson
  import opened ReportEncoding
  import opened EncodedBytes
  import opened EncodedReports

  datatype CompilerConfig = CompilerConfig(
    runtimeLimits: RuntimeLimits, compilationLimits: CompilationLimits, maxEntityIdAttempts: NonZero32)

  predicate Derives(config: CompilerConfig) { config.compilationLimits == DerivedLimits(config.runtimeLimits) }

  /** Whether the canonical line of a validated report can be written within the limits. */
  type Encoder = (CompilationResult, CompilationLimits) -> bool

  function JsonEncoder(show: Show): Encoder {
    (r: CompilationResult, limits: CompilationLimits) => Encodes(show, r, limits)
  }

  datatype CompileError =
    | InvalidImagination(diagnostic: Diagnostic)
    | SceneRevisionMismatch(requested: nat, actual: nat)
    | EntityIdDerivationExhausted(entityIndex: nat, attempts: nat)
    | InvalidNormalizedPatch(diagnostic: Diagnostic)
    | InvalidCompilationResult(error: ReportError)
    | InvalidCompilationEncoding

  /** All entities were planned, and this is what the compiler reports. */
  ghost predicate Reports(
    pf: Platform, im: Imagination, scene: SceneView, attempts: nat, base: seq<EntityPlan>, plans: seq<EntityPlan>,
    r: CompilationResult)
  {
    && im.DistinctKeys() && |base| == |KeyOrder(im)|
    && PlannedPrefix(pf, im, scene, attempts, KeyOrder(im), base)
    && if Compilable(pf, im, scene) then
         && Compiled(pf, im, scene, attempts, base, plans)
         && r == SuccessReport(im, scene, PlanDecisions(KeyOrder(im), base) + RelationDecisions(plans), plans)
       else r == ProblemReport(im, scene, PlanDecisions(KeyOrder(im), base), Problems(pf, im, scene))
  }

  /** Some entity has a taken or missing preferred identity and no free candidate. */
  ghost predicate Starved(pf: Platform, im: Imagination, scene: SceneView, attempts: nat, n: nat) {
    n < |KeyOrder(im)| && exists plans ::
      && |plans| == n && PlannedPrefix(pf, im, scene, attempts, KeyOrder(im), plans)
      && ChooseId(pf, im, KeyOrder(im)[n], scene.entityIds + Ids(plans), attempts).None?
  }

  lemma AdmittedKeysDistinct(im: Imagination, limits: RuntimeLimits)
    requires ValidateImagination(im, limits).None?
    ensures im.DistinctKeys()
  {
    NoBadEntity(im.entities, {});
  }

  /** The stage from planned entities to the report, before any report check. */
  method Report(
    pf: Platform, im: Imagination, scene: SceneView, attempts: NonZero32, base: seq<EntityPlan>,
    planDecisions: seq<Decision>)
    returns (r: CompilationResult, ghost plans: seq<EntityPlan>)
    requires im.DistinctKeys() && |base| == |KeyOrder(im)|
    requires PlannedPrefix(pf, im, scene, attempts, KeyOrder(im), base)
    requires planDecisions == PlanDecisions(KeyOrder(im), base)
    ensures Reports(pf, im, scene, attempts, base, plans, r)
    ensures r.patch.Some? <==> Compilable(pf, im, scene)
  {
    PlannedAreFresh(pf, im, scene, attempts, base);
    var unresolved, entities := DiagnosePlans(pf, im, scene, base, KeyIndex(base));
    plans := entities;
    if unresolved != [] {
      r := CompilationResult(SCHEMA_V1, im.imaginationId, scene.revision, None,
        SortBy(planDecisions, DecisionCmp), Dedup(SortBy(unresolved, UnresolvedCmp)));
      ReportsProblems(pf, im, scene, attempts, base, plans, unresolved);
      return;
    }
    var decisions := AppendRelationDecisions(entities, planDecisions);
    var patch := BuildPatch(im, entities);
    r := CompilationResult(SCHEMA_V1, im.imaginationId, scene.revision, Some(patch),
      SortBy(decisions, DecisionCmp), []);
    ReportsSuccess(pf, im, scene, attempts, base, plans);
  }

  lemma {:induction false} ReportsSuccess(
    pf: Platform, im: Imagination, scene: SceneView, attempts: nat, base: seq<EntityPlan>, plans: seq<EntityPlan>)
    requires im.DistinctKeys() && |base| == |KeyOrder(im)|
    requires PlannedPrefix(pf, im, scene, attempts, KeyOrder(im), base)
    requires Finished(pf, im, scene, base, plans)
    ensures Reports(pf, im, scene, attempts, base, plans,
      SuccessReport(im, scene, PlanDecisions(KeyOrder(im), base) + RelationDecisions(plans), plans))
  {
  }

  lemma {:induction false} ReportsProblems(
    pf: Platform, im: Imagination, scene: SceneView, attempts: nat, base: seq<EntityPlan>, plans: seq<EntityPlan>,
    unresolved: seq<Unresolved>)
    requires im.DistinctKeys() && |base| == |KeyOrder(im)|
    requires PlannedPrefix(pf, im, scene, attempts, KeyOrder(im), base)
    requires unresolved != [] && Elements(unresolved) == Elements(Problems(pf, im, scene))
    ensures Reports(pf, im, scene, attempts, base, plans,
      CompilationResult(SCHEMA_V1, im.imaginationId, scene.revision, None,
        SortBy(PlanDecisions(KeyOrder(im), base), DecisionCmp), Dedup(SortBy(unresolved, UnresolvedCmp))))
  {
    ProblemsShape(pf, im, scene);
    NoProblemsIffCompilable(pf, im, scene);
    EmptyElements(unresolved, Problems(pf, im, scene));
    DedupedAreProblems(unresolved, Problems(pf, im, scene));
  }

  /**
   * What becomes of a report: it is returned once its patch, its own limits and its encoding are checked, with a patch
   * exactly when the imagination is compilable, or it is refused for the first check that fails.
   */
  ghost predicate Published(
    pf: Platform, config: CompilerConfig, encodes: Encoder, im: Imagination, scene: SceneView, base: seq<EntityPlan>,
    plans: seq<EntityPlan>, r: Result<CompilationResult, CompileError>)
  {
    match r
    case Ok(v) =>
      && Reports(pf, im, scene, config.maxEntityIdAttempts, base, plans, v)
      && (v.patch.Some? ==> ValidatePatch(v.patch.value, config.runtimeLimits).None?)
      && ValidateResult(v, config.compilationLimits).None? && encodes(v, config.compilationLimits)
      && (v.patch.Some? <==> Compilable(pf, im, scene)) && (v.unresolved == [] <==> Compilable(pf, im, scene))
    case Err(InvalidNormalizedPatch(_)) => Compilable(pf, im, scene) && 4 * |im.entities| > U32_MAX
    case Err(InvalidCompilationResult(e)) => exists v ::
      && Reports(pf, im, scene, config.maxEntityIdAttempts, base, plans, v)
      && (v.patch.Some? ==> ValidatePatch(v.patch.value, config.runtimeLimits).None?)
      && ValidateResult(v, config.compilationLimits) == Some(e)
    case Err(InvalidCompilationEncoding) => exists v ::
      && Reports(pf, im, scene, config.maxEntityIdAttempts, base, plans, v)
      && (v.patch.Some? ==> ValidatePatch(v.patch.value, config.runtimeLimits).None?)
      && ValidateResult(v, config.compilationLimits).None? && !encodes(v, config.compilationLimits)
    case _ => false
  }

  /** Checks a report as `compile` does before it returns it. */
  method Publish(
    pf: Platform, config: CompilerConfig, encodes: Encoder, im: Imagination, scene: SceneView,
    report: CompilationResult, ghost base: seq<EntityPlan>, ghost plans: seq<EntityPlan>)
    returns (r: Result<CompilationResult, CompileError>)
    requires ValidateImagination(im, config.runtimeLimits).None? && im.baseRevision == scene.revision
    requires Reports(pf, im, scene, config.maxEntityIdAttempts, base, plans, report)
    ensures Published(pf, config, encodes, im, scene, base, plans, r)
    ensures r.Ok? ==> r.value == report
    ensures Derives(config) && r.Err? && r.error.InvalidCompilationResult? ==>
      Unreportable(pf, im, scene, r.error.error)
  {
    ReportRefusal(pf, im, scene, config.maxEntityIdAttempts, base, plans, report, config.runtimeLimits);
    if report.patch.Some? {
      var refused := ValidatePatch(report.patch.value, config.runtimeLimits);
      if refused.Some? {
        r := Err(InvalidNormalizedPatch(refused.value));
        return;
      }
    }
    var invalid := ValidateResult(report, config.compilationLimits);
    if invalid.Some? {
      r := Err(InvalidCompilationResult(invalid.value));
      return;
    }
    r := if encodes(report, config.compilationLimits) then Ok(report) else Err(InvalidCompilationEncoding);
  }

  /**
   * Compiles one imagination. Every outcome is explained: a patch exactly when the imagination is
   * compilable in the scene. Under the derived limits a report is refused only for its size, only with problems, and
   * only when relations or constraints cannot be counted in 32 bits; and its encoding is refused exactly when the size
   * that the request and the scene determine exceeds the derived one. That takes a compilable request which itself
   * exceeds the encoded size, or another one with uncountable parts, or a report longer than 64 bits can count.
   */
  method Compile(pf: Platform, config: CompilerConfig, show: Show, im: Imagination, scene: SceneView)
    returns (r: Result<CompilationResult, CompileError>, ghost base: seq<EntityPlan>, ghost plans: seq<EntityPlan>)
    ensures match r
      case Err(InvalidImagination(d)) => ValidateImagination(im, config.runtimeLimits) == Some(d)
      case Err(SceneRevisionMismatch(requested, actual)) =>
        && ValidateImagination(im, config.runtimeLimits).None?
        && requested == im.baseRevision != scene.revision == actual
      case Err(EntityIdDerivationExhausted(n, attempts)) =>
        && ValidateImagination(im, config.runtimeLimits).None? && im.baseRevision == scene.revision
        && attempts == config.maxEntityIdAttempts && Starved(pf, im, scene, attempts, n)
      case _ =>
        && ValidateImagination(im, config.runtimeLimits).None? && im.baseRevision == scene.revision
        && Published(pf, config, JsonEncoder(show), im, scene, base, plans, r)
    ensures Derives(config) && r.Err? && r.error.InvalidCompilationResult? ==>
      Unreportable(pf, im, scene, r.error.error)
    ensures Derives(config) && r.Ok? ==> ReportFits(pf, show, im, scene, config, base)
    ensures Derives(config) && r.Err? && r.error.InvalidCompilationEncoding? ==>
      Unencodable(pf, show, im, scene, config, base)
  {
    base, plans := [], [];
    var invalid := ValidateImagination(im, config.runtimeLimits);
    if invalid.Some? {
      r := Err(InvalidImagination(invalid.value));
      return;
    }
    if im.baseRevision != scene.revision {
      r := Err(SceneRevisionMismatch(im.baseRevision, scene.revision));
      return;
    }
    AdmittedKeysDistinct(im, config.runtimeLimits);
    var planned := PlanEntities(pf, im, scene, config.maxEntityIdAttempts);
    if planned.Exhausted? {
      r := Err(EntityIdDerivationExhausted(planned.entityIndex, config.maxEntityIdAttempts));
      return;
    }
    base := planned.plans;
    var report;
    report, plans := Report(pf, im, scene, config.maxEntityIdAttempts, planned.plans, planned.decisions);
    r := Publish(pf, config, JsonEncoder(show), im, scene, report, base, plans);
    if Derives(config) && r.Ok? {
      EncodingAccepted(pf, config, show, im, scene, base, plans, r.value);
    } else if Derives(config) && r.error.InvalidCompilationEncoding? {
      EncodingRefused(pf, config, show, im, scene, base, plans);
    }
  }

  /** The one way the derived limits refuse a report: too large, with problems, and beyond 32-bit counts. */
  ghost predicate Unreportable(pf: Platform, im: Imagination, scene: SceneView, e: ReportError) {
    e == ReportSizeLimitExceeded && !Compilable(pf, im, scene)
      && (|im.relations| > U32_MAX || |im.constraints| > U32_MAX)
  }

  /** The size that the request and the scene determine fits the derived encoded size. */
  ghost predicate ReportFits(
    pf: Platform, show: Show, im: Imagination, scene: SceneView, config: CompilerConfig, base: seq<EntityPlan>)
  {
    && im.DistinctKeys() && |base| == |KeyOrder(im)|
    && EncodedBytesOf(pf, show, im, scene, base) + 1 <= config.compilationLimits.maxEncodedBytes
  }

  /** It does not, and neither the request nor the parts of its report leave room for a better outcome. */
  ghost predicate Unencodable(
    pf: Platform, show: Show, im: Imagination, scene: SceneView, config: CompilerConfig, base: seq<EntityPlan>)
  {
    && im.DistinctKeys() && |base| == |KeyOrder(im)|
    && EncodedBytesOf(pf, show, im, scene, base) + 1 > config.compilationLimits.maxEncodedBytes
    && (Fits(pf, show, im, scene, config.runtimeLimits) && im.baseRevision <= U64_MAX ==>
          EncodedBytesOf(pf, show, im, scene, base) + 1 > U64_MAX)
  }

  /** Under the derived limits a report can be encoded exactly when the size that request and scene determine fits. */
  lemma {:induction false} ReportEncodes(
    pf: Platform, show: Show, im: Imagination, scene: SceneView, attempts: nat, base: seq<EntityPlan>,
    plans: seq<EntityPlan>, r: CompilationResult, limits: RuntimeLimits)
    requires Reports(pf, im, scene, attempts, base, plans, r) && im.baseRevision == scene.revision
    ensures Encodes(show, r, DerivedLimits(limits)) <==>
      EncodedBytesOf(pf, show, im, scene, base) + 1 <= DerivedLimits(limits).maxEncodedBytes
  {
    EncodesIffFits(show, r, limits);
    ReportTakes(pf, show, im, scene, attempts, base, plans, r);
  }

  lemma {:induction false} ReportTakes(
    pf: Platform, show: Show, im: Imagination, scene: SceneView, attempts: nat, base: seq<EntityPlan>,
    plans: seq<EntityPlan>, r: CompilationResult)
    requires Reports(pf, im, scene, attempts, base, plans, r) && im.baseRevision == scene.revision
    ensures ReportSize(show, r) == EncodedBytesOf(pf, show, im, scene, base)
  {
    if Compilable(pf, im, scene) {
      SuccessExactly(pf, show, im, scene, attempts, base, plans);
    } else {
      ProblemExactly(pf, show, im, scene, base);
    }
  }

  /** A request that fits has a report which does, unless 64 bits cannot count it. */
  lemma {:induction false} ReportFits64(
    pf: Platform, show: Show, im: Imagination, scene: SceneView, attempts: nat, base: seq<EntityPlan>,
    plans: seq<EntityPlan>, r: CompilationResult, limits: RuntimeLimits)
    requires ValidateImagination(im, limits).None? && im.baseRevision == scene.revision <= U64_MAX
    requires Reports(pf, im, scene, attempts, base, plans, r) && Fits(pf, show, im, scene, limits)
    requires r.patch.Some? ==> ValidatePatch(r.patch.value, limits).None?
    ensures var size := EncodedBytesOf(pf, show, im, scene, base);
      size + 1 <= DerivedLimits(limits).maxEncodedBytes <==> size + 1 <= U64_MAX
  {
    if Compilable(pf, im, scene) {
      ReportRefusal(pf, im, scene, attempts, base, plans, r, limits);
      SuccessFits64(pf, show, im, scene, attempts, base, plans, limits);
    } else {
      ProblemFits64(pf, im, scene, base, limits);
    }
  }

  lemma {:induction false} SizeDecides(
    pf: Platform, config: CompilerConfig, show: Show, im: Imagination, scene: SceneView, base: seq<EntityPlan>,
    plans: seq<EntityPlan>, v: CompilationResult)
    requires Derives(config) && ValidateImagination(im, config.runtimeLimits).None? && im.baseRevision == scene.revision
    requires Reports(pf, im, scene, config.maxEntityIdAttempts, base, plans, v)
    requires v.patch.Some? ==> ValidatePatch(v.patch.value, config.runtimeLimits).None?
    ensures ReportFits(pf, show, im, scene, config, base) || Unencodable(pf, show, im, scene, config, base)
  {
    if Fits(pf, show, im, scene, config.runtimeLimits) && im.baseRevision <= U64_MAX {
      ReportFits64(pf, show, im, scene, config.maxEntityIdAttempts, base, plans, v, config.runtimeLimits);
    }
  }

  lemma {:induction false} ReportDecided(
    pf: Platform, config: CompilerConfig, show: Show, im: Imagination, scene: SceneView, base: seq<EntityPlan>,
    plans: seq<EntityPlan>, v: CompilationResult)
    requires Derives(config) && ValidateImagination(im, config.runtimeLimits).None? && im.baseRevision == scene.revision
    requires Reports(pf, im, scene, config.maxEntityIdAttempts, base, plans, v)
    requires v.patch.Some? ==> ValidatePatch(v.patch.value, config.runtimeLimits).None?
    ensures Encodes(show, v, config.compilationLimits) ==> ReportFits(pf, show, im, scene, config, base)
    ensures !Encodes(show, v, config.compilationLimits) ==> Unencodable(pf, show, im, scene, config, base)
  {
    ReportEncodes(pf, show, im, scene, config.maxEntityIdAttempts, base, plans, v, config.runtimeLimits);
    SizeDecides(pf, config, show, im, scene, base, plans, v);
  }

  lemma {:induction false} EncodingAccepted(
    pf: Platform, config: CompilerConfig, show: Show, im: Imagination, scene: SceneView, base: seq<EntityPlan>,
    plans: seq<EntityPlan>, v: CompilationResult)
    requires Derives(config) && ValidateImagination(im, config.runtimeLimits).None? && im.baseRevision == scene.revision
    requires Published(pf, config, JsonEncoder(show), im, scene, base, plans, Ok(v))
    ensures ReportFits(pf, show, im, scene, config, base)
  {
    ReportDecided(pf, config, show, im, scene, base, plans, v);
  }

  lemma {:induction false} EncodingRefused(
    pf: Platform, config: CompilerConfig, show: Show, im: Imagination, scene: SceneView, base: seq<EntityPlan>,
    plans: seq<EntityPlan>)
    requires Derives(config) && ValidateImagination(im, config.runtimeLimits).None? && im.baseRevision == scene.revision
    requires Published(pf, config, JsonEncoder(show), im, scene, base, plans, Err(InvalidCompilationEncoding))
    ensures Unencodable(pf, show, im, scene, config, base)
  {
    var v :|
      && Reports(pf, im, scene, config.maxEntityIdAttempts, base, plans, v)
      && (v.patch.Some? ==> ValidatePatch(v.patch.value, config.runtimeLimits).None?)
      && !JsonEncoder(show)(v, config.compilationLimits);
    ReportDecided(pf, config, show, im, scene, base, plans, v);
  }

  lemma {:induction false} ReportRefusal(
    pf: Platform, im: Imagination, scene: SceneView, attempts: nat, base: seq<EntityPlan>, plans: seq<EntityPlan>,
    r: CompilationResult, limits: RuntimeLimits)
    requires ValidateImagination(im, limits).None? && im.baseRevision == scene.revision
    requires Reports(pf, im, scene, attempts, base, plans, r)
    ensures r.patch.Some? <==> Compilable(pf, im, scene)
    ensures r.unresolved == [] <==> Compilable(pf, im, scene)
    ensures r.patch.Some? ==> (ValidatePatch(r.patch.value, limits).None? <==> 4 * |im.entities| <= U32_MAX)
    ensures
      (ValidateResult(r, DerivedLimits(limits)).Some?
       && (r.patch.Some? ==> ValidatePatch(r.patch.value, limits).None?)) ==>
      Unreportable(pf, im, scene, ValidateResult(r, DerivedLimits(limits)).value)
  {
    ReportOutcome(pf, im, scene, attempts, base, plans, r, limits);
  }

  lemma {:induction false} ReportOutcome(
    pf: Platform, im: Imagination, scene: SceneView, attempts: nat, base: seq<EntityPlan>, plans: seq<EntityPlan>,
    r: CompilationResult, limits: RuntimeLimits)
    requires ValidateImagination(im, limits).None? && im.baseRevision == scene.revision
    requires Reports(pf, im, scene, attempts, base, plans, r)
    ensures r.patch.Some? <==> Compilable(pf, im, scene)
    ensures r.unresolved == [] <==> Compilable(pf, im, scene)
    ensures r.patch.Some? ==> (ValidatePatch(r.patch.value, limits).None? <==> 4 * |im.entities| <= U32_MAX)
    ensures Compilable(pf, im, scene) ==>
      (ValidateResult(r, DerivedLimits(limits)).None? <==> 4 * |im.entities| <= U32_MAX)
    ensures !Compilable(pf, im, scene) ==>
      ValidateResult(r, DerivedLimits(limits)) ==
        if Sat64(ProblemBytes(pf, im, scene, base)) <= DerivedLimits(limits).maxDecodedBytes then None
        else Some(ReportSizeLimitExceeded)
    ensures !Compilable(pf, im, scene) && |im.relations| <= U32_MAX && |im.constraints| <= U32_MAX ==>
      ValidateResult(r, DerivedLimits(limits)).None?
  {
    if Compilable(pf, im, scene) {
      PatchAdmittedIff(pf, im, scene, attempts, base, plans, limits);
      SuccessAdmittedIff(pf, im, scene, attempts, base, plans, limits);
    } else {
      NoProblemsIffCompilable(pf, im, scene);
      ProblemsShape(pf, im, scene);
      SortedProblems(Problems(pf, im, scene));
      ProblemsAdmittedIff(pf, im, scene, attempts, base, limits);
    }
  }
}
