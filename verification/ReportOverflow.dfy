/**
 * A request that admission accepts and whose own problem report the derived limits refuse (imagination.rs, limits.rs).
 */
module ReportOverflow {
  import opened Machine
  import opened Protocol
  import opened CompilationReport
  import opened Planning
  import opened Issues
  import opened Acceptance
  import opened CompiledReport
  import opened ComponentOverflow

  const CONSTRAINTS: nat := 0x2_0000_0000

  /** The decoded size that the saturated estimate of the request asks for, and little more. */
  const DECODED: NonZero64 := 17 * U32_MAX + 1000

  const TIGHT: RuntimeLimits := RuntimeLimits(
    U64_MAX, DECODED, U16_MAX, 1, 4, 4, 16, U32_MAX, U32_MAX, 1, 1, U32_MAX, U32_MAX, U32_MAX, U32_MAX, U64_MAX)

  const TIGHT_BUDGET: ImaginationBudget := ImaginationBudget(1, 1, U32_MAX, PatchBudget(1, 4, 16, DECODED))

  /** One entity, and more required entities than 32 bits count, all different and all missing. */
  function Demanding(): Imagination {
    Imagination(SCHEMA_V1, 1, 1, 1, 0, MustApply, 0, TIGHT_BUDGET, [Nth(0)], [],
      seq(CONSTRAINTS, i requires 0 <= i < CONSTRAINTS => EntityExists(i + 2)))
  }

  const EMPTY: SceneView := SceneView(0, {})

  lemma {:induction false} DemandingAdmitted()
    ensures ValidateImagination(Demanding(), TIGHT).None? && Demanding().DistinctKeys()
  {
    var im := Demanding();
    assert im.entities == [Nth(0)] && im.entities[1..] == [] && |im.constraints| == CONSTRAINTS;
    assert FirstBadEntity(im.entities, {}).None?;
    assert im.TextBytes() == 5 && im.OutputTextBytes() == 5;
    assert CheckEntitiesAndOutput(im, TIGHT).None?;
  }

  lemma {:induction false} ViolatedBytes(im: Imagination, scene: SceneView, n: nat)
    requires n <= |im.constraints| && forall i | 0 <= i < n :: !ConstraintHolds(scene, im.constraints[i])
    ensures ViolationSum(im, scene, n, (i: nat) => 34) == 34 * n
  {
    if n > 0 { ViolatedBytes(im, scene, n - 1); }
  }

  /**
   * The request is admitted and planned, and its problem report exceeds the limits derived from those that admitted it.
   */
  lemma {:induction false} AdmittedButUnreportable(pf: Platform, attempts: nat) returns (base: seq<EntityPlan>)
    ensures Demanding().SceneTexts() && ValidateImagination(Demanding(), TIGHT).None? && Demanding().DistinctKeys()
    ensures |base| == |KeyOrder(Demanding())|
      && PlannedPrefix(pf, Demanding(), EMPTY, attempts, KeyOrder(Demanding()), base)
    ensures !Compilable(pf, Demanding(), EMPTY)
    ensures ValidateResult(
      ProblemReport(Demanding(), EMPTY, PlanDecisions(KeyOrder(Demanding()), base), Problems(pf, Demanding(), EMPTY)),
      DerivedLimits(TIGHT)) == Some(ReportSizeLimitExceeded)
  {
    DemandingAdmitted();
    base := PlanDemanding(pf, attempts);
    DemandingFails(pf);
    DemandingRefused(pf, attempts, base);
  }

  lemma {:induction false} DemandingFails(pf: Platform)
    ensures !Compilable(pf, Demanding(), EMPTY)
  {
    var c := Demanding().constraints[0];
    assert c in Demanding().constraints && !ConstraintHolds(EMPTY, c);
  }

  lemma {:induction false} DemandingRefused(pf: Platform, attempts: nat, base: seq<EntityPlan>)
    requires |base| == |KeyOrder(Demanding())|
    ensures ValidateResult(
      ProblemReport(Demanding(), EMPTY, PlanDecisions(KeyOrder(Demanding()), base), Problems(pf, Demanding(), EMPTY)),
      DerivedLimits(TIGHT)) == Some(ReportSizeLimitExceeded)
  {
    DemandingAdmitted();
    DemandingFails(pf);
    DemandingBytes(pf, base);
    ProblemsAdmittedIff(pf, Demanding(), EMPTY, attempts, base, TIGHT);
  }

  lemma {:induction false} DemandingBytes(pf: Platform, base: seq<EntityPlan>)
    requires |base| <= |KeyOrder(Demanding())|
    ensures Sat64(ProblemBytes(pf, Demanding(), EMPTY, base)) > DerivedLimits(TIGHT).maxDecodedBytes
  {
    var im := Demanding();
    ViolatedBytes(im, EMPTY, CONSTRAINTS);
  }

  lemma {:induction false} PlanDemanding(pf: Platform, attempts: nat) returns (base: seq<EntityPlan>)
    ensures |base| == |KeyOrder(Demanding())|
      && PlannedPrefix(pf, Demanding(), EMPTY, attempts, KeyOrder(Demanding()), base)
  {
    var im := Demanding();
    DemandingAdmitted();
    KeyOrderStrict(im);
    var es := KeyOrder(im);
    forall i | 0 <= i < |es| ensures es[i] == Nth(0) {
      assert es[i] in im.entities;
    }
    PreferredPlanned(pf, im, es, attempts);
    base := Preferred(es);
  }
}
